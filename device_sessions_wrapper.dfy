/**
 * `com.testdroid.jenkins.plugins.devicesessions.DeviceSessionWrapper`, the
 * older build wrapper: it finds a free device flashed with the requested
 * build (flashing one when none is) once, then requests a session for that
 * device model, running the flash project again after each refused
 * request; it writes the device's labels to the workspace, looks up the
 * session's proxies, and releases the session when the build ends.
 */
module DeviceSessionsWrapper {
  import opened Remote
  import opened JavaText
  import opened WrapperCommon
  import opened DeviceSearch
  import opened FlashRun
  import opened DeviceData
  import opened ProxyLookup
  import opened SessionLog
  import opened DeviceSessionsFilter
  import opened DeviceCalls
  import opened SessionSetup

  // ---------------------------------------------------------------------
  // searchDevice

  /** The search texts of the filters: the group name and the label value. */
  function Queries(filters: seq<DeviceFilter>): (qs: seq<LabelQuery>)
    ensures |qs| == |filters|
    ensures forall i :: 0 <= i < |filters| ==> qs[i] == LabelQuery(filters[i].labelGroup, filters[i].value)
  {
    seq(|filters|, i requires 0 <= i < |filters| => LabelQuery(filters[i].labelGroup, filters[i].value))
  }

  /**
   * What a search answers: each filter resolves to the first label the
   * farm lists for its text in the first matching group (no exact
   * comparison); of the devices carrying all those labels, in the farm's
   * order, the first free one.
   */
  function SearchSpec(farm: Farm, filters: seq<DeviceFilter>): Outcome<Option<Device>> {
    match LabelIds(farm, Queries(filters), false)
    case Fail(e) => Fail(e)
    case Ok(None) => Ok(None)
    case Ok(Some(ids)) =>
      match farm.devices(ids)
      case Fail(e) => Fail(e)
      case Ok(devices) => Ok(FirstFree(devices))
  }

  /** `searchDevice(client, filters)` */
  method SearchDevice(farm: Farm, filters: seq<DeviceFilter>) returns (r: Outcome<Option<Device>>)
    ensures r == SearchSpec(farm, filters)
  {
    var ids := ResolveLabelIds(farm, Queries(filters), false);
    if ids.Fail? {
      return Fail(ids.error);
    }
    if ids.value.None? {
      return Ok(None);
    }
    var devices := farm.devices(ids.value.value);
    if devices.Fail? {
      return Fail(devices.error);
    }
    var chosen := SelectDevice(devices.value, false);
    return Ok(chosen);
  }

  /**
   * A device a search returns is free and is the first free one the farm
   * lists for the filters' labels; when the filters resolve and the farm
   * lists a free device, one is found.
   */
  lemma SearchFindsFirstFree(farm: Farm, filters: seq<DeviceFilter>)
    ensures var r := SearchSpec(farm, filters);
      r.Ok? && r.value.Some? ==>
        AllResolved(farm, Queries(filters), false) &&
        farm.devices(ResolvedIds(farm, Queries(filters), false)).Ok? &&
        var listed := farm.devices(ResolvedIds(farm, Queries(filters), false)).value;
        Free(r.value.value) &&
        exists i :: 0 <= i < |listed| && listed[i] == r.value.value && NoneFreeBefore(listed, i)
    ensures AllResolved(farm, Queries(filters), false) ==>
      var listed := farm.devices(ResolvedIds(farm, Queries(filters), false));
      listed.Ok? && (exists i :: 0 <= i < |listed.value| && Free(listed.value[i])) ==>
        SearchSpec(farm, filters).Ok? && SearchSpec(farm, filters).value.Some?
  {
    var qs := Queries(filters);
    if AllResolved(farm, qs, false) {
      var listed := farm.devices(ResolvedIds(farm, qs, false));
      if listed.Ok? && exists i :: 0 <= i < |listed.value| && Free(listed.value[i]) {
        var i :| 0 <= i < |listed.value| && Free(listed.value[i]);
        assert !NoneFreeBefore(listed.value, |listed.value|);
      }
    }
  }

  // ---------------------------------------------------------------------
  // runProject

  /** How `runProject` ends: its search takes free devices only, and a run not WAITING at the deadline is aborted. */
  function RunResult(filters: seq<DeviceFilter>, memTotal: string, io: FlashIo): Outcome<bool> {
    AttemptResult(memTotal, io, SearchSpec(io.search.farm, filters), AbortUnlessWaiting)
  }

  /**
   * `runProject`: as the current `flashDevice`, except that the device
   * search takes only free devices in the farm's order, and a run that has
   * not finished by the deadline is aborted unless it is still WAITING.
   */
  method RunProject(filters: seq<DeviceFilter>, buildURL: string, memTotal: string, io: FlashIo)
    returns (r: Outcome<bool>, parameters: Option<seq<Parameter>>, device: Option<Device>, aborted: bool, passes: nat)
    requires ConfigFits(io.parameters, io.nextId)
    ensures r == RunResult(filters, memTotal, io)
    ensures !RunCreated(memTotal, io) ==>
      r == EndBeforeRun(memTotal, io) && parameters.None? && device.None? && !aborted
    ensures RunCreated(memTotal, io) ==>
      parameters == Some(FlashParameters(io.nextId, buildURL, memTotal)) &&
      device == (match SearchSpec(io.search.farm, filters) case Ok(d) => d case Fail(_) => None)
    ensures RunCreated(memTotal, io) && SearchSpec(io.search.farm, filters).Fail? ==>
      r == Fail(SearchSpec(io.search.farm, filters).error) && !aborted
    ensures RunCreated(memTotal, io) && SearchSpec(io.search.farm, filters) == Ok(None) ==>
      r == Fail(IoError("Unable find device!")) && !aborted
    ensures device.Some? ==> Free(device.value)
    ensures device.Some? && io.startError.Some? ==> r == Fail(io.startError.value) && !aborted
    ensures device.Some? && io.startError.None? && io.started.Fail? ==> r == Fail(io.started.error) && !aborted
    ensures device.Some? && io.startError.None? && io.started.Ok? ==>
      PollOutcome(io.started.value, io.polls, AbortUnlessWaiting, io.abortError, r, aborted, passes)
  {
    parameters, device, aborted, passes := None, None, false, 0;
    if ParseInt(memTotal).None? {
      return Fail(NumberFormat(memTotal)), parameters, device, aborted, passes;
    }
    if io.me.Some? {
      return Fail(io.me.value), parameters, device, aborted, passes;
    }
    if io.projects.Fail? {
      return Fail(io.projects.error), parameters, device, aborted, passes;
    }
    if io.projects.value == [] {
      return Ok(false), parameters, device, aborted, passes;
    }
    if io.runError.Some? {
      return Fail(io.runError.value), parameters, device, aborted, passes;
    }
    var config := new RunConfig(io.parameters, io.nextId);
    ResetParameters(config, buildURL, memTotal);
    parameters := Some(config.parameters);
    var found := SearchDevice(io.search.farm, filters);
    if found.Fail? {
      return Fail(found.error), parameters, device, aborted, passes;
    }
    device := found.value;
    if device.None? {
      return Fail(IoError("Unable find device!")), parameters, device, aborted, passes;
    }
    if io.startError.Some? {
      return Fail(io.startError.value), parameters, device, aborted, passes;
    }
    if io.started.Fail? {
      return Fail(io.started.error), parameters, device, aborted, passes;
    }
    r, aborted, passes := PollRun(io.started.value, io.polls, AbortUnlessWaiting, io.abortError);
    PollOutcomeIsResult(io.started.value, io.polls, AbortUnlessWaiting, io.abortError, r, aborted, passes);
  }

  // ---------------------------------------------------------------------
  // getDevice

  /** The farm answering the k-th search, and the answers of the k-th flash run. */
  datatype GetDeviceIo = GetDeviceIo(searches: nat -> Farm, flashes: nat -> FlashIo)

  /** What the k-th search of `getDevice` answers. */
  function SearchAnswers(io: GetDeviceIo, searchFilters: seq<DeviceFilter>): nat -> Outcome<Option<Device>> {
    (k: nat) => SearchSpec(io.searches(k), searchFilters)
  }

  /** The configured filters and the label of the requested build. */
  function SearchFilters(filters: seq<DeviceFilter>, buildIdentifier: string): seq<DeviceFilter> {
    filters + [DeviceFilter(BuildIdentifierLabelGroup, buildIdentifier)]
  }

  /** How the k-th flash run of `getDevice` ends. */
  function RunAnswers(io: GetDeviceIo, flashFilters: seq<DeviceFilter>, memTotal: string): nat -> Outcome<bool> {
    (k: nat) => RunResult(flashFilters, memTotal, io.flashes(k))
  }

  /** What `getDevice` returns for configured filters. */
  function DeviceResult(filters: seq<DeviceFilter>, buildIdentifier: string, memTotal: string, io: GetDeviceIo): Outcome<Device> {
    Lookup(SearchAnswers(io, SearchFilters(filters, buildIdentifier)), RunAnswers(io, filters, memTotal), 0)
  }

  /**
   * `getDevice`: as the current one, except that a missing filter list
   * raises NullPointerException before any call, and both the searches and
   * the flash runs take only free devices.
   */
  method GetDevice(filters: Option<seq<DeviceFilter>>, buildIdentifier: string, buildURL: string, memTotal: string,
                   io: GetDeviceIo)
    returns (r: Outcome<Device>, calls: seq<Call<DeviceFilter>>)
    requires forall k :: ConfigFits(io.flashes(k).parameters, io.flashes(k).nextId)
    ensures filters.None? ==> r == Fail(NullReference) && calls == []
    ensures filters.Some? ==> r == DeviceResult(filters.value, buildIdentifier, memTotal, io)
    ensures filters.Some? ==>
      DeviceCallsEnd(r, calls, SearchFilters(filters.value, buildIdentifier), filters.value,
                     SearchAnswers(io, SearchFilters(filters.value, buildIdentifier)),
                     RunAnswers(io, filters.value, memTotal))
  {
    calls := [];
    if filters.None? {
      return Fail(NullReference), calls;
    }
    var searchFilters := SearchFilters(filters.value, buildIdentifier);
    var flashFilters := filters.value;
    var answers := SearchAnswers(io, searchFilters);
    var flashes := RunAnswers(io, flashFilters, memTotal);
    var maxRetries: int := FlashRetries;
    var k := 0;
    while true
      invariant PassesGoOn(calls, searchFilters, flashFilters, answers, flashes, k) && maxRetries == FlashRetries - k
      invariant Lookup(answers, flashes, k) == DeviceResult(filters.value, buildIdentifier, memTotal, io)
      decreases FlashRetries + 1 - k
    {
      var found := SearchDevice(io.searches(k), searchFilters);
      assert found == answers(k);
      var searched := calls + [Search(searchFilters, found)];
      if found.Fail? || found.value.Some? || maxRetries < 0 {
        r := if found.Fail? then Fail(found.error)
             else if found.value.Some? then Ok(found.value.value)
             else Fail(IoError("Device flashing failed"));
        SearchEnds(calls, searchFilters, flashFilters, answers, flashes, k, r);
        return r, searched;
      }
      maxRetries := maxRetries - 1;
      var outcome, _, _, _, _ := RunProject(flashFilters, buildURL, memTotal, io.flashes(k));
      assert outcome == flashes(k);
      if outcome.Fail? {
        FlashEnds(calls, searchFilters, flashFilters, answers, flashes, k);
        return Fail(outcome.error), searched + [Flash(flashFilters, outcome)];
      }
      PassGoesOn(calls, searchFilters, flashFilters, answers, flashes, k);
      calls := searched + [Flash(flashFilters, outcome)];
      k := k + 1;
    }
  }

  /** A device `getDevice` returns is free and carries the requested build's label, found by its last search. */
  lemma GetDeviceFindsBuild(filters: seq<DeviceFilter>, buildIdentifier: string, farm: Farm, d: Device)
    requires SearchSpec(farm, SearchFilters(filters, buildIdentifier)) == Ok(Some(d))
    ensures Free(d)
    ensures var fs := SearchFilters(filters, buildIdentifier);
      AllResolved(farm, Queries(fs), false) &&
      Resolve(farm, LabelQuery(BuildIdentifierLabelGroup, buildIdentifier), false).Ok? &&
      Resolve(farm, LabelQuery(BuildIdentifierLabelGroup, buildIdentifier), false).value ==
        Some(ResolvedIds(farm, Queries(fs), false)[|fs| - 1]) &&
      d in farm.devices(ResolvedIds(farm, Queries(fs), false)).value
  {
    var fs := SearchFilters(filters, buildIdentifier);
    SearchFindsFirstFree(farm, fs);
    assert Queries(fs)[|fs| - 1] == LabelQuery(BuildIdentifierLabelGroup, buildIdentifier);
  }

  // ---------------------------------------------------------------------
  // setUp and tearDown

  /** The answers a set-up gets from the farm and the host. */
  datatype SetUpIo = SetUpIo(
    me: Option<Failure>,                // the failure of the user lookup, if it fails
    device: GetDeviceIo,                // the device lookup
    requests: nat -> Outcome<Session>,  // the k-th session request
    runs: nat -> FlashIo,               // the flash run after the k-th refused request
    provision: ProvisionIo)             // the device data and proxy steps

  ghost predicate SetUpIoFits(io: SetUpIo) {
    && (forall k :: ConfigFits(io.device.flashes(k).parameters, io.device.flashes(k).nextId))
    && (forall k :: ConfigFits(io.runs(k).parameters, io.runs(k).nextId))
    && (io.provision.data.properties.Fail? ==> io.provision.data.properties.error.ApiFailure?)
  }

  /** The older device data keys are the label group names as the farm spells them. */
  function GroupNameAsIs(g: string): string { g }

  /**
   * `setUp`: with the build location expanded (`expand` stands for the
   * host's macro expansion; the memory setting is used as configured),
   * finds a device carrying the build once, then requests a session for
   * that device model up to four times, running the flash project after
   * every refused request; then writes the device data and looks up the
   * proxies as the current version does. A session is never waited for,
   * and no session is ever opened before the last request.
   */
  method SetUp(filters: Option<seq<DeviceFilter>>, buildURL: string, memTotal: Option<string>,
               expand: string -> string, io: SetUpIo)
    returns (r: Outcome<Environment>, log: seq<Event>, device: Option<Device>, runs: nat)
    requires SetUpIoFits(io)
    ensures io.me.Some? ==> r == Fail(WrapApi(io.me.value)) && log == [] && device.None?
    ensures io.me.None? && filters.None? ==> r == Fail(NullReference) && log == [] && device.None?
    ensures io.me.None? && filters.Some? ==>
      var found := DeviceResult(filters.value, SetUpIdentifier(buildURL, memTotal, expand), GetMemTotal(memTotal), io.device);
      && (found.Fail? ==> r == Fail(WrapApi(found.error)) && log == [] && device.None?)
      && (found.Ok? ==>
            var leased := LeaseResult(filters.value, GetMemTotal(memTotal), io);
            device == Some(found.value) &&
            r == if leased.Fail? then Fail(leased.error) else ProvisionResult(leased.value, io.provision, GroupNameAsIs))
    ensures device.None? ==> log == []
    ensures device.Some? ==> RequestsFor(log, device.value.id)
    ensures Requests(log) <= FlashRetries + 1 && runs <= Requests(log)
    ensures r.Ok? ==>
      device.Some? && Open(log) == multiset{r.value.session.id} &&
      ProxyResult(io.provision.adb) == Ok(r.value.adb) && ProxyResult(io.provision.marionette) == Ok(r.value.marionette) &&
      r.value.deviceData == ExpectedData(io.provision.data, GroupNameAsIs)
    ensures r.Fail? ==> Open(log) == multiset{} || EndsAbandoning(log)
  {
    log, device, runs := [], None, 0;
    if io.me.Some? {
      return Fail(WrapApi(io.me.value)), log, device, runs;
    }
    var finalBuildURL := expand(buildURL);
    var finalMemTotal := GetMemTotal(memTotal);
    var buildIdentifier := BuildIdentifier(finalMemTotal, finalBuildURL);
    var found, _ := GetDevice(filters, buildIdentifier, finalBuildURL, finalMemTotal, io.device);
    if found.Fail? {
      return Fail(WrapApi(found.error)), log, device, runs;
    }
    device := Some(found.value);
    var leased;
    leased, log, runs := RequestSession(filters.value, found.value.id, finalBuildURL, finalMemTotal, io);
    if leased.Fail? {
      return Fail(leased.error), log, device, runs;
    }
    var requested := log;
    r, log := Provision(log, leased.value, io.provision, GroupNameAsIs);
    RequestsForKept(requested, log, found.value.id);
  }

  /** The build identifier `setUp` searches with: the configured memory setting and the expanded build location. */
  function SetUpIdentifier(buildURL: string, memTotal: Option<string>, expand: string -> string): string {
    BuildIdentifier(GetMemTotal(memTotal), expand(buildURL))
  }

  /**
   * How the session loop ends from request `k` on: a granted request gives
   * its session; one refused with another status than 400 raises, wrapped;
   * after a 400 refusal the flash run's failure raises, wrapped, and
   * otherwise the next request decides, or, after the fourth,
   * "Device session is null".
   */
  function LeaseFrom(requests: nat -> Outcome<Session>, runs: nat -> Outcome<bool>, k: nat): Outcome<Session>
    requires k <= FlashRetries
    decreases FlashRetries - k
  {
    match requests(k)
    case Ok(session) => Ok(session)
    case Fail(e) =>
      if e != ApiFailure(400) then Fail(WrapApi(e))
      else if runs(k).Fail? then Fail(WrapApi(runs(k).error))
      else if k == FlashRetries then Fail(IoError("Device session is null"))
      else LeaseFrom(requests, runs, k + 1)
  }

  /** How the flash run after the k-th refused request ends. */
  function RunsAfterRefusal(filters: seq<DeviceFilter>, memTotal: string, io: SetUpIo): nat -> Outcome<bool> {
    (k: nat) => RunResult(filters, memTotal, io.runs(k))
  }

  /** How the session loop of `setUp` ends. */
  function LeaseResult(filters: seq<DeviceFilter>, memTotal: string, io: SetUpIo): Outcome<Session> {
    LeaseFrom(io.requests, RunsAfterRefusal(filters, memTotal, io), 0)
  }

  /** The first `n` session requests were refused with status 400. */
  predicate RefusedBefore(io: SetUpIo, n: int) {
    forall k :: 0 <= k < n ==> io.requests(k) == Fail(ApiFailure(400))
  }

  lemma RefusedStep(io: SetUpIo, k: nat)
    requires RefusedBefore(io, k) && io.requests(k) == Fail(ApiFailure(400))
    ensures RefusedBefore(io, k + 1)
  {
  }

  /**
   * The session loop of `setUp`: request a session for device model `id`;
   * after a refusal with status 400 run the flash project and request
   * again, four requests at most. No session is opened before the last
   * request, and none is left open when the loop fails.
   */
  method RequestSession(filters: seq<DeviceFilter>, id: int, buildURL: string, memTotal: string, io: SetUpIo)
    returns (r: Outcome<Session>, log: seq<Event>, runs: nat)
    requires forall k :: ConfigFits(io.runs(k).parameters, io.runs(k).nextId)
    ensures r == LeaseResult(filters, memTotal, io)
    ensures 1 <= Requests(log) <= FlashRetries + 1 && RequestsFor(log, id)
    ensures r.Ok? ==> Open(log) == multiset{r.value.id} && runs == Requests(log) - 1
    ensures r.Ok? ==> io.requests(Requests(log) - 1) == Ok(r.value)
    ensures RefusedBefore(io, Requests(log) - 1)
    ensures r.Fail? ==> Open(log) == multiset{}
    ensures runs == if io.requests(Requests(log) - 1) == Fail(ApiFailure(400)) then Requests(log) else Requests(log) - 1
    ensures io.requests(Requests(log) - 1) == Fail(ApiFailure(400)) && RunResult(filters, memTotal, io.runs(Requests(log) - 1)).Ok? ==>
      Requests(log) == FlashRetries + 1
  {
    var k;
    r, k := LeaseLoop(filters, buildURL, memTotal, io);
    log := LeaseEvents(id, k, io.requests(k));
    runs := if io.requests(k) == Fail(ApiFailure(400)) then k + 1 else k;
    LeaseEventsCount(id, k, io.requests(k));
  }

  /** The log of a session loop whose k-th request ended it with `last`: k + 1 requests, then the session if one was created. */
  function LeaseEvents(id: int, k: nat, last: Outcome<Session>): seq<Event> {
    if last.Ok? then RequestsOnly(id, k + 1) + [Event.Created(last.value.id)] else RequestsOnly(id, k + 1)
  }

  lemma LeaseEventsCount(id: int, k: nat, last: Outcome<Session>)
    ensures Requests(LeaseEvents(id, k, last)) == k + 1 && RequestsFor(LeaseEvents(id, k, last), id)
    ensures Open(LeaseEvents(id, k, last)) == if last.Ok? then multiset{last.value.id} else multiset{}
  {
    if last.Ok? {
      RequestsThenCreated(id, k + 1, last.value.id);
    } else {
      RequestsOnlyOpenNothing(id, k + 1);
    }
  }

  /** The passes of the session loop up to the one that ends it, the k-th. */
  method LeaseLoop(filters: seq<DeviceFilter>, buildURL: string, memTotal: string, io: SetUpIo)
    returns (r: Outcome<Session>, k: nat)
    requires forall j :: ConfigFits(io.runs(j).parameters, io.runs(j).nextId)
    ensures r == LeaseResult(filters, memTotal, io)
    ensures k <= FlashRetries && RefusedBefore(io, k)
    ensures io.requests(k).Ok? ==> r == io.requests(k)
    ensures io.requests(k).Fail? ==> r.Fail?
    ensures io.requests(k) == Fail(ApiFailure(400)) && RunResult(filters, memTotal, io.runs(k)).Ok? ==> k == FlashRetries
  {
    k := 0;
    while true
      invariant k <= FlashRetries && RefusedBefore(io, k)
      invariant LeaseFrom(io.requests, RunsAfterRefusal(filters, memTotal, io), k) == LeaseResult(filters, memTotal, io)
      decreases FlashRetries - k
    {
      var end := RequestOnce(filters, buildURL, memTotal, io, k);
      if end.Some? {
        return end.value, k;
      }
      RefusedStep(io, k);
      k := k + 1;
    }
  }

  /**
   * One pass of the session loop: the k-th request and, after a refusal
   * with status 400, the flash run. None asks for another pass; otherwise
   * the loop ends with the result given.
   */
  method RequestOnce(filters: seq<DeviceFilter>, buildURL: string, memTotal: string, io: SetUpIo, k: nat)
    returns (end: Option<Outcome<Session>>)
    requires k <= FlashRetries && ConfigFits(io.runs(k).parameters, io.runs(k).nextId)
    ensures io.requests(k).Ok? ==> end == Some(io.requests(k))
    ensures io.requests(k).Fail? && end.Some? ==> end.value.Fail?
    ensures end.None? ==> k < FlashRetries && io.requests(k) == Fail(ApiFailure(400))
    ensures var runs := RunsAfterRefusal(filters, memTotal, io);
      end.None? ==> LeaseFrom(io.requests, runs, k) == LeaseFrom(io.requests, runs, k + 1)
    ensures end.Some? ==> end.value == LeaseFrom(io.requests, RunsAfterRefusal(filters, memTotal, io), k)
    ensures end.Some? && io.requests(k) == Fail(ApiFailure(400)) && RunResult(filters, memTotal, io.runs(k)).Ok? ==>
      k == FlashRetries
  {
    var request := io.requests(k);
    if request.Ok? {
      return Some(request);
    }
    if request.error != ApiFailure(400) {
      return Some(Fail(WrapApi(request.error)));
    }
    var ran := RunAfterRefusal(filters, buildURL, memTotal, io.runs(k));
    assert ran == RunsAfterRefusal(filters, memTotal, io)(k);
    if ran.Fail? {
      return Some(Fail(WrapApi(ran.error)));
    }
    if k == FlashRetries {
      return Some(Fail(IoError("Device session is null")));
    }
    return None;
  }

  /**
   * The flash run of a pass whose request was refused: only its outcome
   * matters to the loop, and it ends as `runProject` does. It reports false
   * without a flash project and true only for a run that finished.
   */
  method RunAfterRefusal(filters: seq<DeviceFilter>, buildURL: string, memTotal: string, io: FlashIo)
    returns (r: Outcome<bool>)
    requires ConfigFits(io.parameters, io.nextId)
    ensures r == RunResult(filters, memTotal, io)
    ensures !RunCreated(memTotal, io) ==> r == EndBeforeRun(memTotal, io)
    ensures r == Ok(true) ==>
      RunCreated(memTotal, io) && SearchSpec(io.search.farm, filters).Ok? &&
      SearchSpec(io.search.farm, filters).value.Some? && Free(SearchSpec(io.search.farm, filters).value.value)
  {
    var parameters, device, aborted, passes;
    r, parameters, device, aborted, passes := RunProject(filters, buildURL, memTotal, io);
  }

  /** `tearDown`: nothing to do without a session; otherwise a single release, whose failure propagates. */
  function TearDown(session: Option<Session>, releaseError: Option<Failure>): (t: TearDownResult)
    ensures session.None? ==> t == TearDownResult(Ok(true), [])
    ensures t.outcome.Ok? ==> t.outcome.value
    ensures t.outcome.Fail? <==> session.Some? && releaseError.Some?
    ensures session.Some? ==> |t.events| == 1
    ensures session.Some? ==> t.events[0] == (if t.outcome.Ok? then Released(session.value.id) else ReleaseFailed(session.value.id))
  {
    if session.None? then TearDownResult(Ok(true), [])
    else if releaseError.None? then TearDownResult(Ok(true), [Released(session.value.id)])
    else TearDownResult(Fail(WrapApi(releaseError.value)), [ReleaseFailed(session.value.id)])
  }

  /**
   * A tear-down after a successful set-up leaves no session open when it
   * returns, and leaves the build's session open when the release fails.
   */
  lemma TearDownClosesSession(log: seq<Event>, env: Environment, releaseError: Option<Failure>)
    requires Open(log) == multiset{env.session.id}
    ensures var t := TearDown(Some(env.session), releaseError);
      (t.outcome.Ok? ==> Open(log + t.events) == multiset{}) &&
      (t.outcome.Fail? ==> Open(log + t.events) == multiset{env.session.id})
  {
    OpenStep(log, TearDown(Some(env.session), releaseError).events[0]);
  }

  /**
   * Four requests refused with status 400, each followed by a flash run
   * that does not raise, make the set-up give up with "Device session is
   * null" after four runs.
   */
  lemma SessionNullAfterFourRefusals(filters: seq<DeviceFilter>, memTotal: string, io: SetUpIo)
    requires RefusedBefore(io, FlashRetries + 1)
    requires forall k :: 0 <= k <= FlashRetries ==> RunResult(filters, memTotal, io.runs(k)).Ok?
    ensures LeaseResult(filters, memTotal, io) == Fail(IoError("Device session is null"))
  {
    LeaseNullFrom(io, RunsAfterRefusal(filters, memTotal, io), 0);
  }

  lemma {:induction false} LeaseNullFrom(io: SetUpIo, runs: nat -> Outcome<bool>, k: nat)
    requires k <= FlashRetries && RefusedBefore(io, FlashRetries + 1)
    requires forall j :: k <= j <= FlashRetries ==> runs(j).Ok?
    ensures LeaseFrom(io.requests, runs, k) == Fail(IoError("Device session is null"))
    decreases FlashRetries - k
  {
    assert io.requests(k) == Fail(ApiFailure(400));
    if k < FlashRetries {
      LeaseNullFrom(io, runs, k + 1);
    }
  }
}
