/**
 * `jenkins.plugins.testdroid.DeviceSessionWrapper`, the current build
 * wrapper: it finds a device flashed with the requested build (flashing one
 * when none is), leases it through a device session, writes the device's
 * labels to the workspace, looks up the session's proxies, and releases the
 * session when the build ends.
 */
module TestdroidWrapper {
  import opened Remote
  import opened JavaText
  import opened WrapperCommon
  import opened DeviceSearch
  import opened FlashRun
  import opened DeviceData
  import opened ProxyLookup
  import opened SessionLog
  import opened TestdroidFilter
  import opened DeviceCalls
  import opened SessionSetup

  /** Milliseconds a new session may stay WAITING. */
  const WaitForDeviceSession: nat := 1 * 60 * 1000
  /** Milliseconds between two reads of a waiting session. */
  const SessionPollInterval: nat := 5000

  // ---------------------------------------------------------------------
  // searchDevice

  /** The search texts of the filters: the group name and the label name. */
  function Queries(filters: seq<DeviceFilter>): (qs: seq<LabelQuery>)
    ensures |qs| == |filters|
    ensures forall i :: 0 <= i < |filters| ==> qs[i] == LabelQuery(filters[i].group, filters[i].labelName)
  {
    seq(|filters|, i requires 0 <= i < |filters| => LabelQuery(filters[i].group, filters[i].labelName))
  }

  /**
   * What a search answers: each filter resolves to the first exactly named
   * label of the first matching group; the devices carrying all those
   * labels are listed, shuffled, and the first free one is taken, or the
   * last leased one when `lockedAllowed`.
   */
  function SearchSpec(io: SearchIo, filters: seq<DeviceFilter>, lockedAllowed: bool): Outcome<Option<Device>> {
    match LabelIds(io.farm, Queries(filters), true)
    case Fail(e) => Fail(e)
    case Ok(None) => Ok(None)
    case Ok(Some(ids)) =>
      match io.farm.devices(ids)
      case Fail(e) => Fail(e)
      case Ok(devices) => if devices == [] then Ok(None) else Ok(Choice(io.shuffle(devices), lockedAllowed))
  }

  /** `searchDevice(client, filters, lockedDeviceAllowed)` */
  method SearchDevice(io: SearchIo, filters: seq<DeviceFilter>, lockedAllowed: bool) returns (r: Outcome<Option<Device>>)
    ensures r == SearchSpec(io, filters, lockedAllowed)
  {
    var ids := ResolveLabelIds(io.farm, Queries(filters), true);
    if ids.Fail? {
      return Fail(ids.error);
    }
    if ids.value.None? {
      return Ok(None);
    }
    var devices := io.farm.devices(ids.value.value);
    if devices.Fail? {
      return Fail(devices.error);
    }
    if devices.value == [] {
      return Ok(None);
    }
    var chosen := SelectDevice(io.shuffle(devices.value), lockedAllowed);
    return Ok(chosen);
  }

  /**
   * A device a search returns carries every filter's label and is online;
   * it is free unless leased devices are allowed. When the filters resolve,
   * a free device among those listed is always found, and with leased
   * devices allowed so is any online one.
   */
  lemma SearchFindsDevice(io: SearchIo, filters: seq<DeviceFilter>, lockedAllowed: bool)
    requires IsShuffle(io.shuffle)
    ensures var r := SearchSpec(io, filters, lockedAllowed);
      r.Ok? && r.value.Some? ==>
        AllResolved(io.farm, Queries(filters), true) &&
        io.farm.devices(ResolvedIds(io.farm, Queries(filters), true)).Ok? &&
        r.value.value in io.farm.devices(ResolvedIds(io.farm, Queries(filters), true)).value &&
        r.value.value.online && (lockedAllowed || Free(r.value.value))
    ensures AllResolved(io.farm, Queries(filters), true) ==>
      var listed := io.farm.devices(ResolvedIds(io.farm, Queries(filters), true));
      var r := SearchSpec(io, filters, lockedAllowed);
      listed.Ok? ==>
        ((exists i :: 0 <= i < |listed.value| && Free(listed.value[i])) ==> r.Ok? && r.value.Some? && Free(r.value.value)) &&
        (lockedAllowed && (exists i :: 0 <= i < |listed.value| && listed.value[i].online) ==> r.Ok? && r.value.Some?)
  {
    var qs := Queries(filters);
    if AllResolved(io.farm, qs, true) {
      var listed := io.farm.devices(ResolvedIds(io.farm, qs, true));
      if listed.Ok? && listed.value != [] {
        ChoiceAfterShuffle(listed.value, io.shuffle(listed.value), lockedAllowed);
      }
    }
  }

  /** The label a filter resolves to is named exactly as the filter says. */
  lemma SearchMatchesLabelNamesExactly(io: SearchIo, filters: seq<DeviceFilter>, i: nat)
    requires i < |filters| && AllResolved(io.farm, Queries(filters), true)
    ensures exists groups: seq<LabelHit>, hits: seq<LabelHit>, j: int ::
      io.farm.labelGroups(filters[i].group) == Ok(groups) && groups != [] &&
      io.farm.labels(groups[0].id, filters[i].labelName) == Ok(hits) &&
      0 <= j < |hits| && hits[j].displayName == filters[i].labelName &&
      ResolvedIds(io.farm, Queries(filters), true)[i] == hits[j].id
  {
    var q := Queries(filters)[i];
    assert Resolved(io.farm, q, true);
    var groups := io.farm.labelGroups(q.groupText).value;
    var hits := io.farm.labels(groups[0].id, q.labelText).value;
    var j := FirstExact(hits, q.labelText).value;
    assert hits[j].displayName == filters[i].labelName;
  }

  // ---------------------------------------------------------------------
  // flashDevice

  /** How `flashDevice` ends: its search allows leased devices, and a run still WAITING at the deadline is aborted. */
  function FlashResult(filters: seq<DeviceFilter>, memTotal: string, io: FlashIo): Outcome<bool> {
    AttemptResult(memTotal, io, SearchSpec(io.search, filters, true), AbortIfWaiting)
  }

  /**
   * `flashDevice`: checks the memory setting is a number, finds the flash
   * project, creates a run, resets its parameters to the build location
   * and the memory setting, searches a device (leased ones allowed), starts
   * the run on it and waits for it, aborting a run still WAITING at the
   * deadline.
   */
  method FlashDevice(filters: seq<DeviceFilter>, buildURL: string, memTotal: string, io: FlashIo)
    returns (r: Outcome<bool>, parameters: Option<seq<Parameter>>, device: Option<Device>, aborted: bool, passes: nat)
    requires ConfigFits(io.parameters, io.nextId)
    ensures r == FlashResult(filters, memTotal, io)
    ensures !RunCreated(memTotal, io) ==>
      r == EndBeforeRun(memTotal, io) && parameters.None? && device.None? && !aborted
    ensures RunCreated(memTotal, io) ==>
      parameters == Some(FlashParameters(io.nextId, buildURL, memTotal)) &&
      device == (match SearchSpec(io.search, filters, true) case Ok(d) => d case Fail(_) => None)
    ensures RunCreated(memTotal, io) && SearchSpec(io.search, filters, true).Fail? ==>
      r == Fail(SearchSpec(io.search, filters, true).error) && !aborted
    ensures RunCreated(memTotal, io) && SearchSpec(io.search, filters, true) == Ok(None) ==>
      r == Fail(IoError("Unable find device!")) && !aborted
    ensures device.Some? && io.startError.Some? ==> r == Fail(io.startError.value) && !aborted
    ensures device.Some? && io.startError.None? && io.started.Fail? ==> r == Fail(io.started.error) && !aborted
    ensures device.Some? && io.startError.None? && io.started.Ok? ==>
      PollOutcome(io.started.value, io.polls, AbortIfWaiting, io.abortError, r, aborted, passes)
  {
    parameters, device, aborted, passes := None, None, false, 0;
    if ParseInt(memTotal).None? {
      return Fail(NumberFormat(memTotal)), parameters, device, aborted, passes;
    }
    if io.me.Some? {
      return Fail(io.me.value), parameters, device, aborted, passes;
    }
    if io.projects.Fail? {
      return Fail(io.projects.error), parameters, device, aborted, passes;
    }
    if io.projects.value == [] {
      return Ok(false), parameters, device, aborted, passes;
    }
    if io.runError.Some? {
      return Fail(io.runError.value), parameters, device, aborted, passes;
    }
    var config := new RunConfig(io.parameters, io.nextId);
    ResetParameters(config, buildURL, memTotal);
    parameters := Some(config.parameters);
    var found := SearchDevice(io.search, filters, true);
    if found.Fail? {
      return Fail(found.error), parameters, device, aborted, passes;
    }
    device := found.value;
    if device.None? {
      return Fail(IoError("Unable find device!")), parameters, device, aborted, passes;
    }
    if io.startError.Some? {
      return Fail(io.startError.value), parameters, device, aborted, passes;
    }
    if io.started.Fail? {
      return Fail(io.started.error), parameters, device, aborted, passes;
    }
    r, aborted, passes := PollRun(io.started.value, io.polls, AbortIfWaiting, io.abortError);
    PollOutcomeIsResult(io.started.value, io.polls, AbortIfWaiting, io.abortError, r, aborted, passes);
  }

  // ---------------------------------------------------------------------
  // getDevice

  /** The answers of the k-th search and of the k-th flash attempt. */
  datatype GetDeviceIo = GetDeviceIo(searches: nat -> SearchIo, flashes: nat -> FlashIo)

  ghost predicate FlashConfigsFit(io: GetDeviceIo) {
    forall k :: ConfigFits(io.flashes(k).parameters, io.flashes(k).nextId)
  }

  /** The configured filters; none configured is an empty list. */
  function BaseFilters(filters: Option<seq<DeviceFilter>>): seq<DeviceFilter> {
    if filters.Some? then filters.value else []
  }

  /** The configured filters and the label of the requested build. */
  function SearchFilters(filters: Option<seq<DeviceFilter>>, buildIdentifier: string): seq<DeviceFilter> {
    BaseFilters(filters) + [DeviceFilter(BuildIdentifierLabelGroup, buildIdentifier)]
  }

  /** What the k-th search of `getDevice` answers. */
  function SearchAnswers(io: GetDeviceIo, searchFilters: seq<DeviceFilter>): nat -> Outcome<Option<Device>> {
    (k: nat) => SearchSpec(io.searches(k), searchFilters, false)
  }

  /** How the k-th flash of `getDevice` ends. */
  function FlashAnswers(io: GetDeviceIo, flashFilters: seq<DeviceFilter>, memTotal: string): nat -> Outcome<bool> {
    (k: nat) => FlashResult(flashFilters, memTotal, io.flashes(k))
  }

  /** What `getDevice` returns. */
  function DeviceResult(filters: Option<seq<DeviceFilter>>, buildIdentifier: string, memTotal: string, io: GetDeviceIo): Outcome<Device> {
    Lookup(SearchAnswers(io, SearchFilters(filters, buildIdentifier)), FlashAnswers(io, BaseFilters(filters), memTotal), 0)
  }

  /**
   * `getDevice`: searches a free device carrying the build's label; each
   * time none is found it flashes one (searching with the configured
   * filters only, leased devices allowed) and searches again, and after the
   * fourth flash gives up with "Device flashing failed".
   */
  method GetDevice(filters: Option<seq<DeviceFilter>>, buildIdentifier: string, buildURL: string, memTotal: string,
                   io: GetDeviceIo)
    returns (r: Outcome<Device>, calls: seq<Call<DeviceFilter>>)
    requires FlashConfigsFit(io)
    ensures r == DeviceResult(filters, buildIdentifier, memTotal, io)
    ensures DeviceCallsEnd(r, calls, SearchFilters(filters, buildIdentifier), BaseFilters(filters),
                           SearchAnswers(io, SearchFilters(filters, buildIdentifier)),
                           FlashAnswers(io, BaseFilters(filters), memTotal))
  {
    var searchFilters := SearchFilters(filters, buildIdentifier);
    var flashFilters := BaseFilters(filters);
    var answers := SearchAnswers(io, searchFilters);
    var flashes := FlashAnswers(io, flashFilters, memTotal);
    var maxRetries: int := FlashRetries;
    calls := [];
    var k := 0;
    while true
      invariant PassesGoOn(calls, searchFilters, flashFilters, answers, flashes, k) && maxRetries == FlashRetries - k
      invariant Lookup(answers, flashes, k) == DeviceResult(filters, buildIdentifier, memTotal, io)
      decreases FlashRetries + 1 - k
    {
      var found := SearchDevice(io.searches(k), searchFilters, false);
      assert found == answers(k);
      var searched := calls + [Search(searchFilters, found)];
      if found.Fail? || found.value.Some? || maxRetries < 0 {
        r := if found.Fail? then Fail(found.error)
             else if found.value.Some? then Ok(found.value.value)
             else Fail(IoError("Device flashing failed"));
        SearchEnds(calls, searchFilters, flashFilters, answers, flashes, k, r);
        return r, searched;
      }
      maxRetries := maxRetries - 1;
      var outcome, _, _, _, _ := FlashDevice(flashFilters, buildURL, memTotal, io.flashes(k));
      assert outcome == flashes(k);
      if outcome.Fail? {
        FlashEnds(calls, searchFilters, flashFilters, answers, flashes, k);
        return Fail(outcome.error), searched + [Flash(flashFilters, outcome)];
      }
      PassGoesOn(calls, searchFilters, flashFilters, answers, flashes, k);
      calls := searched + [Flash(flashFilters, outcome)];
      k := k + 1;
    }
  }

  /** A device `getDevice` returns is free and carries the requested build's label. */
  lemma GetDeviceFindsBuild(filters: Option<seq<DeviceFilter>>, buildIdentifier: string, io: SearchIo, d: Device)
    requires IsShuffle(io.shuffle)
    requires SearchSpec(io, SearchFilters(filters, buildIdentifier), false) == Ok(Some(d))
    ensures Free(d)
    ensures var fs := SearchFilters(filters, buildIdentifier);
      AllResolved(io.farm, Queries(fs), true) &&
      Resolve(io.farm, LabelQuery(BuildIdentifierLabelGroup, buildIdentifier), true).Ok? &&
      Resolve(io.farm, LabelQuery(BuildIdentifierLabelGroup, buildIdentifier), true).value ==
        Some(ResolvedIds(io.farm, Queries(fs), true)[|fs| - 1]) &&
      d in io.farm.devices(ResolvedIds(io.farm, Queries(fs), true)).value
  {
    var fs := SearchFilters(filters, buildIdentifier);
    SearchFindsDevice(io, fs, false);
    assert Queries(fs)[|fs| - 1] == LabelQuery(BuildIdentifierLabelGroup, buildIdentifier);
  }

  // ---------------------------------------------------------------------
  // waitUntilDeviceSessionIsRunning

  /**
   * The k-th pass of the wait: whether its five-second sleep is
   * interrupted, how much longer than asked it takes, and what the refresh
   * after it reads (a failing refresh is ignored).
   */
  datatype SessionPoll = SessionPoll(interrupted: bool, lag: nat, refreshed: Outcome<SessionState>)

  /** Milliseconds since the deadline was set, after `k` passes. */
  function WaitElapsed(polls: nat -> SessionPoll, k: nat): nat {
    if k == 0 then 0 else WaitElapsed(polls, k - 1) + SessionPollInterval + polls(k - 1).lag
  }

  lemma {:induction false} WaitElapsedAtLeast(polls: nat -> SessionPoll, k: nat)
    ensures WaitElapsed(polls, k) >= SessionPollInterval * k
  {
    if k > 0 {
      WaitElapsedAtLeast(polls, k - 1);
    }
  }

  /** The session's state after `k` passes: the last state a refresh read. */
  function StateAfter(initial: SessionState, polls: nat -> SessionPoll, k: nat): SessionState {
    if k == 0 then initial
    else
      match polls(k - 1).refreshed
      case Ok(s) => s
      case Fail(_) => StateAfter(initial, polls, k - 1)
  }

  /** Pass `j` began with the session still WAITING and the deadline not reached. */
  predicate WaitGoesOn(initial: SessionState, polls: nat -> SessionPoll, timeout: nat, j: nat) {
    StateAfter(initial, polls, j) == SessionState.Waiting && WaitElapsed(polls, j) < timeout
  }

  /** The end of the wait: its result, the session's last state read, and the passes it made. */
  datatype WaitEnd = WaitEnd(result: Outcome<bool>, state: SessionState, passes: nat)

  /**
   * The end of the wait from pass `j` on: once the session is no longer
   * WAITING or the deadline has passed, whether it is RUNNING; an
   * interrupted sleep ends it with the interrupt.
   */
  function WaitFrom(initial: SessionState, polls: nat -> SessionPoll, timeout: nat, j: nat): WaitEnd
    decreases timeout - SessionPollInterval * j
  {
    var state := StateAfter(initial, polls, j);
    if !WaitGoesOn(initial, polls, timeout, j) then WaitEnd(Ok(state == SessionState.Running), state, j)
    else if polls(j).interrupted then WaitEnd(Fail(Interrupted), state, j + 1)
    else
      WaitElapsedAtLeast(polls, j);
      WaitFrom(initial, polls, timeout, j + 1)
  }

  /** The end of the wait for a session created in state `initial`. */
  function WaitResult(initial: SessionState, polls: nat -> SessionPoll, timeout: nat): WaitEnd {
    WaitFrom(initial, polls, timeout, 0)
  }

  /**
   * `waitUntilDeviceSessionIsRunning`: re-reads the session every five
   * seconds while it is WAITING and the timeout has not passed; true when
   * it ends RUNNING. An interrupted sleep propagates.
   */
  method WaitUntilDeviceSessionIsRunning(session: Session, timeout: nat, polls: nat -> SessionPoll)
    returns (r: Outcome<bool>, state: SessionState, passes: nat)
    ensures WaitEnd(r, state, passes) == WaitResult(session.state, polls, timeout)
    ensures forall j :: 0 <= j < passes ==> WaitGoesOn(session.state, polls, timeout, j)
    ensures passes * SessionPollInterval < timeout + SessionPollInterval
    ensures r.Fail? ==> r == Fail(Interrupted) && passes > 0 && polls(passes - 1).interrupted
    ensures forall j :: 0 <= j < passes && (r.Ok? || j < passes - 1) ==> !polls(j).interrupted
    ensures r.Ok? ==>
      state == StateAfter(session.state, polls, passes) &&
      !WaitGoesOn(session.state, polls, timeout, passes) &&
      (r.value <==> state == SessionState.Running)
  {
    state := session.state;
    passes := 0;
    var elapsed := 0;
    while state == SessionState.Waiting && elapsed < timeout
      invariant state == StateAfter(session.state, polls, passes) && elapsed == WaitElapsed(polls, passes)
      invariant forall j :: 0 <= j < passes ==> WaitGoesOn(session.state, polls, timeout, j)
      invariant forall j :: 0 <= j < passes ==> !polls(j).interrupted
      invariant SessionPollInterval * passes <= elapsed
      invariant passes * SessionPollInterval < timeout + SessionPollInterval
      invariant WaitFrom(session.state, polls, timeout, passes) == WaitResult(session.state, polls, timeout)
      decreases timeout - elapsed
    {
      assert WaitGoesOn(session.state, polls, timeout, passes);
      var poll := polls(passes);
      passes := passes + 1;
      if poll.interrupted {
        return Fail(Interrupted), state, passes;
      }
      elapsed := elapsed + SessionPollInterval + poll.lag;
      if poll.refreshed.Ok? {
        state := poll.refreshed.value;
      }
    }
    r := Ok(state == SessionState.Running);
  }

  // ---------------------------------------------------------------------
  // setUp and tearDown

  /** The answers one pass of the session loop gets. */
  datatype Attempt = Attempt(
    device: GetDeviceIo,            // the device lookup
    request: Outcome<Session>,      // the session request
    wait: nat -> SessionPoll,       // the wait for the session to run
    releaseError: Option<Failure>)  // the failure of releasing a session that did not run, if it fails

  /** The answers a set-up gets from the farm and the host. */
  datatype SetUpIo = SetUpIo(
    me: Option<Failure>,            // the failure of the user lookup, if it fails
    attempts: nat -> Attempt,       // the passes of the session loop
    provision: ProvisionIo)         // the device data and proxy steps

  ghost predicate SetUpIoFits(io: SetUpIo) {
    && (forall k, j :: ConfigFits(io.attempts(k).device.flashes(j).parameters, io.attempts(k).device.flashes(j).nextId))
    && (io.provision.data.properties.Fail? ==> io.provision.data.properties.error.ApiFailure?)
  }

  /**
   * How one pass of the session loop ends: the failure of the device
   * lookup or of a request not refused with status 400, wrapped; None after
   * a 400 refusal; for a created session, the interrupt of the wait, the
   * session when it runs, and when it does not, None once it is released or
   * the failure of the release.
   */
  function PassResult(device: Outcome<Device>, attempt: Attempt): Outcome<Option<Session>> {
    if device.Fail? then Fail(WrapApi(device.error))
    else if attempt.request.Fail? then
      if attempt.request.error == ApiFailure(400) then Ok(None) else Fail(WrapApi(attempt.request.error))
    else SettleResult(attempt.request.value, attempt.wait, attempt.releaseError)
  }

  /**
   * How a pass ends once the farm has created the session: the interrupt of
   * the wait, the session when it runs, and when it does not, None once it
   * is released or the failure of the release.
   */
  function SettleResult(created: Session, wait: nat -> SessionPoll, releaseError: Option<Failure>): Outcome<Option<Session>> {
    var w := WaitResult(created.state, wait, WaitForDeviceSession);
    if w.result.Fail? then Fail(w.result.error)
    else if w.result.value then Ok(Some(Session(created.id, w.state)))
    else if releaseError.Some? then Fail(WrapApi(releaseError.value))
    else Ok(None)
  }

  /** The events that follow the creation of session `id`, by how the wait ended. */
  function SettleEvents(wait: Outcome<bool>, releaseError: Option<Failure>, id: int): seq<Event> {
    if wait.Fail? then [WaitInterrupted(id)] else if wait.value then [] else [ReleaseEvent(releaseError, id)]
  }

  /** How pass `k` of the session loop ends. */
  function PassAt(filters: Option<seq<DeviceFilter>>, buildIdentifier: string, memTotal: string, attempts: nat -> Attempt, k: nat): Outcome<Option<Session>> {
    PassResult(DeviceResult(filters, buildIdentifier, memTotal, attempts(k).device), attempts(k))
  }

  /**
   * How the session loop ends from pass `k` on: the first pass that fails
   * or yields a session decides; when the fourth pass still yields none,
   * "Device session is null".
   */
  function SessionFrom(filters: Option<seq<DeviceFilter>>, buildIdentifier: string, memTotal: string, attempts: nat -> Attempt, k: nat): Outcome<Session>
    requires k <= FlashRetries
    decreases FlashRetries - k
  {
    match PassAt(filters, buildIdentifier, memTotal, attempts, k)
    case Fail(e) => Fail(e)
    case Ok(Some(session)) => Ok(session)
    case Ok(None) =>
      if k == FlashRetries then Fail(IoError("Device session is null"))
      else SessionFrom(filters, buildIdentifier, memTotal, attempts, k + 1)
  }

  /** The build identifier `setUp` searches with, from the expanded memory setting and build location. */
  function SetUpIdentifier(buildURL: string, memTotal: Option<string>, expand: string -> string): string {
    BuildIdentifier(expand(GetMemTotal(memTotal)), expand(buildURL))
  }

  /**
   * `setUp`: with the build location and memory setting expanded
   * (`expand` stands for the host's macro expansion), requests a session for
   * a device carrying the build, waiting up to a minute for it to run and
   * releasing it when it does not, at most four times; then writes the
   * device data and looks up the adb and marionette proxies, releasing the
   * session when a lookup fails. Every session opened is released again
   * unless the set-up succeeds or gives up abandoning it: an interrupted
   * wait, a failing release, or a failing data write leave it open.
   */
  method SetUp(filters: Option<seq<DeviceFilter>>, buildURL: string, memTotal: Option<string>,
               expand: string -> string, io: SetUpIo)
    returns (r: Outcome<Environment>, log: seq<Event>)
    requires SetUpIoFits(io)
    ensures io.me.Some? ==> r == Fail(WrapApi(io.me.value)) && log == []
    ensures io.me.None? ==>
      var leased := SessionFrom(filters, SetUpIdentifier(buildURL, memTotal, expand), expand(GetMemTotal(memTotal)), io.attempts, 0);
      r == if leased.Fail? then Fail(leased.error) else ProvisionResult(leased.value, io.provision, NormalizedGroupName)
    ensures Requests(log) <= FlashRetries + 1
    ensures r.Ok? ==>
      Open(log) == multiset{r.value.session.id} && r.value.session.state == SessionState.Running &&
      ProxyResult(io.provision.adb) == Ok(r.value.adb) && ProxyResult(io.provision.marionette) == Ok(r.value.marionette) &&
      r.value.deviceData == ExpectedData(io.provision.data, NormalizedGroupName)
    ensures r.Fail? ==> Open(log) == multiset{} || EndsAbandoning(log)
  {
    log := [];
    if io.me.Some? {
      return Fail(WrapApi(io.me.value)), log;
    }
    var finalBuildURL := expand(buildURL);
    var finalMemTotal := expand(GetMemTotal(memTotal));
    var buildIdentifier := BuildIdentifier(finalMemTotal, finalBuildURL);
    var leased;
    leased, log := LeaseSession(log, filters, buildIdentifier, finalBuildURL, finalMemTotal, io.attempts);
    if leased.Fail? {
      return Fail(leased.error), log;
    }
    r, log := Provision(log, leased.value, io.provision, NormalizedGroupName);
  }

  /**
   * The session loop of `setUp`: up to four passes, until one fails or
   * yields a running session; "Device session is null" when none does.
   */
  method LeaseSession(log: seq<Event>, filters: Option<seq<DeviceFilter>>, buildIdentifier: string,
                      buildURL: string, memTotal: string, attempts: nat -> Attempt)
    returns (r: Outcome<Session>, log': seq<Event>)
    requires Open(log) == multiset{}
    requires forall k, j :: ConfigFits(attempts(k).device.flashes(j).parameters, attempts(k).device.flashes(j).nextId)
    ensures r == SessionFrom(filters, buildIdentifier, memTotal, attempts, 0)
    ensures Requests(log') <= Requests(log) + FlashRetries + 1
    ensures r.Ok? ==> Open(log') == multiset{r.value.id} && r.value.state == SessionState.Running
    ensures r.Fail? ==> Open(log') == multiset{} || EndsAbandoning(log')
  {
    log' := log;
    var retries: int := FlashRetries;
    var k := 0;
    while true
      invariant Open(log') == multiset{} && Requests(log') <= Requests(log) + k
      invariant k <= FlashRetries && retries == FlashRetries - k
      invariant SessionFrom(filters, buildIdentifier, memTotal, attempts, k) == SessionFrom(filters, buildIdentifier, memTotal, attempts, 0)
      decreases FlashRetries - k
    {
      var pass;
      pass, log' := RequestSession(log', filters, buildIdentifier, buildURL, memTotal, attempts(k));
      if pass.Fail? {
        return Fail(pass.error), log';
      }
      if pass.value.Some? {
        return Ok(pass.value.value), log';
      }
      if retries <= 0 {
        return Fail(IoError("Device session is null")), log';
      }
      retries := retries - 1;
      k := k + 1;
    }
  }

  /**
   * One pass of the session loop of `setUp`: find a flashed device, request
   * a session for it and wait for the session to run. Ok(None) asks for
   * another pass: the request was refused with status 400, or the session
   * did not run and was released.
   */
  method RequestSession(log: seq<Event>, filters: Option<seq<DeviceFilter>>, buildIdentifier: string,
                        buildURL: string, memTotal: string, attempt: Attempt)
    returns (r: Outcome<Option<Session>>, log': seq<Event>)
    requires Open(log) == multiset{}
    requires forall j :: ConfigFits(attempt.device.flashes(j).parameters, attempt.device.flashes(j).nextId)
    ensures r == PassResult(DeviceResult(filters, buildIdentifier, memTotal, attempt.device), attempt)
    ensures var device := DeviceResult(filters, buildIdentifier, memTotal, attempt.device);
      && (device.Fail? ==> log' == log)
      && (device.Ok? && attempt.request.Fail? ==> log' == log + [Requested(device.value.id)])
      && (device.Ok? && attempt.request.Ok? ==>
            var id := attempt.request.value.id;
            var wait := WaitResult(attempt.request.value.state, attempt.wait, WaitForDeviceSession).result;
            log' == log + [Requested(device.value.id), Event.Created(id)] + SettleEvents(wait, attempt.releaseError, id))
    ensures Requests(log') <= Requests(log) + 1
    ensures r == Ok(None) ==> Open(log') == multiset{} && Requests(log') == Requests(log) + 1
    ensures r.Ok? && r.value.Some? ==>
      Open(log') == multiset{r.value.value.id} && r.value.value.state == SessionState.Running
    ensures r.Fail? ==> Open(log') == multiset{} || EndsAbandoning(log')
  {
    log' := log;
    var found, _ := GetDevice(filters, buildIdentifier, buildURL, memTotal, attempt.device);
    if found.Fail? {
      return Fail(WrapApi(found.error)), log';
    }
    OpenStep(log', Requested(found.value.id));
    log' := log' + [Requested(found.value.id)];
    if attempt.request.Fail? {
      var e := attempt.request.error;
      if e != ApiFailure(400) {
        return Fail(WrapApi(e)), log';
      }
      return Ok(None), log';
    }
    var created := attempt.request.value;
    OpenStep(log', Event.Created(created.id));
    log' := log' + [Event.Created(created.id)];
    r, log' := SettleSession(log', created, attempt.wait, attempt.releaseError);
  }

  /**
   * The end of a pass once the farm has created the session: wait for it
   * to run, and release a session that does not. Only a session that runs
   * stays open, unless the wait is interrupted or the release fails.
   */
  method SettleSession(log: seq<Event>, created: Session, wait: nat -> SessionPoll, releaseError: Option<Failure>)
    returns (r: Outcome<Option<Session>>, log': seq<Event>)
    requires Open(log) == multiset{created.id}
    ensures r == SettleResult(created, wait, releaseError)
    ensures log' == log + SettleEvents(WaitResult(created.state, wait, WaitForDeviceSession).result, releaseError, created.id)
    ensures Requests(log') == Requests(log)
    ensures r == Ok(None) ==> Open(log') == multiset{}
    ensures r.Ok? && r.value.Some? ==>
      r.value.value.id == created.id && Open(log') == multiset{created.id} && r.value.value.state == SessionState.Running
    ensures r.Fail? ==> EndsAbandoning(log')
  {
    var running, state, _ := WaitUntilDeviceSessionIsRunning(created, WaitForDeviceSession, wait);
    if running.Fail? {
      OpenStep(log, WaitInterrupted(created.id));
      return Fail(running.error), log + [WaitInterrupted(created.id)];
    }
    if running.value {
      return Ok(Some(Session(created.id, state))), log;
    }
    var event := ReleaseEvent(releaseError, created.id);
    OpenStep(log, event);
    log' := log + [event];
    if releaseError.Some? {
      return Fail(WrapApi(releaseError.value)), log';
    }
    r := Ok(None);
  }

  /**
   * Four passes that each yield no session, every one refused with status
   * 400 or released after not running, make the set-up give up with
   * "Device session is null".
   */
  lemma SessionNullAfterFourPasses(filters: Option<seq<DeviceFilter>>, buildIdentifier: string, memTotal: string,
                                   attempts: nat -> Attempt)
    requires forall k :: 0 <= k <= FlashRetries ==> PassAt(filters, buildIdentifier, memTotal, attempts, k) == Ok(None)
    ensures SessionFrom(filters, buildIdentifier, memTotal, attempts, 0) == Fail(IoError("Device session is null"))
  {
    SessionNullFrom(filters, buildIdentifier, memTotal, attempts, 0);
  }

  lemma {:induction false} SessionNullFrom(filters: Option<seq<DeviceFilter>>, buildIdentifier: string, memTotal: string,
                                           attempts: nat -> Attempt, k: nat)
    requires k <= FlashRetries
    requires forall j :: k <= j <= FlashRetries ==> PassAt(filters, buildIdentifier, memTotal, attempts, j) == Ok(None)
    ensures SessionFrom(filters, buildIdentifier, memTotal, attempts, k) == Fail(IoError("Device session is null"))
    decreases FlashRetries - k
  {
    if k < FlashRetries {
      SessionNullFrom(filters, buildIdentifier, memTotal, attempts, k + 1);
    }
  }

  /**
   * `tearDown`: nothing to do without a session; otherwise release it, and
   * when that fails release it once more with a fresh client, whose
   * failure propagates.
   */
  function TearDown(session: Option<Session>, firstError: Option<Failure>, secondError: Option<Failure>): (t: TearDownResult)
    ensures session.None? ==> t == TearDownResult(Ok(true), [])
    ensures t.outcome.Ok? ==> t.outcome.value
    ensures t.outcome.Fail? <==> session.Some? && firstError.Some? && secondError.Some?
    ensures |t.events| <= 2 && (firstError.None? ==> |t.events| <= 1)
    ensures forall i :: 0 <= i < |t.events| ==> t.events[i] in {Released(session.value.id), ReleaseFailed(session.value.id)}
    ensures session.Some? <==> |t.events| > 0
    ensures session.Some? && t.outcome.Ok? ==> t.events[|t.events| - 1] == Released(session.value.id)
  {
    if session.None? then TearDownResult(Ok(true), [])
    else
      var id := session.value.id;
      if firstError.None? then TearDownResult(Ok(true), [Released(id)])
      else if secondError.None? then TearDownResult(Ok(true), [ReleaseFailed(id), Released(id)])
      else TearDownResult(Fail(WrapApi(secondError.value)), [ReleaseFailed(id), ReleaseFailed(id)])
  }

  /**
   * A tear-down after a successful set-up leaves no session open when it
   * returns, and leaves the build's session open exactly when both
   * releases fail.
   */
  lemma TearDownClosesSession(log: seq<Event>, env: Environment, firstError: Option<Failure>, secondError: Option<Failure>)
    requires Open(log) == multiset{env.session.id}
    ensures var t := TearDown(Some(env.session), firstError, secondError);
      (t.outcome.Ok? ==> Open(log + t.events) == multiset{}) &&
      (t.outcome.Fail? ==> Open(log + t.events) == multiset{env.session.id})
  {
    var id := env.session.id;
    var t := TearDown(Some(env.session), firstError, secondError);
    if firstError.None? {
      OpenStep(log, Released(id));
    } else {
      OpenStep(log, ReleaseFailed(id));
      var second := if secondError.None? then Released(id) else ReleaseFailed(id);
      OpenStep(log + [ReleaseFailed(id)], second);
      assert log + t.events == log + [ReleaseFailed(id)] + [second];
    }
  }
}
