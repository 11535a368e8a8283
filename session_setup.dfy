/**
 * The last steps both versions of `setUp` share once a device session is
 * leased: write the device's labels to the workspace, look up the adb and
 * marionette proxies of the session, and release the session when a lookup
 * fails.
 */
module SessionSetup {
  import opened Remote
  import opened DeviceData
  import opened ProxyLookup
  import opened SessionLog

  /** What a successful set-up hands the build: the leased session, its two proxies, and the device data written. */
  datatype Environment = Environment(
    session: Session,
    adb: ProxyEntry,
    marionette: ProxyEntry,
    deviceData: Option<map<string, LabelValue>>)

  /** The answers the last steps get from the farm and the workspace. */
  datatype ProvisionIo = ProvisionIo(
    data: DataIo,                   // the device data step
    adb: nat -> ProxyPoll,          // the polls for the adb proxy
    marionette: nat -> ProxyPoll,   // the polls for the marionette proxy
    releaseError: Option<Failure>)  // the failure of releasing after a failed proxy lookup, if it fails

  /** The device data a set-up writes, for the answer of the properties request and the version's group key. */
  function ExpectedData(io: DataIo, key: string -> string): Option<map<string, LabelValue>> {
    if io.properties.Ok? && io.properties.value != [] then Some(Document(io.properties.value, key))
    else None
  }

  /** The data step raises: the device has labels and writing them to the workspace fails. */
  predicate WriteFails(data: DataIo) {
    data.properties.Ok? && data.properties.value != [] && data.writeError.Some?
  }

  /** What the handler of a failed lookup raises: the lookup's failure, or the release's when that fails too. */
  function ReleaseRaises(releaseError: Option<Failure>, error: Failure): Failure {
    if releaseError.Some? then WrapApi(releaseError.value) else error
  }

  /** The event the handler of a failed lookup logs. */
  function ReleaseEvent(releaseError: Option<Failure>, id: int): Event {
    if releaseError.Some? then ReleaseFailed(id) else Released(id)
  }

  /**
   * How the last steps end: a failing data write raises its failure; a
   * failing adb lookup, or then a failing marionette lookup, raises what
   * its handler raises; otherwise the environment holds the session, the
   * entries both lookups returned and the device data written.
   */
  function ProvisionResult(leased: Session, io: ProvisionIo, key: string -> string): Outcome<Environment> {
    if WriteFails(io.data) then Fail(io.data.writeError.value)
    else if ProxyResult(io.adb).Fail? then Fail(ReleaseRaises(io.releaseError, ProxyResult(io.adb).error))
    else if ProxyResult(io.marionette).Fail? then Fail(ReleaseRaises(io.releaseError, ProxyResult(io.marionette).error))
    else Ok(Environment(leased, ProxyResult(io.adb).value, ProxyResult(io.marionette).value, ExpectedData(io.data, key)))
  }

  /**
   * Writes the device data, then looks up the adb and marionette proxies,
   * releasing the session when a lookup fails. The session stays open
   * exactly when this succeeds, when the data write fails, or when the
   * release fails.
   */
  method Provision(log: seq<Event>, leased: Session, io: ProvisionIo, key: string -> string)
    returns (r: Outcome<Environment>, log': seq<Event>)
    requires Open(log) == multiset{leased.id}
    requires io.data.properties.Fail? ==> io.data.properties.error.ApiFailure?
    ensures r == ProvisionResult(leased, io, key)
    ensures Requests(log') == Requests(log) && AppendsNoRequest(log, log')
    ensures r.Ok? ==> log' == log
    ensures WriteFails(io.data) ==> log' == log + [DataWriteFailed(leased.id)] && EndsAbandoning(log')
    ensures !WriteFails(io.data) && (ProxyResult(io.adb).Fail? || ProxyResult(io.marionette).Fail?) ==>
      log' == log + [ReleaseEvent(io.releaseError, leased.id)]
    ensures r.Fail? ==> Open(log') == multiset{} || EndsAbandoning(log')
  {
    var data := WriteDeviceDataJSON(io.data, key);
    if data.Fail? {
      OpenStep(log, DataWriteFailed(leased.id));
      return Fail(data.error), log + [DataWriteFailed(leased.id)];
    }
    assert !WriteFails(io.data);
    var adb, _ := GetProxy(io.adb);
    if adb.Fail? {
      r, log' := ReleaseAfterProxyFailure(log, leased, io.releaseError, adb.error);
      return;
    }
    var marionette, _ := GetProxy(io.marionette);
    if marionette.Fail? {
      r, log' := ReleaseAfterProxyFailure(log, leased, io.releaseError, marionette.error);
      return;
    }
    return Ok(Environment(leased, adb.value, marionette.value, data.value)), log;
  }

  /** The handler of a failed proxy lookup: release the session, then rethrow (or raise what the release raised). */
  method ReleaseAfterProxyFailure(log: seq<Event>, leased: Session, releaseError: Option<Failure>, error: Failure)
    returns (r: Outcome<Environment>, log': seq<Event>)
    requires Open(log) == multiset{leased.id}
    ensures r.Fail? && Requests(log') == Requests(log) && AppendsNoRequest(log, log')
    ensures releaseError.None? ==> r == Fail(error) && log' == log + [Released(leased.id)] && Open(log') == multiset{}
    ensures releaseError.Some? ==>
      r == Fail(WrapApi(releaseError.value)) && log' == log + [ReleaseFailed(leased.id)] && EndsAbandoning(log')
  {
    if releaseError.Some? {
      OpenStep(log, ReleaseFailed(leased.id));
      return Fail(WrapApi(releaseError.value)), log + [ReleaseFailed(leased.id)];
    }
    OpenStep(log, Released(leased.id));
    return Fail(error), log + [Released(leased.id)];
  }

  /** What a tear-down ends with, and the release attempts it made. */
  datatype TearDownResult = TearDownResult(outcome: Outcome<bool>, events: seq<Event>)
}
