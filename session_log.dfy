/**
 * The device-session requests and releases a build's set-up and tear-down
 * issue, as a log. A session the farm opens must be released by the same
 * build, or the device stays leased; the log makes that obligation
 * checkable.
 */
module SessionLog {

  datatype Event =
    | Requested(deviceId: int)        // a session is requested for this device model
    | Created(sessionId: int)         // the farm opened the session
    | Released(sessionId: int)        // the session was released
    | ReleaseFailed(sessionId: int)   // releasing the session raised
    | WaitInterrupted(sessionId: int) // the wait for the session to run was interrupted
    | DataWriteFailed(sessionId: int) // the device data file could not be written

  /** The sessions opened and not yet released, with multiplicity. */
  function Open(log: seq<Event>): multiset<int> {
    if log == [] then multiset{}
    else
      Step(Open(log[..|log| - 1]), log[|log| - 1])
  }

  /** The open sessions after one more event. */
  function Step(open: multiset<int>, e: Event): multiset<int> {
    if e.Created? then open + multiset{e.sessionId}
    else if e.Released? then open - multiset{e.sessionId}
    else open
  }

  /** How many sessions were requested. */
  function Requests(log: seq<Event>): nat {
    if log == [] then 0
    else Requests(log[..|log| - 1]) + (if log[|log| - 1].Requested? then 1 else 0)
  }

  /** The events after which the plugin gives up without releasing an open session. */
  predicate Abandons(e: Event) {
    e.ReleaseFailed? || e.WaitInterrupted? || e.DataWriteFailed?
  }

  predicate EndsAbandoning(log: seq<Event>) {
    log != [] && Abandons(log[|log| - 1])
  }

  /** Every session request of the log is for the device model `id`. */
  predicate RequestsFor(log: seq<Event>, id: int) {
    forall i :: 0 <= i < |log| && log[i].Requested? ==> log[i].deviceId == id
  }

  /** `log'` continues `log` with events that request no session. */
  predicate AppendsNoRequest(log: seq<Event>, log': seq<Event>) {
    |log| <= |log'| && log'[..|log|] == log && forall i :: |log| <= i < |log'| ==> !log'[i].Requested?
  }

  lemma RequestsForStep(log: seq<Event>, e: Event, id: int)
    requires RequestsFor(log, id) && (e.Requested? ==> e.deviceId == id)
    ensures RequestsFor(log + [e], id)
  {
    assert forall i :: 0 <= i < |log| ==> (log + [e])[i] == log[i];
  }

  lemma RequestsForKept(log: seq<Event>, log': seq<Event>, id: int)
    requires RequestsFor(log, id) && AppendsNoRequest(log, log')
    ensures RequestsFor(log', id)
  {
    forall i | 0 <= i < |log| ensures log'[i] == log[i] {
      assert log'[..|log|][i] == log'[i];
    }
  }

  lemma OpenStep(log: seq<Event>, e: Event)
    ensures Open(log + [e]) == Step(Open(log), e)
    ensures Requests(log + [e]) == Requests(log) + (if e.Requested? then 1 else 0)
  {
    assert (log + [e])[..|log|] == log;
  }

  /** `n` session requests for device model `id`, and nothing else. */
  function RequestsOnly(id: int, n: nat): seq<Event> {
    if n == 0 then [] else RequestsOnly(id, n - 1) + [Requested(id)]
  }

  /** Requests alone open no session. */
  lemma {:induction false} RequestsOnlyOpenNothing(id: int, n: nat)
    ensures Open(RequestsOnly(id, n)) == multiset{}
    ensures Requests(RequestsOnly(id, n)) == n && RequestsFor(RequestsOnly(id, n), id)
  {
    if n > 0 {
      RequestsOnlyOpenNothing(id, n - 1);
      OpenStep(RequestsOnly(id, n - 1), Requested(id));
      RequestsForStep(RequestsOnly(id, n - 1), Requested(id), id);
    }
  }

  /** Requests followed by the farm opening a session leave exactly that session open. */
  lemma RequestsThenCreated(id: int, n: nat, session: int)
    ensures Open(RequestsOnly(id, n) + [Created(session)]) == multiset{session}
    ensures Requests(RequestsOnly(id, n) + [Created(session)]) == n
    ensures RequestsFor(RequestsOnly(id, n) + [Created(session)], id)
  {
    RequestsOnlyOpenNothing(id, n);
    OpenStep(RequestsOnly(id, n), Created(session));
    RequestsForStep(RequestsOnly(id, n), Created(session), id);
  }

  /** Opening a session and releasing it leaves the open sessions as they were. */
  lemma {:induction false} CreateThenRelease(log: seq<Event>, id: int, between: seq<Event>)
    requires forall k :: 0 <= k < |between| ==> !between[k].Created? && !between[k].Released?
    ensures Open(log + [Created(id)] + between + [Released(id)]) == Open(log)
    ensures Open(log + [Created(id)] + between) == Open(log) + multiset{id}
  {
    if between == [] {
      OpenStep(log, Created(id));
      assert log + [Created(id)] + [] == log + [Created(id)];
      OpenStep(log + [Created(id)], Released(id));
    } else {
      var init := between[..|between| - 1];
      var e := between[|between| - 1];
      CreateThenRelease(log, id, init);
      assert log + [Created(id)] + between == (log + [Created(id)] + init) + [e];
      OpenStep(log + [Created(id)] + init, e);
      OpenStep(log + [Created(id)] + between, Released(id));
    }
  }
}
