/**
 * The flash project's test run, as both generations of the wrapper drive it:
 * its parameters are reset to the build to flash and the memory to allocate,
 * then the run is started and polled until it finishes or the flash timeout
 * passes.
 */
module FlashRun {
  import opened Remote
  import opened WrapperCommon
  import opened JavaText
  import opened DeviceSearch

  // ---------------------------------------------------------------------
  // The run's parameters

  datatype Parameter = Parameter(id: int, key: string, value: string)

  predicate DistinctIds(ps: seq<Parameter>) {
    forall i, j :: 0 <= i < j < |ps| ==> ps[i].id != ps[j].id
  }

  /** The parameters left once the one with the given id is deleted. */
  function Without(ps: seq<Parameter>, id: int): seq<Parameter> {
    if ps == [] then []
    else (if ps[0].id == id then [] else [ps[0]]) + Without(ps[1..], id)
  }

  lemma {:induction false} WithoutAbsent(ps: seq<Parameter>, id: int)
    requires forall i :: 0 <= i < |ps| ==> ps[i].id != id
    ensures Without(ps, id) == ps
  {
    if ps != [] {
      WithoutAbsent(ps[1..], id);
    }
  }

  /** With distinct ids, deleting the id at position `i` removes exactly that parameter. */
  lemma {:induction false} WithoutAt(ps: seq<Parameter>, i: nat)
    requires i < |ps| && DistinctIds(ps)
    ensures Without(ps, ps[i].id) == ps[..i] + ps[i + 1..]
  {
    if i == 0 {
      WithoutAbsent(ps[1..], ps[0].id);
    } else {
      assert DistinctIds(ps[1..]);
      WithoutAt(ps[1..], i - 1);
      assert ps[1..][i - 1] == ps[i];
      assert ps[1..][..i - 1] == ps[1..i] && ps[1..][i..] == ps[i + 1..];
      assert ps[..i] == [ps[0]] + ps[1..i];
    }
  }

  lemma RemovingKeepsDistinct(ps: seq<Parameter>, i: nat)
    requires i < |ps| && DistinctIds(ps)
    ensures DistinctIds(ps[..i] + ps[i + 1..])
  {
    var r := ps[..i] + ps[i + 1..];
    assert forall k :: 0 <= k < |r| ==> r[k] == if k < i then ps[k] else ps[k + 1];
  }

  /** Distinct ids, all below the id the next parameter gets. */
  predicate ConfigFits(parameters: seq<Parameter>, nextId: int) {
    DistinctIds(parameters) && forall i :: 0 <= i < |parameters| ==> parameters[i].id < nextId
  }

  /**
   * The run configuration on the farm: its parameter list, and the id the
   * farm gives the next parameter created.
   */
  class RunConfig {
    var parameters: seq<Parameter>
    var nextId: int

    predicate Valid()
      reads this
    {
      ConfigFits(parameters, nextId)
    }

    /** The configuration of a run as the farm reports it. */
    constructor(parameters: seq<Parameter>, nextId: int)
      requires ConfigFits(parameters, nextId)
      ensures Valid() && this.parameters == parameters && this.nextId == nextId
    {
      this.parameters := parameters;
      this.nextId := nextId;
    }

    /** `deleteParameter(id)` */
    method DeleteParameter(id: int)
      requires Valid()
      modifies this
      ensures Valid()
      ensures parameters == Without(old(parameters), id) && nextId == old(nextId)
    {
      if i :| 0 <= i < |parameters| && parameters[i].id == id {
        WithoutAt(parameters, i);
        RemovingKeepsDistinct(parameters, i);
        var rest := parameters[..i] + parameters[i + 1..];
        assert forall k :: 0 <= k < |rest| ==> rest[k] == if k < i then parameters[k] else parameters[k + 1];
      } else {
        WithoutAbsent(parameters, id);
      }
      parameters := Without(parameters, id);
    }

    /** `createParameter(key, value)`: appended with a fresh id. */
    method CreateParameter(key: string, value: string)
      requires Valid()
      modifies this
      ensures Valid()
      ensures parameters == old(parameters) + [Parameter(old(nextId), key, value)]
      ensures nextId == old(nextId) + 1
    {
      parameters := parameters + [Parameter(nextId, key, value)];
      nextId := nextId + 1;
    }
  }

  /** The two parameters a flash run is given. */
  function FlashParameters(firstId: int, buildURL: string, memTotal: string): seq<Parameter> {
    [Parameter(firstId, BuildUrlParam, buildURL), Parameter(firstId + 1, MemTotalParam, memTotal)]
  }

  /**
   * Deletes every parameter of a listing taken once, then creates the build
   * location and the memory parameters: whatever the run held before, it
   * ends with exactly those two.
   */
  method ResetParameters(config: RunConfig, buildURL: string, memTotal: string)
    requires config.Valid()
    modifies config
    ensures config.Valid()
    ensures config.parameters == FlashParameters(old(config.nextId), buildURL, memTotal)
    ensures config.nextId == old(config.nextId) + 2
  {
    var listed := config.parameters;
    for i := 0 to |listed|
      invariant config.Valid() && config.nextId == old(config.nextId)
      invariant config.parameters == listed[i..]
    {
      WithoutAt(listed[i..], 0);
      assert listed[i..][1..] == listed[i + 1..];
      config.DeleteParameter(listed[i].id);
    }
    config.CreateParameter(BuildUrlParam, buildURL);
    config.CreateParameter(MemTotalParam, memTotal);
  }

  /** The parameters at odd positions: those a delete loop that re-lists after every delete skips. */
  function Survivors(ps: seq<Parameter>): seq<Parameter> {
    if |ps| < 2 then [] else [ps[1]] + Survivors(ps[2..])
  }

  lemma {:induction false} SurvivorsLength(ps: seq<Parameter>)
    ensures |Survivors(ps)| == |ps| / 2
  {
    if |ps| >= 2 {
      SurvivorsLength(ps[2..]);
    }
  }

  lemma {:induction false} SurvivorsAppend(a: seq<Parameter>, b: seq<Parameter>)
    requires |a| % 2 == 0
    ensures Survivors(a + b) == Survivors(a) + Survivors(b)
  {
    if a != [] {
      assert (a + b)[2..] == a[2..] + b;
      assert (a + b)[1] == a[1];
      SurvivorsAppend(a[2..], b);
    } else {
      assert a + b == b;
    }
  }

  /** How much of the old listing the re-listing loop has passed over after `i` passes. */
  function Passed(n: nat, i: nat): nat {
    if 2 * i <= n then 2 * i else n
  }

  /** The listing after `i` passes of the re-listing loop over `initial`. */
  function Relisted(initial: seq<Parameter>, i: nat): seq<Parameter>
    requires 2 * i <= |initial| + 1
  {
    Survivors(initial[..Passed(|initial|, i)]) + initial[Passed(|initial|, i)..]
  }

  /** The survivors of a prefix grow by one every two parameters passed. */
  lemma SurvivorsOfPrefix(initial: seq<Parameter>, m: nat)
    requires m < |initial| && m % 2 == 0
    ensures m + 1 == |initial| ==> Survivors(initial[..m + 1]) == Survivors(initial[..m])
    ensures m + 1 < |initial| ==> Survivors(initial[..m + 2]) == Survivors(initial[..m]) + [initial[m + 1]]
  {
    if m + 1 == |initial| {
      SurvivorsAppend(initial[..m], [initial[m]]);
      assert initial[..m] + [initial[m]] == initial[..m + 1];
    } else {
      SurvivorsAppend(initial[..m], [initial[m], initial[m + 1]]);
      assert initial[..m] + [initial[m], initial[m + 1]] == initial[..m + 2];
      assert [initial[m], initial[m + 1]][2..] == [];
    }
  }

  /** One pass of the re-listing loop deletes the old parameter at position 2i. */
  lemma RelistingStep(initial: seq<Parameter>, i: nat)
    requires 2 * i <= |initial| + 1
    requires DistinctIds(Relisted(initial, i)) && i < |Relisted(initial, i)|
    ensures 2 * i < |initial|
    ensures Relisted(initial, i)[i] == initial[2 * i]
    ensures Without(Relisted(initial, i), initial[2 * i].id) == Relisted(initial, i + 1)
  {
    var m := Passed(|initial|, i);
    SurvivorsLength(initial[..m]);
    assert 2 * i < |initial|;
    var list := Relisted(initial, i);
    var s := Survivors(initial[..m]);
    SplitAt(s, initial[m..]);
    assert initial[m..][1..] == initial[m + 1..];
    WithoutAt(list, i);
    RelistedNext(initial, i);
  }

  lemma SplitAt(s: seq<Parameter>, t: seq<Parameter>)
    requires t != []
    ensures (s + t)[|s|] == t[0] && (s + t)[..|s|] == s && (s + t)[|s| + 1..] == t[1..]
  {
  }

  /** After the pass that deletes position 2i, the old listing is passed up to 2i + 2. */
  lemma RelistedNext(initial: seq<Parameter>, i: nat)
    requires 2 * i < |initial|
    ensures Relisted(initial, i + 1) == Survivors(initial[..2 * i]) + initial[2 * i + 1..]
  {
    var m := 2 * i;
    SurvivorsOfPrefix(initial, m);
    if m + 1 == |initial| {
      assert initial[..m + 1] == initial[..|initial|];
      assert initial[|initial|..] == [] == initial[m + 1..];
    } else {
      assert initial[m + 1..] == [initial[m + 1]] + initial[m + 2..];
    }
  }

  /**
   * The delete loop as written, when every pass re-reads the listing: the
   * i-th pass deletes the i-th parameter of the shortened list, so every
   * second old parameter is skipped and survives next to the new ones.
   */
  method ResetParametersRelisting(config: RunConfig, buildURL: string, memTotal: string)
    requires config.Valid()
    modifies config
    ensures config.Valid()
    ensures config.parameters ==
      Survivors(old(config.parameters)) + FlashParameters(old(config.nextId), buildURL, memTotal)
  {
    ghost var initial := config.parameters;
    var i := 0;
    assert initial[..0] == [] && initial[0..] == initial;
    while i < |config.parameters|
      invariant config.Valid() && config.nextId == old(config.nextId)
      invariant 2 * i <= |initial| + 1
      invariant config.parameters == Relisted(initial, i)
      decreases |initial| - i
    {
      RelistingStep(initial, i);
      config.DeleteParameter(config.parameters[i].id);
      i := i + 1;
    }
    RelistedDone(initial, i);
    config.CreateParameter(BuildUrlParam, buildURL);
    config.CreateParameter(MemTotalParam, memTotal);
  }

  lemma RelistedDone(initial: seq<Parameter>, i: nat)
    requires 2 * i <= |initial| + 1
    requires i >= |Relisted(initial, i)|
    ensures Relisted(initial, i) == Survivors(initial)
  {
    var n := |initial|;
    var m := if 2 * i <= n then 2 * i else n;
    SurvivorsLength(initial[..m]);
    assert m == n;
    assert initial[..n] == initial;
  }

  /** Two old parameters: the re-listing loop deletes the first and keeps the second. */
  lemma RelistingKeepsStaleParameter(p: Parameter, q: Parameter)
    ensures Survivors([p, q]) == [q]
  {
    assert [p, q][2..] == [];
  }

  /** Every run with at least two old parameters keeps some of them when the loop re-lists. */
  lemma RelistingLeaksWheneverTwo(ps: seq<Parameter>)
    requires |ps| >= 2
    ensures Survivors(ps) != [] && Survivors(ps)[0] == ps[1]
  {
  }

  // ---------------------------------------------------------------------
  // Polling the started run

  /**
   * The k-th pass of the poll loop: whether its ten-second sleep is
   * interrupted, how much longer than asked the sleep (with the request
   * before it) takes, and what the refresh after it reads or raises.
   */
  datatype RunPoll = RunPoll(interrupted: bool, lag: nat, refreshed: Outcome<RunState>)

  /** Milliseconds since the deadline was set, after `k` passes. */
  function Elapsed(polls: nat -> RunPoll, k: nat): nat {
    if k == 0 then 0 else Elapsed(polls, k - 1) + PollInterval + polls(k - 1).lag
  }

  lemma {:induction false} ElapsedAtLeast(polls: nat -> RunPoll, k: nat)
    ensures Elapsed(polls, k) >= PollInterval * k
  {
    if k > 0 {
      ElapsedAtLeast(polls, k - 1);
    }
  }

  /** Passes a run can take before the deadline passes. */
  const MaxFlashPolls: nat := FlashTimeout / PollInterval + 1

  /** Pass `j` neither was interrupted nor saw the deadline, and read an unfinished run. */
  predicate Continued(polls: nat -> RunPoll, j: nat) {
    !polls(j).interrupted && Elapsed(polls, j + 1) <= FlashTimeout &&
    polls(j).refreshed.Ok? && polls(j).refreshed.value != Finished
  }

  /** The first `n` passes all continued the loop. */
  predicate ContinuedBefore(polls: nat -> RunPoll, n: int) {
    forall j :: 0 <= j < n ==> Continued(polls, j)
  }

  /** Pass `j` slept past the deadline and read the run's state. */
  predicate TimedOut(polls: nat -> RunPoll, j: nat) {
    !polls(j).interrupted && Elapsed(polls, j + 1) > FlashTimeout && polls(j).refreshed.Ok?
  }

  /** The exception of an abort: what the abort raised, else the interrupt itself. */
  function AbortFailure(abortError: Option<Failure>, otherwise: Failure): Failure {
    if abortError.Some? then abortError.value else otherwise
  }

  /**
   * How a pass that stops the wait loop ends it, as the result and whether
   * an abort was attempted: an interrupted sleep aborts the run and
   * rethrows (or raises what the abort raised); a failing refresh
   * propagates; a pass past the deadline aborts the run when `abortWhen`
   * holds for its state and reports false (or raises what the abort
   * raised); a pass within the deadline has read FINISHED and reports true.
   */
  function PassEnd(p: RunPoll, late: bool, abortWhen: RunState -> bool, abortError: Option<Failure>): (Outcome<bool>, bool) {
    if p.interrupted then (Fail(AbortFailure(abortError, Interrupted)), true)
    else if p.refreshed.Fail? then (Fail(p.refreshed.error), false)
    else if !late then (Ok(true), false)
    else if !abortWhen(p.refreshed.value) then (Ok(false), false)
    else if abortError.Some? then (Fail(abortError.value), true)
    else (Ok(false), true)
  }

  /** The end of the wait loop: its result, whether it tried to abort the run, and the passes it made. */
  datatype PollEnd = PollEnd(result: Outcome<bool>, aborted: bool, passes: nat)

  /** The end of the wait loop once its first `j` passes have continued it. */
  function PollFrom(polls: nat -> RunPoll, abortWhen: RunState -> bool, abortError: Option<Failure>, j: nat): PollEnd
    decreases MaxFlashPolls - j
  {
    if Continued(polls, j) then
      ElapsedAtLeast(polls, j + 1);
      PollFrom(polls, abortWhen, abortError, j + 1)
    else
      var e := PassEnd(polls(j), Elapsed(polls, j + 1) > FlashTimeout, abortWhen, abortError);
      PollEnd(e.0, e.1, j + 1)
  }

  /** The end of the wait loop for a run started in state `initial`. */
  function PollResult(initial: RunState, polls: nat -> RunPoll, abortWhen: RunState -> bool, abortError: Option<Failure>): PollEnd {
    if initial == Finished then PollEnd(Ok(true), false, 0) else PollFrom(polls, abortWhen, abortError, 0)
  }

  /**
   * What the wait loop after the run's start ends with: no pass when the
   * run is already FINISHED (true); otherwise every pass but the last
   * slept within the deadline and read an unfinished run, the last pass
   * does not, and it decides the result as `PassEnd` says.
   */
  predicate PollOutcome(initial: RunState, polls: nat -> RunPoll, abortWhen: RunState -> bool, abortError: Option<Failure>,
                        r: Outcome<bool>, aborted: bool, passes: nat)
  {
    && passes <= MaxFlashPolls
    && (passes == 0 <==> initial == Finished)
    && (passes == 0 ==> r == Ok(true) && !aborted)
    && ContinuedBefore(polls, passes - 1)
    && (passes > 0 ==>
         !Continued(polls, passes - 1) &&
         (r, aborted) == PassEnd(polls(passes - 1), Elapsed(polls, passes) > FlashTimeout, abortWhen, abortError))
  }

  /**
   * The wait loop after the run is started: sleep, then either give up once
   * the deadline has passed (aborting the run when `abortWhen` holds for
   * its state) or refresh, until the run is FINISHED. An interrupted sleep
   * aborts the run and rethrows; a failing refresh or abort propagates.
   */
  method PollRun(initial: RunState, polls: nat -> RunPoll, abortWhen: RunState -> bool, abortError: Option<Failure>)
    returns (r: Outcome<bool>, aborted: bool, passes: nat)
    ensures PollOutcome(initial, polls, abortWhen, abortError, r, aborted, passes)
  {
    var state := initial;
    var elapsed := 0;
    aborted := false;
    passes := 0;
    while state != Finished
      invariant elapsed == Elapsed(polls, passes) <= FlashTimeout
      invariant passes == 0 ==> state == initial
      invariant passes > 0 ==> initial != Finished
      invariant passes > 0 ==> !polls(passes - 1).interrupted && polls(passes - 1).refreshed == Ok(state)
      invariant ContinuedBefore(polls, passes - 1)
      invariant passes < MaxFlashPolls
      decreases MaxFlashPolls - passes
    {
      assert passes > 0 ==> Continued(polls, passes - 1);
      var poll := polls(passes);
      passes := passes + 1;
      if poll.interrupted {
        aborted := true;
        return Fail(AbortFailure(abortError, Interrupted)), aborted, passes;
      }
      elapsed := elapsed + PollInterval + poll.lag;
      if elapsed > FlashTimeout {
        if poll.refreshed.Fail? {
          return Fail(poll.refreshed.error), aborted, passes;
        }
        if abortWhen(poll.refreshed.value) {
          aborted := true;
          if abortError.Some? {
            return Fail(abortError.value), aborted, passes;
          }
        }
        return Ok(false), aborted, passes;
      }
      if poll.refreshed.Fail? {
        return Fail(poll.refreshed.error), aborted, passes;
      }
      state := poll.refreshed.value;
      ElapsedAtLeast(polls, passes);
    }
    return Ok(true), aborted, passes;
  }

  /** Once the first `n` passes continued, the loop ends as it does from pass `n` on. */
  lemma {:induction false} PollFromSkips(polls: nat -> RunPoll, abortWhen: RunState -> bool, abortError: Option<Failure>,
                                         j: nat, n: nat)
    requires j <= n && ContinuedBefore(polls, n)
    ensures PollFrom(polls, abortWhen, abortError, j) == PollFrom(polls, abortWhen, abortError, n)
    decreases n - j
  {
    if j < n {
      assert Continued(polls, j);
      PollFromSkips(polls, abortWhen, abortError, j + 1, n);
    }
  }

  /** From a pass reached by continuing, the loop stops at the first pass that does not continue. */
  lemma {:induction false} PollFromStops(polls: nat -> RunPoll, abortWhen: RunState -> bool, abortError: Option<Failure>, j: nat)
    requires ContinuedBefore(polls, j)
    ensures var e := PollFrom(polls, abortWhen, abortError, j);
      && j < e.passes && ContinuedBefore(polls, e.passes - 1) && !Continued(polls, e.passes - 1)
      && (e.result, e.aborted) == PassEnd(polls(e.passes - 1), Elapsed(polls, e.passes) > FlashTimeout, abortWhen, abortError)
    decreases MaxFlashPolls - j
  {
    if Continued(polls, j) {
      ElapsedAtLeast(polls, j + 1);
      PollFromStops(polls, abortWhen, abortError, j + 1);
    }
  }

  /** `PollResult` meets the loop's contract. */
  lemma PollResultMeetsOutcome(initial: RunState, polls: nat -> RunPoll, abortWhen: RunState -> bool, abortError: Option<Failure>)
    ensures var e := PollResult(initial, polls, abortWhen, abortError);
      PollOutcome(initial, polls, abortWhen, abortError, e.result, e.aborted, e.passes)
  {
    if initial != Finished {
      var e := PollFrom(polls, abortWhen, abortError, 0);
      PollFromStops(polls, abortWhen, abortError, 0);
      ContinuedPassesBound(polls, e.passes - 1);
    }
  }

  /** Passes that all continued fit before the deadline: there are fewer than `MaxFlashPolls` of them. */
  lemma ContinuedPassesBound(polls: nat -> RunPoll, n: nat)
    requires ContinuedBefore(polls, n)
    ensures n < MaxFlashPolls
  {
    if n > 0 {
      assert Continued(polls, n - 1);
      ElapsedAtLeast(polls, n);
    }
  }

  /** Whatever meets the loop's contract is `PollResult`. */
  lemma PollOutcomeIsResult(initial: RunState, polls: nat -> RunPoll, abortWhen: RunState -> bool, abortError: Option<Failure>,
                            r: Outcome<bool>, aborted: bool, passes: nat)
    requires PollOutcome(initial, polls, abortWhen, abortError, r, aborted, passes)
    ensures PollEnd(r, aborted, passes) == PollResult(initial, polls, abortWhen, abortError)
  {
    if passes > 0 {
      PollFromSkips(polls, abortWhen, abortError, 0, passes - 1);
    }
  }

  /**
   * The outcome the loop's contract allows is exactly `PollResult`: the
   * function meets it, and nothing else does.
   */
  lemma PollOutcomeExactly(initial: RunState, polls: nat -> RunPoll, abortWhen: RunState -> bool, abortError: Option<Failure>,
                           r: Outcome<bool>, aborted: bool, passes: nat)
    ensures PollOutcome(initial, polls, abortWhen, abortError, r, aborted, passes) <==>
      PollEnd(r, aborted, passes) == PollResult(initial, polls, abortWhen, abortError)
  {
    PollResultMeetsOutcome(initial, polls, abortWhen, abortError);
    if PollOutcome(initial, polls, abortWhen, abortError, r, aborted, passes) {
      PollOutcomeIsResult(initial, polls, abortWhen, abortError, r, aborted, passes);
    }
  }

  /** A run read FINISHED within the deadline, after passes that all continued, makes the attempt report true. */
  lemma PollFinishedInTime(initial: RunState, polls: nat -> RunPoll, abortWhen: RunState -> bool, abortError: Option<Failure>,
                           n: nat)
    requires initial != Finished && ContinuedBefore(polls, n)
    requires !polls(n).interrupted && Elapsed(polls, n + 1) <= FlashTimeout && polls(n).refreshed == Ok(Finished)
    ensures PollResult(initial, polls, abortWhen, abortError) == PollEnd(Ok(true), false, n + 1)
  {
    PollFromSkips(polls, abortWhen, abortError, 0, n);
  }

  /**
   * A pass that first sleeps past the deadline and reads the run's state
   * ends the loop: the run is aborted exactly when `abortWhen` holds for
   * that state, and the attempt reports false unless the abort raised.
   */
  lemma PollTimedOut(initial: RunState, polls: nat -> RunPoll, abortWhen: RunState -> bool, abortError: Option<Failure>,
                     n: nat)
    requires initial != Finished && ContinuedBefore(polls, n) && TimedOut(polls, n)
    ensures var e := PollResult(initial, polls, abortWhen, abortError);
      && e.passes == n + 1
      && e.aborted == abortWhen(polls(n).refreshed.value)
      && e.result == (if e.aborted && abortError.Some? then Fail(abortError.value) else Ok(false))
  {
    PollFromSkips(polls, abortWhen, abortError, 0, n);
  }

  /** A failing refresh or an interrupted sleep after passes that all continued ends the attempt with that failure. */
  lemma PollFailsAt(initial: RunState, polls: nat -> RunPoll, abortWhen: RunState -> bool, abortError: Option<Failure>,
                    n: nat)
    requires initial != Finished && ContinuedBefore(polls, n)
    requires polls(n).interrupted || polls(n).refreshed.Fail?
    ensures var e := PollResult(initial, polls, abortWhen, abortError);
      && e.passes == n + 1
      && (polls(n).interrupted ==> e.aborted && e.result == Fail(AbortFailure(abortError, Interrupted)))
      && (!polls(n).interrupted ==> !e.aborted && e.result == Fail(polls(n).refreshed.error))
  {
    PollFromSkips(polls, abortWhen, abortError, 0, n);
  }

  /** The current rule, as the comment beside it says: abort a run still queued at the deadline. */
  predicate AbortIfWaiting(s: RunState) { s == RunState.Waiting }

  /** The older rule as written: abort a run that is not queued at the deadline. */
  predicate AbortUnlessWaiting(s: RunState) { s != RunState.Waiting }

  /**
   * The two rules are complements: the older one leaves a still queued run
   * in the queue and aborts one that is already flashing.
   */
  lemma AbortRulesDisagree(s: RunState)
    ensures AbortUnlessWaiting(s) <==> !AbortIfWaiting(s)
    ensures !AbortUnlessWaiting(RunState.Waiting) && AbortIfWaiting(RunState.Waiting)
    ensures AbortUnlessWaiting(RunState.Running) && !AbortIfWaiting(RunState.Running)
  {
  }

  // ---------------------------------------------------------------------
  // One flash attempt

  /** The answers one flash attempt gets from the farm and the host. */
  datatype FlashIo = FlashIo(
    me: Option<Failure>,          // the failure of the user lookup, if it fails
    projects: Outcome<seq<int>>,  // ids of the projects the search for the flash project returns
    runError: Option<Failure>,    // the failure of creating the run, if it fails
    parameters: seq<Parameter>,   // the new run's parameters
    nextId: int,                  // the id the farm gives the next parameter created
    search: SearchIo,             // the device search of the attempt
    startError: Option<Failure>,  // the failure of starting the run, if it fails
    started: Outcome<RunState>,   // the run's state read after starting it
    polls: nat -> RunPoll,        // the passes of the wait loop
    abortError: Option<Failure>)  // the failure of aborting the run, if it fails

  /** Everything before the run exists succeeded: the memory setting parses and the project was found. */
  predicate RunCreated(memTotal: string, io: FlashIo) {
    ParseInt(memTotal).Some? && io.me.None? && io.projects.Ok? && io.projects.value != [] && io.runError.None?
  }

  /**
   * How an attempt ends before a run exists: a memory setting that is not a
   * number, a failing user lookup or project search, false when there is no
   * flash project, a failing run creation.
   */
  function EndBeforeRun(memTotal: string, io: FlashIo): Outcome<bool>
    requires !RunCreated(memTotal, io)
  {
    if ParseInt(memTotal).None? then Fail(NumberFormat(memTotal))
    else if io.me.Some? then Fail(io.me.value)
    else if io.projects.Fail? then Fail(io.projects.error)
    else if io.projects.value == [] then Ok(false)
    else Fail(io.runError.value)
  }

  /**
   * How a flash attempt ends, given what its device search answered: as
   * `EndBeforeRun` before the run exists; a failing search propagates and
   * one that finds nothing raises "Unable find device!"; a failing start
   * or read of the started run propagates; otherwise the attempt ends as
   * its wait loop does.
   */
  function AttemptResult(memTotal: string, io: FlashIo, found: Outcome<Option<Device>>, abortWhen: RunState -> bool): Outcome<bool> {
    if !RunCreated(memTotal, io) then EndBeforeRun(memTotal, io)
    else if found.Fail? then Fail(found.error)
    else if found.value.None? then Fail(IoError("Unable find device!"))
    else if io.startError.Some? then Fail(io.startError.value)
    else if io.started.Fail? then Fail(io.started.error)
    else PollResult(io.started.value, io.polls, abortWhen, io.abortError).result
  }

  /** A flash project that is missing is no error: the attempt reports false. */
  lemma MissingProjectIsNoError(memTotal: string, io: FlashIo)
    requires ParseInt(memTotal).Some? && io.me.None? && io.projects == Ok([])
    ensures !RunCreated(memTotal, io) && EndBeforeRun(memTotal, io) == Ok(false)
  {
  }
}
