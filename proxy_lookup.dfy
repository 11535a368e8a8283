/**
 * `getProxy`: polling the farm's proxy plugin until it lists an entry for a
 * device session. Both generations of the wrapper carry the same code.
 */
module ProxyLookup {
  import opened Remote
  import opened WrapperCommon

  /**
   * The k-th poll: the parsed answer of the k-th request (or the exception
   * that request raised), and whether the sleep that follows an empty answer
   * is interrupted.
   */
  datatype ProxyPoll = ProxyPoll(answer: Outcome<seq<ProxyEntry>>, interrupted: bool)

  /** Requests issued before giving up: one before each of the sleeps, and the last. */
  const MaxProxyRequests: nat := WaitForProxyTimeout / PollInterval + 1

  /** The first `n` answers were all empty lists. */
  predicate EmptyAnswers(polls: nat -> ProxyPoll, n: nat) {
    forall k :: 0 <= k < n ==> polls(k).answer == Ok([])
  }

  /**
   * What `getProxy` returns from its k-th request on: the first entry of a
   * non-empty answer; a failing request wrapped in an IOException; for an
   * empty answer, the interrupt of the sleep after it while less than the
   * timeout has been slept, "Failed to get proxy resource" after that, or
   * what the next request leads to.
   */
  function ProxyFrom(polls: nat -> ProxyPoll, k: nat): Outcome<ProxyEntry>
    requires k < MaxProxyRequests
    decreases MaxProxyRequests - k
  {
    match polls(k).answer
    case Fail(e) => Fail(WrapApi(e))
    case Ok(entries) =>
      if entries != [] then Ok(entries[0])
      else if k + 1 == MaxProxyRequests then Fail(IoError("Failed to get proxy resource"))
      else if polls(k).interrupted then Fail(Interrupted)
      else ProxyFrom(polls, k + 1)
  }

  /** What `getProxy` returns. */
  function ProxyResult(polls: nat -> ProxyPoll): Outcome<ProxyEntry> {
    ProxyFrom(polls, 0)
  }

  /**
   * Issues requests until one answers with a non-empty list and returns its
   * first entry. An empty answer is followed by a sleep while less than the
   * timeout has been slept; after that it raises "Failed to get proxy
   * resource". An API failure is rethrown wrapped in an IOException, an
   * interrupted sleep propagates.
   */
  method GetProxy(polls: nat -> ProxyPoll) returns (r: Outcome<ProxyEntry>, requests: nat)
    ensures r == ProxyResult(polls)
    ensures 1 <= requests <= MaxProxyRequests
    ensures EmptyAnswers(polls, requests - 1)
    ensures forall k :: 0 <= k < requests - 1 ==> !polls(k).interrupted
    ensures r.Ok? <==> polls(requests - 1).answer.Ok? && polls(requests - 1).answer.value != []
    ensures r.Ok? ==> r.value == polls(requests - 1).answer.value[0]
    ensures polls(requests - 1).answer.Fail? ==> r == Fail(WrapApi(polls(requests - 1).answer.error))
    ensures polls(requests - 1).answer == Ok([]) ==>
      if requests < MaxProxyRequests then r == Fail(Interrupted) && polls(requests - 1).interrupted
      else r == Fail(IoError("Failed to get proxy resource"))
  {
    var slept := 0;
    requests := 0;
    while true
      invariant slept == PollInterval * requests && requests < MaxProxyRequests
      invariant EmptyAnswers(polls, requests)
      invariant forall k :: 0 <= k < requests ==> !polls(k).interrupted
      invariant ProxyFrom(polls, requests) == ProxyResult(polls)
      decreases MaxProxyRequests - requests
    {
      var poll := polls(requests);
      requests := requests + 1;
      match poll.answer {
        case Fail(e) =>
          return Fail(WrapApi(e)), requests;
        case Ok(entries) =>
          if entries == [] {
            if slept < WaitForProxyTimeout {
              if poll.interrupted {
                return Fail(Interrupted), requests;
              }
              slept := slept + PollInterval;
              continue;
            }
            return Fail(IoError("Failed to get proxy resource")), requests;
          }
          return Ok(entries[0]), requests;
      }
    }
  }
}
