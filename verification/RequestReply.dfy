/**
 The request-reply client: a bounded number of attempts with scheduled waits between them, and the lifecycle
 query built on it. What the network answers to each attempt, and whether a wait is cut short by cancellation,
 are parameters.
 */
module RequestReply {
  import opened Common
  import opened Heartbeat

  datatype Outcome<T> = Replied(body: T) | Exhausted | Cancelled

  /** What the outside world does during one request: the reply to attempt `k`, and whether wait `k` runs its course. */
  datatype Network<!T> = Network(reply: nat -> Option<T>, slept: nat -> bool)

  const MAX_RETRIES: int := 3
  const BACKOFF: seq<int> := [1_000_000_000, 2_000_000_000, 4_000_000_000]

  /** Attempt `k` takes place: all earlier ones failed and all waits between them ran their course. */
  ghost predicate Attempted<T(!new)>(net: Network<T>, k: nat) {
    forall j: nat :: j < k ==> net.reply(j).None? && net.slept(j)
  }

  /** The wait after failed attempt `k`; the schedule's last entry repeats. */
  function WaitAfter(backoff: seq<int>, k: nat): int
    requires backoff != []
  {
    backoff[Min(k, |backoff| - 1)]
  }

  ghost predicate FollowsSchedule(waits: seq<int>, backoff: seq<int>)
    requires backoff != []
  {
    forall k: nat :: k < |waits| ==> waits[k] == WaitAfter(backoff, k)
  }

  /**
   The retry loop. It ends with the first reply that a wait cut short or the retry limit does not forestall;
   `waits` lists the waits begun.
   */
  method RequestWithRetry<T(!new)>(maxRetries: int, backoff: seq<int>, net: Network<T>)
    returns (r: Outcome<T>, requests: nat, waits: seq<int>)
    requires backoff != []
    ensures match r
            case Replied(body) =>
              exists k: nat :: k <= maxRetries && Attempted(net, k) && net.reply(k) == Some(body)
                               && requests == k + 1 && |waits| == k
            case Cancelled =>
              exists k: nat :: k < maxRetries && Attempted(net, k) && net.reply(k).None? && !net.slept(k)
                               && requests == k + 1 && |waits| == k + 1
            case Exhausted =>
              && requests == Max(maxRetries + 1, 0) && |waits| == Max(maxRetries, 0)
              && (maxRetries >= 0 ==> Attempted(net, maxRetries) && net.reply(maxRetries).None?)
    ensures FollowsSchedule(waits, backoff)
    ensures forall k: nat :: k < |waits| ==>
              waits[k] == if k < |backoff| then backoff[k] else backoff[|backoff| - 1]
  {
    requests, waits := 0, [];
    var attempt := 0;
    while attempt <= maxRetries
      invariant 0 <= attempt <= Max(maxRetries + 1, 0)
      invariant attempt <= maxRetries
                || (attempt == 0 && maxRetries < 0)
      invariant requests == |waits| == attempt
      invariant Attempted(net, attempt)
      invariant FollowsSchedule(waits, backoff)
      decreases maxRetries - attempt
    {
      var reply := net.reply(attempt);
      requests := requests + 1;
      if reply.Some? {
        return Replied(reply.value), requests, waits;
      }
      if attempt == maxRetries {
        break;
      }
      var delay := backoff[if attempt < |backoff| - 1 then attempt else |backoff| - 1];
      waits := waits + [delay];
      if !net.slept(attempt) {
        return Cancelled, requests, waits;
      }
      attempt := attempt + 1;
    }
    return Exhausted, requests, waits;
  }

  /** At most one attempt sees a reply: the first. So the outcome of a request is determined by the network. */
  lemma OneReply<T(!new)>(net: Network<T>, i: nat, j: nat)
    requires Attempted(net, i) && Attempted(net, j) && net.reply(i).Some? && net.reply(j).Some?
    ensures i == j
  {
    assert i < j ==> net.reply(i).None?;
    assert j < i ==> net.reply(j).None?;
  }

  /** The total of the first `n` waits of a schedule. */
  function ScheduleTotal(backoff: seq<int>, n: nat): int
    requires backoff != []
  {
    if n == 0 then 0 else ScheduleTotal(backoff, n - 1) + WaitAfter(backoff, n - 1)
  }

  /** With non-negative waits, a request that begins at most `n` of them waits at most the schedule's total. */
  lemma {:induction false} WaitingIsBounded(waits: seq<int>, backoff: seq<int>, n: nat)
    requires backoff != [] && (forall i :: 0 <= i < |backoff| ==> backoff[i] >= 0)
    requires FollowsSchedule(waits, backoff) && |waits| <= n
    ensures Sum(waits) <= ScheduleTotal(backoff, n)
    decreases n
  {
    if n > |waits| {
      WaitingIsBounded(waits, backoff, n - 1);
    } else if waits != [] {
      WaitingIsBounded(waits[..n - 1], backoff, n - 1);
    }
  }

  /** The production waits, one by one: the last entry of the schedule repeats. */
  lemma ProductionWaits(k: nat)
    ensures WaitAfter(BACKOFF, k) == if k == 0 then 1_000_000_000 else if k == 1 then 2_000_000_000 else 4_000_000_000
    ensures WaitAfter(BACKOFF, k + |BACKOFF|) == BACKOFF[|BACKOFF| - 1]
  {
  }

  // ------------------------------------------------------------------------------------------------
  // The lifecycle query
  // ------------------------------------------------------------------------------------------------

  datatype LifecycleResponse = LifecycleResponse(gatewayID: string, state: string)

  /** The lifecycle state a name stands for; other names are invalid. */
  function LifecycleOf(state: string): Option<Lifecycle> {
    if state == "online" then Some(ActiveOnline)
    else if state == "offline" then Some(ActiveOffline)
    else if state == "paused" then Some(Paused)
    else if state == "provisioning" then Some(Provisioning)
    else None
  }

  predicate Vouches(result: LifecycleResponse, gatewayID: string) {
    result.gatewayID != "" && (gatewayID == "" || result.gatewayID == gatewayID)
  }

  /** The response is about the gateway that was asked for, and names a known state. */
  method ValidateGatewayLifecycleResponse(result: LifecycleResponse, expectedGatewayID: string) returns (ok: bool)
    ensures ok <==> Vouches(result, expectedGatewayID) && LifecycleOf(result.state).Some?
    ensures ok <==> && result.gatewayID != "" && (expectedGatewayID == "" || result.gatewayID == expectedGatewayID)
                    && result.state in {"online", "offline", "paused", "provisioning"}
  {
    if result.gatewayID == "" {
      return false;
    }
    if expectedGatewayID != "" && result.gatewayID != expectedGatewayID {
      return false;
    }
    match LifecycleOf(result.state)
    case Some(_) => return true;
    case None => return false;
  }

  /** Attempt `k` took place and brought a reply that decodes, names the gateway and has the given text as its state. */
  ghost predicate Brings<T(!new)>(net: Network<T>, decode: T -> Option<LifecycleResponse>, maxRetries: int,
                                  gatewayID: string, k: nat, text: string)
  {
    && k <= maxRetries
    && (forall j: nat :: j < k ==> net.reply(j).None? && net.slept(j))
    && net.reply(k).Some? && decode(net.reply(k).value).Some?
    && decode(net.reply(k).value).value.gatewayID != ""
    && (gatewayID == "" || decode(net.reply(k).value).value.gatewayID == gatewayID)
    && decode(net.reply(k).value).value.state == text
  }

  /** The lifecycle query answers what one of the attempts brings; None stands for every kind of error. */
  method GetGatewayLifecycle<T(!new)>(maxRetries: int, backoff: seq<int>, net: Network<T>,
                                      decode: T -> Option<LifecycleResponse>, gatewayID: string)
    returns (state: Option<Lifecycle>, requests: nat)
    requires backoff != []
    ensures state == Some(ActiveOnline) <==> exists k: nat :: Brings(net, decode, maxRetries, gatewayID, k, "online")
    ensures state == Some(ActiveOffline) <==> exists k: nat :: Brings(net, decode, maxRetries, gatewayID, k, "offline")
    ensures state == Some(Paused) <==> exists k: nat :: Brings(net, decode, maxRetries, gatewayID, k, "paused")
    ensures state == Some(Provisioning) <==>
            exists k: nat :: Brings(net, decode, maxRetries, gatewayID, k, "provisioning")
    ensures requests <= Max(maxRetries + 1, 0)
  {
    var r, waits;
    r, requests, waits := RequestWithRetry(maxRetries, backoff, net);
    state := None;
    match r
    case Replied(body) =>
      ghost var k: nat :| k <= maxRetries && Attempted(net, k) && net.reply(k) == Some(body);
      var result := decode(body);
      if result.Some? {
        var ok := ValidateGatewayLifecycleResponse(result.value, gatewayID);
        if ok {
          state := LifecycleOf(result.value.state);
          assert Brings(net, decode, maxRetries, gatewayID, k, result.value.state);
        }
      }
      forall j: nat, text | Brings(net, decode, maxRetries, gatewayID, j, text) ensures j == k {
        OneReply(net, j, k);
      }
    case Cancelled =>
      ghost var k: nat :| k < maxRetries && Attempted(net, k) && net.reply(k).None? && !net.slept(k);
      forall j: nat, text ensures !Brings(net, decode, maxRetries, gatewayID, j, text) {
        assert j > k && (forall i: nat :: i < j ==> net.slept(i)) ==> net.slept(k);
        assert j < k ==> net.reply(j).None?;
      }
    case Exhausted =>
      forall j: nat, text ensures !Brings(net, decode, maxRetries, gatewayID, j, text) {
        if j < maxRetries { assert net.reply(j).None?; }
      }
  }
}
