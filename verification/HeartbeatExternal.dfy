/**
 What the Management API believes: the fold of the updates delivered to it, and when it equals the tracker's map.
 Updates name a gateway without its tenant, so the comparison needs gateway ids that only one tracked key uses.
 */
module HeartbeatExternal {
  import opened Common
  import opened Heartbeat
  import opened HeartbeatHistory
  import opened HeartbeatStatus

  /** The status the Management API holds for each gateway after the successful deliveries, in order. */
  function External(delivered: seq<Delivery>): map<string, Status>
    decreases |delivered|
  {
    if delivered == [] then map[]
    else
      var d, before := delivered[|delivered| - 1], External(delivered[..|delivered| - 1]);
      if d.ok then before[d.update.gatewayID := d.update.status] else before
  }

  /** The latest of some updates that is about the gateway. */
  function LastAbout(updates: seq<StatusUpdate>, gatewayID: string): Option<StatusUpdate>
    decreases |updates|
  {
    if updates == [] then None
    else if updates[|updates| - 1].gatewayID == gatewayID then Some(updates[|updates| - 1])
    else LastAbout(updates[..|updates| - 1], gatewayID)
  }

  /** The latest delivery about the gateway was accepted. */
  predicate LastDeliveryOk(delivered: seq<Delivery>, gatewayID: string)
    decreases |delivered|
  {
    delivered == [] ||
    var d := delivered[|delivered| - 1];
    if d.update.gatewayID == gatewayID then d.ok
    else LastDeliveryOk(delivered[..|delivered| - 1], gatewayID)
  }

  lemma {:induction false} ExternalIsLastDelivery(delivered: seq<Delivery>, gatewayID: string)
    requires LastDeliveryOk(delivered, gatewayID) && LastAbout(Updates(delivered), gatewayID).Some?
    ensures gatewayID in External(delivered)
    ensures External(delivered)[gatewayID] == LastAbout(Updates(delivered), gatewayID).value.status
    decreases |delivered|
  {
    var d, before := delivered[|delivered| - 1], delivered[..|delivered| - 1];
    assert Updates(delivered)[..|delivered| - 1] == Updates(before);
    if d.update.gatewayID != gatewayID {
      ExternalIsLastDelivery(before, gatewayID);
    }
  }

  /** Position `i` holds the last update attempted for the key. */
  ghost predicate LastAttempt(log: History, key: Key, i: nat) {
    && i < |log| && IsAttempt(log[i], key)
    && forall x :: i < x < |log| ==> !IsAttempt(log[x], key)
  }

  /** No other key with the same gateway id was ever reported about. */
  ghost predicate OwnsGatewayID(log: History, key: Key) {
    forall x :: 0 <= x < |log| && (log[x].Heard? || log[x].OfflineSent?) && log[x].key.gatewayID == key.gatewayID ==>
      log[x].key == key
  }

  function StatusOf(e: Event): Status {
    if e.OfflineSent? then Offline else Online
  }

  lemma LastAboutSnoc(updates: seq<StatusUpdate>, u: StatusUpdate, gatewayID: string)
    ensures LastAbout(updates + [u], gatewayID) ==
            if u.gatewayID == gatewayID then Some(u) else LastAbout(updates, gatewayID)
  {
    assert (updates + [u])[..|updates|] == updates;
  }

  /** A queued last attempt is the last word about its gateway among the updates that were not dropped. */
  lemma {:induction false} LastAttemptIsLastKept(log: History, key: Key, i: nat)
    requires LastAttempt(log, key, i) && OwnsGatewayID(log, key) && log[i].queued
    ensures LastAbout(Kept(Attempts(log)), key.gatewayID).Some?
    ensures LastAbout(Kept(Attempts(log)), key.gatewayID).value.status == StatusOf(log[i])
    decreases |log|
  {
    var e, before := log[|log| - 1], log[..|log| - 1];
    assert log == before + [e];
    assert forall x :: 0 <= x < |before| ==> before[x] == log[x];
    AttemptsSnoc(before, e);
    if i < |before| {
      LastAttemptIsLastKept(before, key, i);
      assert Attempts(before) + [] == Attempts(before);
    }
    if |Attempts(log)| > |Attempts(before)| {
      var a := Attempts(log)[|Attempts(before)|];
      assert Attempts(log) == Attempts(before) + [a];
      KeptSnoc(Attempts(before), a);
      LastAboutSnoc(Kept(Attempts(before)), a.update, key.gatewayID);
      assert Kept(Attempts(before)) + [] == Kept(Attempts(before));
    }
  }

  lemma {:induction false} LastAttemptIsLastSent(log: History, key: Key, i: nat)
    requires LastAttempt(log, key, i)
    ensures LastSent(log, key) == Some(StatusOf(log[i]))
    decreases |log|
  {
    if i < |log| - 1 {
      assert forall x :: 0 <= x < |log| - 1 ==> log[..|log| - 1][x] == log[x];
      LastAttemptIsLastSent(log[..|log| - 1], key, i);
    }
  }

  /**
   Once the worker is idle, the Management API holds for a tracked gateway exactly the tracker's status, provided
   the last update attempted for it was neither dropped nor refused, its id belongs to one key, and no
   registration was overtaken by an Offline mark.
   */
  lemma ExternalAgreesWithMap(c: Config, s: State, key: Key, i: nat)
    requires Reachable(c, s) && s.queue == [] && s.inHand.None?
    requires key in s.beats && !InWindow(s.phase, key)
    requires !exists m: nat, j: nat :: RegisteredInWindow(s.log, key, m, j)
    requires OwnsGatewayID(s.log, key)
    requires LastAttempt(s.log, key, i) && s.log[i].queued
    requires LastDeliveryOk(s.delivered, key.gatewayID)
    ensures key.gatewayID in External(s.delivered)
    ensures External(s.delivered)[key.gatewayID] == s.beats[key].knownStatus
  {
    SentAgreesWithMap(c, s, key);
    LastAttemptIsLastSent(s.log, key, i);
    UpdatesConserved(c, s);
    assert Updates(s.delivered) + [] + [] == Updates(s.delivered);
    LastAttemptIsLastKept(s.log, key, i);
    ExternalIsLastDelivery(s.delivered, key.gatewayID);
  }

  lemma {:induction false} FindLastAttempt(log: History, key: Key) returns (i: nat)
    requires LastSent(log, key).Some?
    ensures LastAttempt(log, key, i)
    decreases |log|
  {
    if IsAttempt(log[|log| - 1], key) {
      i := |log| - 1;
    } else {
      i := FindLastAttempt(log[..|log| - 1], key);
      assert forall x :: 0 <= x < |log| - 1 ==> log[..|log| - 1][x] == log[x];
    }
  }

  /** Every tracked key has had an update attempted, so the hypothesis of the theorem above can be met. */
  lemma TrackedWasAttempted(c: Config, s: State, key: Key) returns (i: nat)
    requires Reachable(c, s) && key in s.beats
    ensures LastAttempt(s.log, key, i)
  {
    ReachableStatusInv(c, s);
    assert SentTellsStatus(s, key);
    i := FindLastAttempt(s.log, key);
  }
}
