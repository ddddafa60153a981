/**
 Reading the history of a run: folds over the event log, what they say in terms of positions in the log,
 and the invariant that ties the tracker's map and the Tick's snapshot to the log.
 */
module HeartbeatHistory {
  import opened Common
  import opened Heartbeat

  type History = seq<Event>

  predicate IsHeard(e: Event, key: Key) { e.Heard? && e.key == key }
  predicate IsRemoved(e: Event, key: Key) { e.Removed? && e.key == key }
  predicate IsPublished(e: Event, key: Key) { e.Published? && e.key == key }
  predicate IsOfflineSent(e: Event, key: Key) { e.OfflineSent? && e.key == key }
  predicate IsMarked(e: Event, key: Key) { e.Marked? && e.key == key }
  predicate IsFirstSeen(e: Event, key: Key) { IsHeard(e, key) && e.hearing == FirstSeen }

  /** A transition of the key to Online: it was not tracked, or it was tracked as Offline. */
  predicate CameOnline(e: Event, key: Key) { IsHeard(e, key) && e.hearing != Refreshed }

  /** What the history says the map should hold for a key. */
  function Tracked(log: History, key: Key): Option<Entry>
    decreases |log|
  {
    if log == [] then None
    else
      var e, before := log[|log| - 1], Tracked(log[..|log| - 1], key);
      if IsHeard(e, key) then Some(Entry(key.tenantID, key.gatewayID, e.at, Online))
      else if IsRemoved(e, key) then None
      else if IsMarked(e, key) && before.Some? then Some(before.value.(knownStatus := Offline))
      else before
  }

  /** The history as the latest snapshot of the map saw it. */
  function AtSnapshot(log: History): History
    decreases |log|
  {
    if log == [] then []
    else if log[|log| - 1].SnapshotTaken? then log[..|log| - 1]
    else AtSnapshot(log[..|log| - 1])
  }

  lemma TrackedSnoc(log: History, e: Event, key: Key)
    ensures Tracked(log + [e], key) ==
            if IsHeard(e, key) then Some(Entry(key.tenantID, key.gatewayID, e.at, Online))
            else if IsRemoved(e, key) then None
            else if IsMarked(e, key) && Tracked(log, key).Some?
            then Some(Tracked(log, key).value.(knownStatus := Offline))
            else Tracked(log, key)
  {
    assert (log + [e])[..|log|] == log;
  }

  lemma AtSnapshotSnoc(log: History, e: Event)
    ensures AtSnapshot(log + [e]) == if e.SnapshotTaken? then log else AtSnapshot(log)
  {
    assert (log + [e])[..|log|] == log;
  }

  /** Position `i` is the latest telemetry for the key, and the key was not removed since. */
  ghost predicate LatestHeard(log: History, key: Key, i: nat) {
    && i < |log|
    && IsHeard(log[i], key)
    && forall j :: i < j < |log| ==> !IsHeard(log[j], key) && !IsRemoved(log[j], key)
  }

  /** An entry the history tells of was last seen at the time of the latest telemetry for its key. */
  lemma {:induction false} TrackedIsLatestHeard(log: History, key: Key) returns (i: nat)
    requires Tracked(log, key).Some?
    ensures LatestHeard(log, key, i)
    ensures log[i].at == Tracked(log, key).value.lastSeen
    ensures Tracked(log, key).value.Id() == key
    decreases |log|
  {
    var e, before := log[|log| - 1], log[..|log| - 1];
    if IsHeard(e, key) {
      i := |log| - 1;
    } else {
      i := TrackedIsLatestHeard(before, key);
      assert forall j :: 0 <= j < |before| ==> log[j] == before[j];
    }
  }

  /** `AtSnapshot` cuts the log at the last snapshot. */
  lemma {:induction false} AtSnapshotCuts(log: History)
    ensures AtSnapshot(log) <= log
    ensures forall j :: |AtSnapshot(log)| < j < |log| ==> !log[j].SnapshotTaken?
    ensures AtSnapshot(log) != [] ==> |AtSnapshot(log)| < |log| && log[|AtSnapshot(log)|].SnapshotTaken?
    decreases |log|
  {
    if log != [] && !log[|log| - 1].SnapshotTaken? {
      AtSnapshotCuts(log[..|log| - 1]);
      assert forall j :: 0 <= j < |log| - 1 ==> log[j] == log[..|log| - 1][j];
    }
  }

  // ------------------------------------------------------------------------------------------------
  // The map and the snapshot are what the history says
  // ------------------------------------------------------------------------------------------------

  /** The entries of the running Tick that are not finished: the one in hand first, then the rest. */
  function Pending(p: Phase): seq<Entry> {
    match p
    case Evaluating(_, todo) => todo
    case Announced(_, todo, e) => [e] + todo
    case Dispatched(_, todo, e) => [e] + todo
    case _ => []
  }

  /** The entry whose alert is out while its Offline mark is still to come. */
  function InHand(p: Phase): Option<Entry> {
    match p
    case Announced(_, _, e) => Some(e)
    case Dispatched(_, _, e) => Some(e)
    case _ => None
  }

  ghost predicate MapTellsHistory(s: State) {
    && (forall k :: k in s.beats ==> Tracked(s.log, k) == Some(s.beats[k]))
    && (forall k :: k !in s.beats ==> Tracked(s.log, k) == None)
  }

  ghost predicate SnapshotTellsHistory(s: State) {
    var pending := Pending(s.phase);
    && (forall i :: 0 <= i < |pending| ==> Tracked(AtSnapshot(s.log), pending[i].Id()) == Some(pending[i]))
    && (forall i, j :: 0 <= i < j < |pending| ==> pending[i].Id() != pending[j].Id())
    && (InHand(s.phase).Some? ==> InHand(s.phase).value.knownStatus == Online)
  }

  ghost predicate HistoryInv(s: State) {
    MapTellsHistory(s) && SnapshotTellsHistory(s)
  }

  /** The one event a step adds to the log, if any. */
  ghost function Logged(c: Config, s: State, step: Step): Option<Event>
    requires Enabled(c, s, step)
  {
    var log := Apply(c, s, step).log;
    if |log| == |s.log| then None else Some(log[|s.log|])
  }

  lemma LogGrows(c: Config, s: State, step: Step)
    requires Enabled(c, s, step)
    ensures Logged(c, s, step).None? ==> Apply(c, s, step).log == s.log
    ensures Logged(c, s, step).Some? ==> Apply(c, s, step).log == s.log + [Logged(c, s, step).value]
    ensures Logged(c, s, step) ==
            match step
            case CommitTelemetry(call, q) => Some(Heard(call.key, call.now, HearingOf(s.beats, call.key), q))
            case Decommission(key) => Some(Removed(key))
            case TakeSnapshot(_) => Some(SnapshotTaken)
            case Evaluate(a) =>
              var e := s.phase.todo[0];
              if Alerts(e, s.phase.now, a)
              then Some(Published(e.Id(), Alert(e.gatewayID, e.lastSeen, a.timeoutMs, s.phase.now)))
              else None
            case Dispatch(q) => Some(OfflineSent(s.phase.entry.Id(), s.phase.entry.lastSeen, q))
            case Mark => Some(Marked(s.phase.entry.Id()))
            case _ => None
  {
  }

  /** What the event of a step, if any, means for the entry of one key. */
  ghost predicate MapEffect(s: State, t: State, e: Option<Event>, key: Key) {
    && t.log == (if e.Some? then s.log + [e.value] else s.log)
    && (if e.Some? && IsHeard(e.value, key) then
          && key in t.beats
          && e.value.hearing == HearingOf(s.beats, key)
          && t.beats[key] == (if key in s.beats then s.beats[key].(lastSeen := e.value.at, knownStatus := Online)
                              else Entry(key.tenantID, key.gatewayID, e.value.at, Online))
        else if e.Some? && IsRemoved(e.value, key) then
          key !in t.beats
        else
          && (key in t.beats <==> key in s.beats)
          && (key in s.beats ==>
                t.beats[key] == if e.Some? && IsMarked(e.value, key) then s.beats[key].(knownStatus := Offline)
                                else s.beats[key]))
  }

  lemma SendKeepsMap(c: Config, u: StatusUpdate, queued: bool)
    ensures forall s: State :: Send(c, s, u, queued).beats == s.beats
  {
  }

  /** Telemetry, decommissions and marks change the map. */
  lemma BeatsChange(c: Config, s: State, step: Step)
    requires Enabled(c, s, step) && (step.CommitTelemetry? || step.Decommission? || step.Mark?)
    ensures step.CommitTelemetry? ==> Apply(c, s, step).beats == Hear(s.beats, step.call.key, step.call.now)
    ensures step.Decommission? ==> Apply(c, s, step).beats == s.beats - {step.key}
    ensures step.Mark? ==> Apply(c, s, step).beats == MarkOffline(s.beats, s.phase.entry.Id())
  {
    hide Send, SendOutcome, Hear, MarkOffline;
    if step.CommitTelemetry? {
      SendKeepsMap(c, StatusUpdate(step.call.key.gatewayID, Online, step.call.now), step.queued);
    }
  }

  /** Nothing else does. */
  lemma BeatsStay(c: Config, s: State, step: Step)
    requires Enabled(c, s, step) && !step.CommitTelemetry? && !step.Decommission? && !step.Mark?
    ensures Apply(c, s, step).beats == s.beats
  {
    hide Send, SendOutcome, Alerts, Copies, Enumerates;
    if step.Dispatch? {
      SendKeepsMap(c, StatusUpdate(s.phase.entry.gatewayID, Offline, s.phase.entry.lastSeen), step.queued);
    }
  }

  lemma StepMapEffect(c: Config, s: State, step: Step, key: Key)
    requires Enabled(c, s, step)
    ensures MapEffect(s, Apply(c, s, step), Logged(c, s, step), key)
  {
    hide Apply, Alerts;
    if step.CommitTelemetry? || step.Decommission? || step.Mark? {
      BeatsChange(c, s, step);
    } else {
      BeatsStay(c, s, step);
    }
    LogGrows(c, s, step);
  }

  lemma EntryKept(s: State, t: State, e: Option<Event>, key: Key)
    requires MapTellsHistory(s) && MapEffect(s, t, e, key)
    ensures Tracked(t.log, key) == if key in t.beats then Some(t.beats[key]) else None
  {
    if e.Some? { TrackedSnoc(s.log, e.value, key); }
    if key in s.beats { var _ := TrackedIsLatestHeard(s.log, key); }
  }

  lemma MapKept(c: Config, s: State, step: Step)
    requires MapTellsHistory(s) && Enabled(c, s, step)
    ensures MapTellsHistory(Apply(c, s, step))
  {
    var t := Apply(c, s, step);
    forall k ensures Tracked(t.log, k) == if k in t.beats then Some(t.beats[k]) else None {
      StepMapEffect(c, s, step, k);
      EntryKept(s, t, Logged(c, s, step), k);
    }
  }

  /** Only TakeSnapshot adds entries to the running Tick; every other step keeps them or drops the first. */
  lemma PendingShrinks(c: Config, s: State, step: Step)
    requires Enabled(c, s, step) && !step.TakeSnapshot?
    ensures var p, q := Pending(s.phase), Pending(Apply(c, s, step).phase);
            q == p || (p != [] && q == p[1..])
    ensures AtSnapshot(Apply(c, s, step).log) == AtSnapshot(s.log)
  {
    LogGrows(c, s, step);
    var e := Logged(c, s, step);
    if e.Some? { AtSnapshotSnoc(s.log, e.value); }
    var p, q := Pending(s.phase), Pending(Apply(c, s, step).phase);
    if step.Evaluate? && q != p[1..] {
      assert q == [p[0]] + p[1..] == p;
    }
  }

  lemma FreshSnapshot(c: Config, s: State, order: seq<Key>)
    requires MapTellsHistory(s) && Enabled(c, s, TakeSnapshot(order))
    ensures SnapshotTellsHistory(Apply(c, s, TakeSnapshot(order)))
  {
    AtSnapshotSnoc(s.log, SnapshotTaken);
    forall i | 0 <= i < |order|
      ensures s.beats[order[i]].Id() == order[i] && Tracked(s.log, order[i]) == Some(s.beats[order[i]])
    {
      var _ := TrackedIsLatestHeard(s.log, order[i]);
    }
  }

  /** Only an Online entry gets as far as an alert. */
  lemma OnlineInHand(c: Config, s: State, step: Step)
    requires SnapshotTellsHistory(s) && Enabled(c, s, step)
    ensures InHand(Apply(c, s, step).phase).Some? ==> InHand(Apply(c, s, step).phase).value.knownStatus == Online
  {
  }

  lemma SnapshotKept(c: Config, s: State, step: Step)
    requires HistoryInv(s) && Enabled(c, s, step)
    ensures SnapshotTellsHistory(Apply(c, s, step))
  {
    if step.TakeSnapshot? {
      FreshSnapshot(c, s, step.order);
    } else {
      PendingShrinks(c, s, step);
      OnlineInHand(c, s, step);
      var t := Apply(c, s, step);
      var p, q := Pending(s.phase), Pending(t.phase);
      if q != p {
        forall i | 0 <= i < |q| ensures q[i] == p[i + 1] {}
      }
    }
  }

  lemma {:induction false} HistoryInvHolds(c: Config, steps: seq<Step>, s: State)
    requires Exec(c, Init(c), steps) == Some(s)
    ensures HistoryInv(s)
    decreases |steps|
  {
    if steps != [] {
      var before := Exec(c, Init(c), steps[..|steps| - 1]).value;
      HistoryInvHolds(c, steps[..|steps| - 1], before);
      MapKept(c, before, steps[|steps| - 1]);
      SnapshotKept(c, before, steps[|steps| - 1]);
    }
  }
}
