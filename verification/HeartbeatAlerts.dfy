/**
 Safety of offline alerts over every interleaving: a gateway is alerted at most once per transition to
 Online, and every alert is justified by the telemetry the Tick's snapshot saw.
 */
module HeartbeatAlerts {
  import opened Common
  import opened Heartbeat
  import opened HeartbeatHistory

  // ------------------------------------------------------------------------------------------------
  // At most one alert per transition to Online
  // ------------------------------------------------------------------------------------------------

  /** The key was not alerted since it last came Online. */
  predicate Armed(log: History, key: Key)
    decreases |log|
  {
    log == [] ||
    var e := log[|log| - 1];
    !IsPublished(e, key) && (CameOnline(e, key) || Armed(log[..|log| - 1], key))
  }

  lemma ArmedSnoc(log: History, e: Event, key: Key)
    ensures Armed(log + [e], key) <==> !IsPublished(e, key) && (CameOnline(e, key) || Armed(log, key))
  {
    assert (log + [e])[..|log|] == log;
  }

  lemma {:induction false} ArmedMeansCameOnline(log: History, key: Key, i: nat) returns (m: nat)
    requires Armed(log, key) && i < |log| && IsPublished(log[i], key)
    ensures i < m < |log| && CameOnline(log[m], key)
    decreases |log|
  {
    if CameOnline(log[|log| - 1], key) {
      m := |log| - 1;
    } else {
      m := ArmedMeansCameOnline(log[..|log| - 1], key, i);
    }
  }

  function Todo(p: Phase): seq<Entry> {
    if p.Evaluating? || p.Announced? || p.Dispatched? then p.todo else []
  }

  /** The running Tick has alerted the key and not marked it yet. */
  predicate HoldsKey(p: Phase, key: Key) {
    InHand(p).Some? && InHand(p).value.Id() == key
  }

  ghost predicate MapIsArmed(s: State) {
    forall k :: k in s.beats && s.beats[k].knownStatus == Online ==>
      Armed(s.log, k) || HoldsKey(s.phase, k)
  }

  ghost predicate TodoIsArmed(s: State) {
    var todo := Todo(s.phase);
    forall i :: 0 <= i < |todo| && todo[i].knownStatus == Online ==> Armed(s.log, todo[i].Id())
  }

  /** Everything the tracker or the running Tick holds as Online may be alerted, or is being alerted right now. */
  ghost predicate OnlineIsArmed(s: State) {
    MapIsArmed(s) && TodoIsArmed(s)
  }

  ghost predicate OnePerTransition(log: History) {
    forall k, i, j :: 0 <= i < j < |log| && IsPublished(log[i], k) && IsPublished(log[j], k) ==>
      exists m :: i < m < j && CameOnline(log[m], k)
  }

  lemma KeyArmedKept(s: State, t: State, e: Option<Event>, key: Key)
    requires MapEffect(s, t, e, key) && MapIsArmed(s)
    requires HoldsKey(s.phase, key) ==> HoldsKey(t.phase, key) || (e.Some? && IsMarked(e.value, key))
    requires e.Some? && IsPublished(e.value, key) ==> HoldsKey(t.phase, key)
    requires key in t.beats && t.beats[key].knownStatus == Online
    ensures Armed(t.log, key) || HoldsKey(t.phase, key)
  {
    if e.Some? { ArmedSnoc(s.log, e.value, key); }
  }

  lemma MapArmedKept(c: Config, s: State, step: Step)
    requires HistoryInv(s) && OnlineIsArmed(s) && Enabled(c, s, step)
    ensures MapIsArmed(Apply(c, s, step))
  {
    var t, e := Apply(c, s, step), Logged(c, s, step);
    LogGrows(c, s, step);
    forall k | k in t.beats && t.beats[k].knownStatus == Online
      ensures Armed(t.log, k) || HoldsKey(t.phase, k)
    {
      StepMapEffect(c, s, step, k);
      KeyArmedKept(s, t, e, k);
    }
  }

  /** A Tick's snapshot has one entry a key, so an alert disarms none of the entries still to be evaluated. */
  lemma TodoArmedKept(c: Config, s: State, step: Step)
    requires HistoryInv(s) && OnlineIsArmed(s) && Enabled(c, s, step)
    ensures TodoIsArmed(Apply(c, s, step))
  {
    var t, e := Apply(c, s, step), Logged(c, s, step);
    LogGrows(c, s, step);
    var todo := Todo(t.phase);
    forall i | 0 <= i < |todo| && todo[i].knownStatus == Online
      ensures Armed(t.log, todo[i].Id())
    {
      if e.Some? { ArmedSnoc(s.log, e.value, todo[i].Id()); }
      if step.TakeSnapshot? {
        var _ := TrackedIsLatestHeard(s.log, step.order[i]);
      } else if step.Evaluate? {
        assert todo[i] == Pending(s.phase)[i + 1];
        assert Pending(s.phase)[0].Id() != Pending(s.phase)[i + 1].Id();
      } else {
        assert todo == Todo(s.phase);
      }
    }
  }

  lemma OncePerTransitionKept(c: Config, s: State, step: Step)
    requires OnlineIsArmed(s) && OnePerTransition(s.log) && Enabled(c, s, step)
    ensures OnePerTransition(Apply(c, s, step).log)
  {
    LogGrows(c, s, step);
    var log := Apply(c, s, step).log;
    forall k, i, j | 0 <= i < j < |log| && IsPublished(log[i], k) && IsPublished(log[j], k)
      ensures exists m :: i < m < j && CameOnline(log[m], k)
    {
      if j < |s.log| {
        var m :| i < m < j && CameOnline(s.log[m], k);
        assert CameOnline(log[m], k);
      } else {
        assert Todo(s.phase)[0].Id() == k;
        var m := ArmedMeansCameOnline(s.log, k, i);
        assert CameOnline(log[m], k);
      }
    }
  }

  // ------------------------------------------------------------------------------------------------
  // Every alert is justified
  // ------------------------------------------------------------------------------------------------

  /** The longest timeout whose nanoseconds fit a 64-bit duration. */
  const LONGEST_TIMEOUT_MS: int := 9_223_372_036_854

  /** The alert at position `j` reports what the snapshot of its Tick knew, after the grace period and the deadline. */
  ghost predicate Justified(c: Config, log: History, j: nat)
    requires j < |log| && log[j].Published?
  {
    var key, alert := log[j].key, log[j].alert;
    && Tracked(AtSnapshot(log[..j]), key) == Some(Entry(key.tenantID, key.gatewayID, alert.lastSeen, Online))
    && alert.gatewayID == key.gatewayID
    && IsInt64(alert.timeoutMs)
    && c.startTime + c.gracePeriod <= alert.timestamp
    && Deadline(alert.lastSeen, alert.timeoutMs) <= alert.timestamp
  }

  ghost predicate AllJustified(c: Config, log: History) {
    forall j :: 0 <= j < |log| && log[j].Published? ==> Justified(c, log, j)
  }

  predicate PastGrace(c: Config, p: Phase) {
    !p.Idle? ==> c.startTime + c.gracePeriod <= p.now
  }

  lemma JustifiedKept(c: Config, s: State, step: Step)
    requires HistoryInv(s) && PastGrace(c, s.phase) && AllJustified(c, s.log) && Enabled(c, s, step)
    ensures AllJustified(c, Apply(c, s, step).log) && PastGrace(c, Apply(c, s, step).phase)
  {
    LogGrows(c, s, step);
    var log := Apply(c, s, step).log;
    forall j | 0 <= j < |log| && log[j].Published? ensures Justified(c, log, j) {
      if j < |s.log| {
        assert log[..j] == s.log[..j];
        assert Justified(c, s.log, j);
      } else {
        assert log[..j] == s.log;
        assert Pending(s.phase)[0] == s.phase.todo[0];
      }
    }
  }

  // ------------------------------------------------------------------------------------------------
  // Telemetry times
  // ------------------------------------------------------------------------------------------------

  /** All telemetry for the key in the log was read by then. */
  ghost predicate HeardBy(log: History, key: Key, time: int) {
    forall i :: 0 <= i < |log| && IsHeard(log[i], key) ==> log[i].at <= time
  }

  ghost predicate HeardInOrder(log: History, key: Key) {
    forall i, j :: 0 <= i < j < |log| && IsHeard(log[i], key) && IsHeard(log[j], key) ==> log[i].at <= log[j].at
  }

  /** One call for the key at most is in flight, and no telemetry for it was read after this call, or after now. */
  ghost predicate KeyInOrder(calls: multiset<Call>, log: History, clock: int, key: Key) {
    && (forall m, n :: Call(key, m) in calls && Call(key, n) in calls ==> m == n)
    && (forall n :: Call(key, n) in calls ==> calls[Call(key, n)] == 1 && n <= clock && HeardBy(log, key, n))
    && HeardBy(log, key, clock)
    && HeardInOrder(log, key)
  }

  /** With serial calls, telemetry for a key enters the log in the order of its clock readings. */
  ghost predicate TimesInOrder(c: Config, s: State) {
    c.serial ==> forall k :: KeyInOrder(s.calls, s.log, s.clock, k)
  }

  lemma HeardSnoc(log: History, e: Event, key: Key, clock: int)
    requires HeardBy(log, key, clock) && HeardInOrder(log, key)
    requires IsHeard(e, key) ==> HeardBy(log, key, e.at) && e.at <= clock
    ensures HeardBy(log + [e], key, clock) && HeardInOrder(log + [e], key)
    ensures !IsHeard(e, key) ==> forall time :: HeardBy(log, key, time) ==> HeardBy(log + [e], key, time)
  {
  }

  lemma OrderedCall(calls: multiset<Call>, log: History, clock: int, key: Key, k: Key)
    requires KeyInOrder(calls, log, clock, key) && !InFlight(calls, k)
    ensures KeyInOrder(calls + multiset{Call(k, clock)}, log, clock, key)
  {
  }

  lemma OrderedCommit(calls: multiset<Call>, log: History, clock: int, key: Key, call: Call, e: Event)
    requires KeyInOrder(calls, log, clock, key) && call in calls && e.Heard? && e.key == call.key && e.at == call.now
    ensures KeyInOrder(calls - multiset{call}, log + [e], clock, key)
  {
    HeardSnoc(log, e, key, clock);
    assert call.key == key ==> call == Call(key, call.now);
    assert forall n :: Call(key, n) in calls - multiset{call} ==> Call(key, n) in calls && call.key != key;
  }

  lemma OrderedOther(calls: multiset<Call>, log: History, clock: int, key: Key, e: Event)
    requires KeyInOrder(calls, log, clock, key) && !e.Heard?
    ensures KeyInOrder(calls, log + [e], clock, key)
  {
    HeardSnoc(log, e, key, clock);
  }

  lemma OrderedLater(calls: multiset<Call>, log: History, clock: int, key: Key, later: int)
    requires KeyInOrder(calls, log, clock, key) && clock <= later
    ensures KeyInOrder(calls, log, later, key)
  {
  }

  lemma KeyInOrderKept(c: Config, s: State, step: Step, key: Key)
    requires c.serial && KeyInOrder(s.calls, s.log, s.clock, key) && Enabled(c, s, step)
    ensures var t := Apply(c, s, step); KeyInOrder(t.calls, t.log, t.clock, key)
  {
    hide KeyInOrder;
    LogGrows(c, s, step);
    var e := Logged(c, s, step);
    if step.CallTelemetry? {
      OrderedCall(s.calls, s.log, s.clock, key, step.key);
    } else if step.CommitTelemetry? {
      OrderedCommit(s.calls, s.log, s.clock, key, step.call, e.value);
    } else if step.Advance? {
      OrderedLater(s.calls, s.log, s.clock, key, step.to);
    } else if e.Some? {
      OrderedOther(s.calls, s.log, s.clock, key, e.value);
    }
  }

  lemma TimesKept(c: Config, s: State, step: Step)
    requires TimesInOrder(c, s) && Enabled(c, s, step)
    ensures TimesInOrder(c, Apply(c, s, step))
  {
    forall k | c.serial ensures var t := Apply(c, s, step); KeyInOrder(t.calls, t.log, t.clock, k) {
      KeyInOrderKept(c, s, step, k);
    }
  }

  // ------------------------------------------------------------------------------------------------
  // The invariant over runs, and the theorems
  // ------------------------------------------------------------------------------------------------

  ghost predicate AlertInv(c: Config, s: State) {
    && HistoryInv(s)
    && OnlineIsArmed(s)
    && OnePerTransition(s.log)
    && AllJustified(c, s.log)
    && PastGrace(c, s.phase)
    && TimesInOrder(c, s)
  }

  lemma {:induction false} AlertInvHolds(c: Config, steps: seq<Step>, s: State)
    requires Exec(c, Init(c), steps) == Some(s)
    ensures AlertInv(c, s)
    decreases |steps|
  {
    if steps != [] {
      var before, step := Exec(c, Init(c), steps[..|steps| - 1]).value, steps[|steps| - 1];
      AlertInvHolds(c, steps[..|steps| - 1], before);
      MapKept(c, before, step);
      SnapshotKept(c, before, step);
      MapArmedKept(c, before, step);
      TodoArmedKept(c, before, step);
      OncePerTransitionKept(c, before, step);
      JustifiedKept(c, before, step);
      TimesKept(c, before, step);
    }
  }

  lemma ReachableAlertInv(c: Config, s: State)
    requires Reachable(c, s)
    ensures AlertInv(c, s)
  {
    var steps :| Exec(c, Init(c), steps) == Some(s);
    AlertInvHolds(c, steps, s);
  }

  /** Between two alerts for the same key the key came Online, whatever ran inside the publish-to-mark window. */
  lemma CameOnlineBetweenAlerts(c: Config, s: State, key: Key, i: nat, j: nat) returns (m: nat)
    requires Reachable(c, s)
    requires i < j < |s.log| && IsPublished(s.log[i], key) && IsPublished(s.log[j], key)
    ensures i < m < j && CameOnline(s.log[m], key)
  {
    ReachableAlertInv(c, s);
    m :| i < m < j && CameOnline(s.log[m], key);
  }

  /** Position `n` is the snapshot of the Tick that produced the event at position `j`. */
  ghost predicate SnapshotOf(log: History, j: nat, n: nat) {
    && n < j < |log|
    && log[n].SnapshotTaken?
    && forall x :: n < x < j ==> !log[x].SnapshotTaken?
  }

  /** What a snapshot knew of a key came from the latest telemetry before it. */
  lemma TrackedAtSnapshot(log: History, j: nat, key: Key) returns (h: nat, n: nat)
    requires j < |log| && Tracked(AtSnapshot(log[..j]), key).Some?
    ensures SnapshotOf(log, j, n) && LatestHeard(log[..n], key, h)
    ensures log[h].at == Tracked(AtSnapshot(log[..j]), key).value.lastSeen
  {
    var before := log[..j];
    AtSnapshotCuts(before);
    n := |AtSnapshot(before)|;
    assert AtSnapshot(before) == before[..n] == log[..n];
    h := TrackedIsLatestHeard(log[..n], key);
  }

  /**
   An alert carries the time of the latest telemetry its Tick's snapshot knew of (`h`, before the snapshot `n`),
   is not sent before the grace period is over and not before the deadline.
   */
  lemma AlertIsJustified(c: Config, s: State, j: nat) returns (h: nat, n: nat)
    requires Reachable(c, s)
    requires j < |s.log| && s.log[j].Published?
    ensures SnapshotOf(s.log, j, n)
    ensures LatestHeard(s.log[..n], s.log[j].key, h)
    ensures s.log[h].at == s.log[j].alert.lastSeen
    ensures s.log[j].alert.gatewayID == s.log[j].key.gatewayID
    ensures c.startTime + c.gracePeriod <= s.log[j].alert.timestamp
    ensures var a := s.log[j].alert;
            a.timeoutMs <= LONGEST_TIMEOUT_MS ==> a.lastSeen + a.timeoutMs * NANOS_PER_MS <= a.timestamp
  {
    assert Justified(c, s.log, j) by { ReachableAlertInv(c, s); }
    h, n := TrackedAtSnapshot(s.log, j, s.log[j].key);
  }

  /** After a decommission, no Tick with a later snapshot alerts the key unless telemetry came in between. */
  lemma DecommissionSilences(c: Config, s: State, key: Key, i: nat, n: nat, j: nat) returns (h: nat)
    requires Reachable(c, s)
    requires i < n < j < |s.log|
    requires IsRemoved(s.log[i], key) && SnapshotOf(s.log, j, n) && IsPublished(s.log[j], key)
    ensures i < h < n && IsHeard(s.log[h], key)
  {
    var m;
    h, m := AlertIsJustified(c, s, j);
    assert m == n;
    assert s.log[..n][i] == s.log[i];
  }

  lemma {:induction false} LatestHeardIsTracked(log: History, key: Key, i: nat)
    requires LatestHeard(log, key, i)
    ensures Tracked(log, key).Some?
    decreases |log|
  {
    if i < |log| - 1 {
      assert forall j :: 0 <= j < |log| - 1 ==> log[j] == log[..|log| - 1][j];
      LatestHeardIsTracked(log[..|log| - 1], key, i);
    }
  }

  /** Only telemetry adds keys and only a decommission removes them; a Tick does neither. */
  lemma TrackedKeys(c: Config, s: State, key: Key)
    requires Reachable(c, s)
    ensures key in s.beats <==> exists i :: LatestHeard(s.log, key, i)
    ensures key in s.beats ==> s.beats[key].Id() == key
  {
    ReachableAlertInv(c, s);
    if key in s.beats {
      var i := TrackedIsLatestHeard(s.log, key);
    } else if i :| LatestHeard(s.log, key, i) {
      LatestHeardIsTracked(s.log, key, i);
    }
  }

  /** With telemetry calls serial for each key, `lastSeen` is the latest clock reading of all telemetry for the key. */
  lemma LastSeenIsNewest(c: Config, s: State, key: Key, i: nat)
    requires Reachable(c, s) && c.serial
    requires key in s.beats && i < |s.log| && IsHeard(s.log[i], key)
    ensures s.log[i].at <= s.beats[key].lastSeen
  {
    assert KeyInOrder(s.calls, s.log, s.clock, key) by { ReachableAlertInv(c, s); }
    ReachableAlertInv(c, s);
    var h := TrackedIsLatestHeard(s.log, key);
  }

  /** Whatever happens, `lastSeen` is the latest clock reading of all telemetry for the key. */
  ghost predicate NewestIsKept(c: Config) {
    forall s, key, i: nat ::
      Reachable(c, s) && key in s.beats && i < |s.log| && IsHeard(s.log[i], key) ==>
        s.log[i].at <= s.beats[key].lastSeen
  }

  /** Two calls for the same key are in flight; the later one read the later time. */
  lemma TwoCalls(c: Config, key: Key) returns (s: State)
    requires !c.serial
    ensures Reachable(c, s)
    ensures s == Init(c).(clock := c.startTime + 5,
                          calls := multiset{Call(key, c.startTime), Call(key, c.startTime + 5)})
  {
    hide Reachable;
    InitReachable(c);
    s := Go(c, Init(c), CallTelemetry(key));
    s := Go(c, s, Advance(c.startTime + 5));
    s := Go(c, s, CallTelemetry(key));
  }

  /** The clock is read before the lock is taken: of two overlapping calls, the first to read may commit last. */
  lemma OverlappingCallsTurnTimeBack(c: Config, key: Key) returns (s: State)
    requires !c.serial
    ensures Reachable(c, s) && key in s.beats && |s.log| > 0 && IsHeard(s.log[0], key)
    ensures s.beats[key].lastSeen < s.log[0].at
  {
    hide Reachable;
    s := TwoCalls(c, key);
    s := Go(c, s, CommitTelemetry(Call(key, c.startTime + 5), c.capacity > 0));
    s := Go(c, s, CommitTelemetry(Call(key, c.startTime), false));
    assert IsHeard(s.log[0], key) && s.log[0].at == c.startTime + 5;
  }

  /** So time never turns back exactly if telemetry calls are serial for each key. */
  lemma NewestExactlyWhenSerial(c: Config)
    ensures NewestIsKept(c) <==> c.serial
  {
    if c.serial {
      forall s, key, i: nat | Reachable(c, s) && key in s.beats && i < |s.log| && IsHeard(s.log[i], key)
        ensures s.log[i].at <= s.beats[key].lastSeen
      {
        LastSeenIsNewest(c, s, key, i);
      }
    } else {
      var key := Key("", "");
      var s := OverlappingCallsTurnTimeBack(c, key);
    }
  }

  /** A first gateway is registered. */
  lemma RegisteredAtOnce(c: Config, key: Key) returns (s: State)
    requires c == Config(0, 0, 10, true)
    ensures Reachable(c, s)
    ensures s == Init(c).(beats := map[key := Entry(key.tenantID, key.gatewayID, 0, Online)],
                          queue := [StatusUpdate(key.gatewayID, Online, 0)],
                          log := [Heard(key, 0, FirstSeen, true)])
  {
    InitReachable(c);
    s := Go(c, Init(c), CallTelemetry(key));
    s := Go(c, s, CommitTelemetry(Call(key, 0), true));
    assert s.calls == multiset{};
  }

  /** A Tick that took its snapshot before the decommission still alerts the gateway. */
  lemma DecommissionDuringTickAlerts(key: Key) returns (c: Config, s: State)
    ensures Reachable(c, s) && key !in s.beats
    ensures |s.log| == 4 && IsRemoved(s.log[2], key) && IsPublished(s.log[3], key)
  {
    c := Config(0, 0, 10, true);
    s := RegisteredAtOnce(c, key);
    s := Go(c, s, BeginTick);
    s := Go(c, s, TakeSnapshot([key]));
    assert s.phase == Evaluating(0, [Entry(key.tenantID, key.gatewayID, 0, Online)]);
    s := Go(c, s, Decommission(key));
    s := Go(c, s, Evaluate(Answer(0, None, true)));
  }

  // ------------------------------------------------------------------------------------------------
  // Timeouts whose nanoseconds do not fit 64 bits
  // ------------------------------------------------------------------------------------------------

  /** No alert over the given timeout goes out before the timeout has passed since the gateway was last seen. */
  ghost predicate NeverEarly(c: Config, timeoutMs: int) {
    forall s, j: nat ::
      Reachable(c, s) && j < |s.log| && s.log[j].Published? && s.log[j].alert.timeoutMs == timeoutMs ==>
        s.log[j].alert.lastSeen + timeoutMs * NANOS_PER_MS <= s.log[j].alert.timestamp
  }

  lemma RegisteredAt(c: Config, key: Key, time: int) returns (s: State)
    requires c.startTime <= time
    ensures Reachable(c, s)
    ensures s.clock == time && s.phase.Idle? && |s.log| == 1
    ensures s.beats == map[key := Entry(key.tenantID, key.gatewayID, time, Online)]
  {
    hide Reachable;
    InitReachable(c);
    s := Go(c, Init(c), Advance(time));
    s := Go(c, s, CallTelemetry(key));
    s := Go(c, s, CommitTelemetry(Call(key, time), c.capacity > 0));
  }

  /** A Tick that finds only this gateway expired alerts it when the lifecycle query fails. */
  lemma AlertedAt(c: Config, s0: State, key: Key, time: int, timeoutMs: int) returns (s: State)
    requires Reachable(c, s0) && s0.phase.Idle? && |s0.log| == 1 && s0.clock <= time
    requires s0.beats.Keys == {key} && s0.beats[key].Id() == key && s0.beats[key].knownStatus == Online
    requires IsInt64(timeoutMs) && Deadline(s0.beats[key].lastSeen, timeoutMs) <= time
    requires c.startTime + c.gracePeriod <= time
    ensures Reachable(c, s) && |s.log| == 3
    ensures s.log[2] == Published(key, Alert(key.gatewayID, s0.beats[key].lastSeen, timeoutMs, time))
  {
    hide Reachable, Wrap64;
    s := Go(c, s0, Advance(time));
    s := Go(c, s, BeginTick);
    s := Go(c, s, TakeSnapshot([key]));
    assert s.phase == Evaluating(time, [s0.beats[key]]);
    s := Go(c, s, Evaluate(Answer(timeoutMs, None, true)));
  }

  /** Alerts are never early over a timeout exactly if its nanoseconds fit; longer ones wrap around. */
  lemma NeverEarlyExactlyWhenItFits(c: Config, timeoutMs: int)
    requires IsInt64(timeoutMs)
    ensures NeverEarly(c, timeoutMs) <==> timeoutMs <= LONGEST_TIMEOUT_MS
  {
    if timeoutMs <= LONGEST_TIMEOUT_MS {
      forall s, j: nat | Reachable(c, s) && j < |s.log| && s.log[j].Published? && s.log[j].alert.timeoutMs == timeoutMs
        ensures s.log[j].alert.lastSeen + timeoutMs * NANOS_PER_MS <= s.log[j].alert.timestamp
      {
        var h, n := AlertIsJustified(c, s, j);
      }
    } else {
      var key, start := Key("", ""), Max(c.startTime, c.startTime + c.gracePeriod);
      var s := RegisteredAt(c, key, start);
      var time := Max(start, Deadline(start, timeoutMs));
      s := AlertedAt(c, s, key, time, timeoutMs);
      assert s.log[2].Published? && s.log[2].alert.timeoutMs == timeoutMs;
    }
  }
}
