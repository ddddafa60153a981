/**
 The tracker as the object it is: a map of entries updated in place, a bounded channel, and a Tick that loops
 over a snapshot. Every method moves the ghost state machine along its steps, so that whatever is proved of all
 runs of the machine holds of the object; a Tick that is not interleaved also meets a declarative description.
 */
module HeartbeatTracker {
  import opened Common
  import opened Heartbeat
  import HeartbeatAlerts
  import HeartbeatStatus

  /** One key was heard from: it is tracked, Online and seen just now; all other keys are as before. */
  ghost predicate HeardFrom(before: Beats, after: Beats, key: Key, now: int) {
    && key in after && after[key].lastSeen == now && after[key].knownStatus == Online
    && after[key].Id() == (if key in before then before[key].Id() else key)
    && forall k :: k != key ==> (k in after <==> k in before) && (k in before ==> after[k] == before[k])
  }

  lemma HearMeans(beats: Beats, key: Key, now: int)
    ensures HeardFrom(beats, Hear(beats, key, now), key, now)
  {
  }

  /** The key is Offline if it is tracked; nothing else is different. */
  ghost predicate MarkedOffline(before: Beats, after: Beats, key: Key) {
    && after.Keys == before.Keys
    && forall k :: k in before ==>
         after[k] == if k == key then before[k].(knownStatus := Offline) else before[k]
  }

  lemma MarkMeans(beats: Beats, key: Key)
    ensures MarkedOffline(beats, MarkOffline(beats, key), key)
  {
  }

  class HeartbeatEntry {
    const tenantID: string
    const gatewayID: string
    var lastSeen: int
    var knownStatus: Status

    function Value(): Entry
      reads this
    {
      Entry(tenantID, gatewayID, lastSeen, knownStatus)
    }

    constructor (key: Key, now: int)
      ensures Value() == Entry(key.tenantID, key.gatewayID, now, Online)
    {
      tenantID, gatewayID, lastSeen, knownStatus := key.tenantID, key.gatewayID, now, Online;
    }
  }

  /** What a Tick at `now` makes of the map when nothing runs in between. */
  function TickResult(beats: Beats, now: int, answers: Key -> Answer): Beats {
    map k | k in beats :: if Alerts(beats[k], now, answers(k)) then beats[k].(knownStatus := Offline) else beats[k]
  }

  ghost predicate NoneAlerts(beats: Beats, now: int, answers: Key -> Answer) {
    forall k :: k in beats ==> !Alerts(beats[k], now, answers(k))
  }

  function AlertFor(e: Entry, now: int, a: Answer): Alert {
    Alert(e.gatewayID, e.lastSeen, a.timeoutMs, now)
  }

  /** The map once the given keys have been dealt with. */
  function TickProgress(beats: Beats, finished: seq<Key>, now: int, answers: Key -> Answer): Beats {
    map k | k in beats ::
      if k in finished && Alerts(beats[k], now, answers(k)) then beats[k].(knownStatus := Offline) else beats[k]
  }

  /** One more key dealt with: its mark is the only change. */
  lemma TickProgresses(beats: Beats, finished: seq<Key>, key: Key, now: int, answers: Key -> Answer)
    requires key in beats && key !in finished
    ensures var m := TickProgress(beats, finished, now, answers);
            TickProgress(beats, finished + [key], now, answers) ==
            if Alerts(beats[key], now, answers(key)) then MarkOffline(m, key) else m
  {
    var m, n := TickProgress(beats, finished, now, answers), TickProgress(beats, finished + [key], now, answers);
    forall k | k in beats ensures n[k] == if k == key && Alerts(beats[key], now, answers(key))
                                          then m[k].(knownStatus := Offline) else m[k] {}
  }

  /** The alerts for the given keys, in their order. */
  function AlertList(beats: Beats, order: seq<Key>, now: int, answers: Key -> Answer): seq<(Key, Alert)> {
    if order == [] then []
    else
      var k := order[|order| - 1];
      AlertList(beats, order[..|order| - 1], now, answers) +
      if k in beats && Alerts(beats[k], now, answers(k)) then [(k, AlertFor(beats[k], now, answers(k)))] else []
  }

  /**
   Whatever the order, exactly the keys that pass the gates are alerted, each once: Online, past the deadline, not
   paused, and published. An alert says when its gateway was last seen, its timeout, and the time of the Tick.
   */
  ghost predicate AlertsExactly(alerts: seq<(Key, Alert)>, beats: Beats, now: int, answers: Key -> Answer) {
    && (forall k, a :: (k, a) in alerts <==>
          && k in beats
          && beats[k].knownStatus == Online
          && beats[k].lastSeen + Wrap64(answers(k).timeoutMs * 1_000_000) <= now
          && answers(k).lifecycle != Some(Paused)
          && answers(k).published
          && a.gatewayID == beats[k].gatewayID
          && a.lastSeen == beats[k].lastSeen
          && a.timeoutMs == answers(k).timeoutMs
          && a.timestamp == now)
    && (forall i, j :: 0 <= i < j < |alerts| ==> alerts[i].0 != alerts[j].0)
  }

  /** A map whose alerted entries are Offline and that is otherwise the same. */
  ghost predicate EndsOffline(before: Beats, after: Beats, alerts: seq<(Key, Alert)>) {
    && after.Keys == before.Keys
    && forall k :: k in before ==>
         after[k] == if exists a :: (k, a) in alerts then before[k].(knownStatus := Offline) else before[k]
  }

  /** The alerts published in the course of some history, in order. */
  function Publishes(log: seq<Event>): seq<(Key, Alert)> {
    if log == [] then []
    else
      var e := log[|log| - 1];
      Publishes(log[..|log| - 1]) + if e.Published? then [(e.key, e.alert)] else []
  }

  lemma PublishesSnoc(log: seq<Event>, e: Event)
    ensures Publishes(log + [e]) == Publishes(log) + if e.Published? then [(e.key, e.alert)] else []
  {
    assert (log + [e])[..|log|] == log;
  }

  lemma {:induction false} PublishesJoin(log: seq<Event>, more: seq<Event>)
    ensures Publishes(log + more) == Publishes(log) + Publishes(more)
    decreases |more|
  {
    if more == [] {
      assert log + more == log;
    } else {
      var n := |more| - 1;
      PublishesJoin(log, more[..n]);
      PublishesSnoc(log + more[..n], more[n]);
      assert log + more == log + more[..n] + [more[n]];
    }
  }

  /** The alerts published since are the ones to be added to those of before. */
  lemma PublishedSince(before: seq<Event>, after: seq<Event>, alerts: seq<(Key, Alert)>)
    requires before <= after && Publishes(after) == Publishes(before) + alerts
    ensures Publishes(after[|before|..]) == alerts
  {
    assert after == before + after[|before|..];
    PublishesJoin(before, after[|before|..]);
    assert alerts == Publishes(after)[|Publishes(before)|..];
  }

  lemma {:induction false} AlertListMembers(beats: Beats, order: seq<Key>, now: int, answers: Key -> Answer)
    requires forall i, j :: 0 <= i < j < |order| ==> order[i] != order[j]
    ensures var alerts := AlertList(beats, order, now, answers);
            && (forall k, a :: (k, a) in alerts <==>
                  k in order && k in beats && Alerts(beats[k], now, answers(k))
                  && a == AlertFor(beats[k], now, answers(k)))
            && (forall i, j :: 0 <= i < j < |alerts| ==> alerts[i].0 != alerts[j].0)
    decreases |order|
  {
    if order != [] {
      var rest, k := order[..|order| - 1], order[|order| - 1];
      assert order == rest + [k];
      AlertListMembers(beats, rest, now, answers);
      var alerts := AlertList(beats, rest, now, answers);
      assert forall i :: 0 <= i < |alerts| ==> (alerts[i].0, alerts[i].1) in alerts;
    }
  }

  /** The Offline updates that go with some alerts. */
  function OfflineUpdates(alerts: seq<(Key, Alert)>): seq<StatusUpdate> {
    seq(|alerts|, i requires 0 <= i < |alerts| => StatusUpdate(alerts[i].1.gatewayID, Offline, alerts[i].1.lastSeen))
  }

  lemma OfflineUpdatesJoin(xs: seq<(Key, Alert)>, ys: seq<(Key, Alert)>)
    ensures OfflineUpdates(xs + ys) == OfflineUpdates(xs) + OfflineUpdates(ys)
  {
  }

  /** How many of `n` updates a channel with `used` of its slots taken accepts while nobody receives. */
  function Room(capacity: nat, used: nat, n: nat): (r: nat)
    ensures r <= n
  {
    if used >= capacity then 0 else Min(n, capacity - used)
  }

  /** How an update leaves a non-blocking send; a worker that waits at an empty channel gets it handed over. */
  datatype Sending = Dropped | Queued | HandedOver

  datatype Channel = Channel(queue: seq<StatusUpdate>, inHand: Option<StatusUpdate>, dropped: nat)

  /** What one send does to the channel, given how it ended. */
  predicate Sends(a: Channel, b: Channel, u: StatusUpdate, how: Sending) {
    match how
    case Dropped => b == a.(dropped := a.dropped + 1)
    case Queued => b == a.(queue := a.queue + [u])
    case HandedOver => b == a.(inHand := Some(u))
  }

  /** The channel's buffer took the first of the updates, as many as fit, and dropped the others. */
  predicate Filled(capacity: nat, a: Channel, b: Channel, updates: seq<StatusUpdate>) {
    var room := Room(capacity, |a.queue|, |updates|);
    b.queue == a.queue + updates[..room] && b.dropped == a.dropped + |updates| - room
  }

  /** Update `i`, the first one unless there is no buffer, was handed over to the worker; the others were buffered. */
  predicate HandedAt(capacity: nat, a: Channel, b: Channel, updates: seq<StatusUpdate>, i: nat) {
    && i < |updates| && (capacity > 0 ==> i == 0)
    && a.inHand.None? && a.queue == [] && b.inHand == Some(updates[i])
    && Filled(capacity, a, b, updates[..i] + updates[i + 1..])
  }

  /** What became of updates offered to the channel while the worker took nothing from its buffer. */
  ghost predicate Offered(capacity: nat, a: Channel, b: Channel, updates: seq<StatusUpdate>) {
    || (a.inHand == b.inHand && Filled(capacity, a, b, updates))
    || exists i: nat :: HandedAt(capacity, a, b, updates, i)
  }

  lemma FilledThen(capacity: nat, a: Channel, b: Channel, us: seq<StatusUpdate>, c: Channel, vs: seq<StatusUpdate>)
    requires Filled(capacity, a, b, us) && Filled(capacity, b, c, vs)
    ensures Filled(capacity, a, c, us + vs)
  {
    var r1, r2 := Room(capacity, |a.queue|, |us|), Room(capacity, |b.queue|, |vs|);
    assert (us + vs)[..r1 + r2] == us[..r1] + vs[..r2];
  }

  /** Offering updates in two portions is offering them at once. */
  lemma OfferedThen(capacity: nat, a: Channel, b: Channel, us: seq<StatusUpdate>, c: Channel, vs: seq<StatusUpdate>)
    requires Offered(capacity, a, b, us) && Offered(capacity, b, c, vs)
    ensures Offered(capacity, a, c, us + vs)
  {
    if i: nat :| HandedAt(capacity, a, b, us, i) {
      FilledThen(capacity, a, b, us[..i] + us[i + 1..], c, vs);
      assert (us + vs)[..i] + (us + vs)[i + 1..] == us[..i] + us[i + 1..] + vs;
      assert HandedAt(capacity, a, c, us + vs, i);
    } else if i: nat :| HandedAt(capacity, b, c, vs, i) {
      FilledThen(capacity, a, b, us, c, vs[..i] + vs[i + 1..]);
      var n := |us| + i;
      assert (us + vs)[..n] + (us + vs)[n + 1..] == us + (vs[..i] + vs[i + 1..]);
      assert HandedAt(capacity, a, c, us + vs, n);
    } else {
      FilledThen(capacity, a, b, us, c, vs);
    }
  }

  lemma NothingEvaluated(capacity: nat, beats: Beats, ch: Channel, order: seq<Key>, now: int, answers: Key -> Answer)
    ensures TickProgress(beats, order[..0], now, answers) == beats && AlertList(beats, order[..0], now, answers) == []
    ensures Offered(capacity, ch, ch, OfflineUpdates([]))
  {
  }

  /** A snapshot lists a copy of every entry, once, in the given order of the keys. */
  ghost predicate IsSnapshot(order: seq<Key>, snapshot: seq<Entry>, beats: Beats) {
    Enumerates(order, beats) && snapshot == Copies(order, beats)
  }

  /** One more entry of the snapshot: how the rest, the map, the alerts and their updates move on. */
  lemma TickMovesOn(beats: Beats, order: seq<Key>, snapshot: seq<Entry>, now: int, answers: Key -> Answer, i: nat)
    requires IsSnapshot(order, snapshot, beats) && i < |order|
    ensures snapshot[i] == beats[order[i]] && snapshot[i..] == [snapshot[i]] + snapshot[i + 1..]
    ensures TickProgress(beats, order[..i + 1], now, answers) ==
            var m := TickProgress(beats, order[..i], now, answers);
            if Alerts(snapshot[i], now, answers(order[i])) then MarkOffline(m, order[i]) else m
    ensures AlertList(beats, order[..i + 1], now, answers) ==
            AlertList(beats, order[..i], now, answers) +
            if Alerts(snapshot[i], now, answers(order[i]))
            then [(order[i], AlertFor(snapshot[i], now, answers(order[i])))]
            else []
  {
    assert order[..i + 1] == order[..i] + [order[i]];
    assert order[..i + 1][..i] == order[..i];
    TickProgresses(beats, order[..i], order[i], now, answers);
  }

  lemma StillNoneAlerts(beats: Beats, order: seq<Key>, snapshot: seq<Entry>, now: int, answers: Key -> Answer, i: nat)
    requires IsSnapshot(order, snapshot, beats) && i < |snapshot|
    ensures i < |order|
    ensures NoneAlerts(beats, now, answers) ==> !Alerts(snapshot[i], now, answers(order[i]))
  {
  }

  /** When all of a snapshot is dealt with, the result no longer depends on its order. */
  lemma WholeTick(beats: Beats, order: seq<Key>, now: int, answers: Key -> Answer)
    requires Enumerates(order, beats)
    ensures TickProgress(beats, order, now, answers) == TickResult(beats, now, answers)
    ensures AlertsExactly(AlertList(beats, order, now, answers), beats, now, answers)
    ensures EndsOffline(beats, TickResult(beats, now, answers), AlertList(beats, order, now, answers))
  {
    AlertListMembers(beats, order, now, answers);
    forall k | k in beats && Alerts(beats[k], now, answers(k))
      ensures exists a :: (k, a) in AlertList(beats, order, now, answers)
    {
      assert (k, AlertFor(beats[k], now, answers(k))) in AlertList(beats, order, now, answers);
    }
  }

  /** When a send may end so. */
  predicate CanSend(c: Config, s: State, how: Sending) {
    match how
    case Dropped => |s.queue| >= c.capacity
    case Queued => |s.queue| < c.capacity
    case HandedOver => s.queue == [] && s.inHand.None?
  }

  function AfterSend(s: State, u: StatusUpdate, how: Sending): State {
    match how
    case Dropped => s.(dropped := s.dropped + 1)
    case Queued => s.(queue := s.queue + [u])
    case HandedOver => s.(inHand := Some(u))
  }

  function AfterTelemetry(c: Config, s: State, key: Key, now: int, how: Sending): State {
    var hearing := HearingOf(s.beats, key);
    var t := s.(clock := now, beats := Hear(s.beats, key, now),
                log := s.log + [Heard(key, now, hearing, how != Dropped)]);
    if hearing == Refreshed then t else AfterSend(t, StatusUpdate(key.gatewayID, Online, now), how)
  }

  /** In the machine, a worker that an update is handed over to takes it from the buffer at once. */
  lemma HandOver(c: Config, s: State, t: State, u: StatusUpdate, how: Sending) returns (r: State)
    requires Reachable(c, t) && CanSend(c, s, how) && t == Send(c, s, u, how != Dropped)
    ensures Reachable(c, r) && r == AfterSend(s, u, how)
  {
    r := t;
    if how == HandedOver && c.capacity > 0 {
      r := Go(c, t, WorkerTakes);
    }
  }

  /** A telemetry call that nothing interrupts: the clock moves on, the call reads it and takes the lock. */
  lemma TelemetryRuns(c: Config, s: State, key: Key, now: int, how: Sending) returns (t: State)
    requires Reachable(c, s) && s.clock <= now && (c.serial ==> !InFlight(s.calls, key))
    requires HearingOf(s.beats, key) != Refreshed ==> !s.closed && CanSend(c, s, how)
    ensures Reachable(c, t)
    ensures t == AfterTelemetry(c, s, key, now, how)
  {
    hide Reachable;
    var u := Go(c, s, Advance(now));
    u := Go(c, u, CallTelemetry(key));
    u := Go(c, u, CommitTelemetry(Call(key, now), how != Dropped));
    assert s.calls + multiset{Call(key, now)} - multiset{Call(key, now)} == s.calls;
    t := u;
    if HearingOf(s.beats, key) != Refreshed {
      var heard := s.(clock := now, beats := Hear(s.beats, key, now),
                      log := s.log + [Heard(key, now, HearingOf(s.beats, key), how != Dropped)]);
      t := HandOver(c, heard, u, StatusUpdate(key.gatewayID, Online, now), how);
    }
  }

  class Tracker {
    const config: Config
    var beats: map<Key, HeartbeatEntry>
    var dispatchCh: seq<StatusUpdate>
    var inHand: Option<StatusUpdate>
    var dropped: nat
    var closed: bool
    var done: bool

    ghost var machine: State
    ghost var Repr: set<object>

    ghost function View(): Beats
      reads this`beats, beats.Values
    {
      map k | k in beats :: beats[k].Value()
    }

    /** The entries are objects of the tracker's own, one a key. */
    ghost predicate Shape()
      reads this`beats, this`Repr
      ensures Shape() ==> this in Repr
    {
      && this in Repr
      && (forall k :: k in beats ==> beats[k] in Repr)
      && (forall k, k' :: k in beats && k' in beats && k != k' ==> beats[k] != beats[k'])
    }

    function Ch(): Channel
      reads this`dispatchCh, this`inHand, this`dropped
    {
      Channel(dispatchCh, inHand, dropped)
    }

    /** The fields hold what the state of the machine says. */
    ghost predicate Shows(s: State)
      reads this`beats, this`dispatchCh, this`inHand, this`dropped, this`closed, this`done, beats.Values
    {
      && s.beats == View()
      && s.queue == dispatchCh
      && s.inHand == inHand
      && s.dropped == dropped
      && s.closed == closed
      && s.exited == done
    }

    ghost predicate Valid()
      reads this, Repr
      ensures Valid() ==> this in Repr
    {
      && Shape()
      && Shows(machine)
      && Reachable(config, machine)
    }

    constructor (config: Config)
      ensures Valid() && fresh(Repr) && this.config == config
      ensures machine == Init(config)
    {
      this.config := config;
      beats, dispatchCh, inHand, dropped, closed, done := map[], [], None, 0, false, false;
      machine, Repr := Init(config), {this};
      new;
      InitReachable(config);
    }

    /** The non-blocking send; whether the worker already waits at the empty channel is up to the scheduler. */
    method DispatchStatusUpdate(update: StatusUpdate) returns (how: Sending)
      modifies this`dispatchCh, this`inHand, this`dropped
      ensures match how
              case Dropped =>
                |old(dispatchCh)| >= config.capacity && Ch() == old(Ch()).(dropped := old(dropped) + 1)
              case Queued =>
                |old(dispatchCh)| < config.capacity && Ch() == old(Ch()).(queue := old(dispatchCh) + [update])
              case HandedOver =>
                old(inHand).None? && old(dispatchCh) == [] && Ch() == old(Ch()).(inHand := Some(update))
    {
      var waiting: bool := *;
      if dispatchCh == [] && inHand.None? && waiting {
        inHand := Some(update);
        return HandedOver;
      }
      if |dispatchCh| < config.capacity {
        dispatchCh := dispatchCh + [update];
        return Queued;
      }
      dropped := dropped + 1;
      return Dropped;
    }

    /** Creates the entry of an unknown gateway, or refreshes the entry of a known one in place. */
    method Touch(key: Key, now: int) returns (hearing: Hearing)
      requires Shape()
      modifies this`beats, this`Repr, beats.Values
      ensures Shape() && fresh(Repr - old(Repr))
      ensures View() == Hear(old(View()), key, now)
      ensures hearing == HearingOf(old(View()), key)
    {
      if key !in beats {
        var entry := new HeartbeatEntry(key, now);
        beats := beats[key := entry];
        Repr := Repr + {entry};
        hearing := FirstSeen;
      } else {
        var entry := beats[key];
        entry.lastSeen := now;
        hearing := Refreshed;
        if entry.knownStatus == Offline {
          entry.knownStatus := Online;
          hearing := Recovered;
        }
      }
    }

    /** The machine catches up with what HandleTelemetry did to the fields. */
    ghost method FollowTelemetry(key: Key, now: int, how: Sending)
      requires Shape() && Reachable(config, machine)
      requires machine.clock <= now && (config.serial ==> !InFlight(machine.calls, key))
      requires HearingOf(machine.beats, key) != Refreshed ==> !machine.closed && CanSend(config, machine, how)
      requires Shows(AfterTelemetry(config, machine, key, now, how))
      modifies this`machine
      ensures Valid() && machine == AfterTelemetry(config, old(machine), key, now, how)
    {
      hide Shape, Shows;
      machine := TelemetryRuns(config, machine, key, now, how);
    }

    /**
     Registers, recovers or refreshes a gateway; `now` is the clock reading taken before the lock. After `Close`,
     only a refresh is possible.
     */
    method HandleTelemetry(key: Key, now: int) returns (how: Sending)
      requires Valid() && (closed ==> HearingOf(View(), key) == Refreshed)
      requires machine.clock <= now && (config.serial ==> !InFlight(machine.calls, key))
      modifies Repr
      ensures Valid() && fresh(Repr - old(Repr))
      ensures View() == Hear(old(View()), key, now)
      ensures HeardFrom(old(View()), View(), key, now)
      ensures if key in old(View()) && old(View())[key].knownStatus == Online then Ch() == old(Ch())
              else Sends(old(Ch()), Ch(),
                         StatusUpdate(gatewayID := key.gatewayID, status := Online, lastSeenAt := now), how)
      ensures machine == AfterTelemetry(config, old(machine), key, now, how)
    {
      hide View, Reachable, InFlight;
      HearMeans(View(), key, now);
      var hearing := Touch(key, now);
      how := Dropped;
      if hearing != Refreshed {
        how := DispatchStatusUpdate(StatusUpdate(key.gatewayID, Online, now));
      }
      FollowTelemetry(key, now, how);
    }

    /** The machine takes a step that leaves the fields showing its state. */
    ghost method Follow(step: Step)
      requires Shape() && Reachable(config, machine) && Enabled(config, machine, step)
      requires Shows(Apply(config, machine, step))
      modifies this`machine
      ensures Valid() && machine == Apply(config, old(machine), step)
    {
      machine := Go(config, machine, step);
    }

    /** The machine sends an Offline update, and the worker takes it if it was handed over. */
    ghost method FollowDispatch(u: StatusUpdate, how: Sending)
      requires Shape() && Reachable(config, machine) && Enabled(config, machine, Dispatch(how != Dropped))
      requires CanSend(config, machine, how)
      requires u == StatusUpdate(machine.phase.entry.gatewayID, Offline, machine.phase.entry.lastSeen)
      requires Shows(AfterSend(machine, u, how))
      modifies this`machine
      ensures Valid() && old(machine).log <= machine.log && Publishes(machine.log) == Publishes(old(machine).log)
      ensures machine.phase == Dispatched(old(machine).phase.now, old(machine).phase.todo, old(machine).phase.entry)
    {
      hide Shape, Reachable;
      var e := machine.phase.entry;
      var sent := machine.(phase := Dispatched(machine.phase.now, machine.phase.todo, e),
                           log := machine.log + [OfflineSent(e.Id(), e.lastSeen, how != Dropped)]);
      var t := Go(config, machine, Dispatch(how != Dropped));
      PublishesSnoc(machine.log, OfflineSent(e.Id(), e.lastSeen, how != Dropped));
      machine := HandOver(config, sent, t, u, how);
    }

    method HandleDecommission(key: Key)
      requires Valid()
      modifies this`beats, this`machine
      ensures Valid()
      ensures View() == old(View()) - {key}
      ensures machine == old(machine).(beats := View(), log := old(machine).log + [Removed(key)])
    {
      hide Reachable;
      beats := beats - {key};
      Follow(Decommission(key));
    }

    /** Copies the entries, in whatever order the map is ranged over. */
    method CopyEntries() returns (order: seq<Key>, snapshot: seq<Entry>)
      requires Shape()
      ensures IsSnapshot(order, snapshot, View())
    {
      order, snapshot := [], [];
      var rest := beats.Keys;
      while rest != {}
        invariant rest <= beats.Keys
        invariant forall k :: k in order <==> k in beats.Keys && k !in rest
        invariant forall i, j :: 0 <= i < j < |order| ==> order[i] != order[j]
        invariant |snapshot| == |order|
        invariant forall i :: 0 <= i < |order| ==> order[i] in beats && snapshot[i] == beats[order[i]].Value()
        decreases |rest|
      {
        var k :| k in rest;
        order, snapshot := order + [k], snapshot + [beats[k].Value()];
        rest := rest - {k};
      }
    }

    /** The first phase of a Tick, under the read lock. */
    method Snapshot() returns (order: seq<Key>, snapshot: seq<Entry>)
      requires Valid() && machine.phase.Begun?
      modifies this`machine
      ensures Valid() && IsSnapshot(order, snapshot, View())
      ensures machine.phase == Evaluating(old(machine).phase.now, snapshot)
      ensures machine.log == old(machine).log + [SnapshotTaken] && Publishes(machine.log) == Publishes(old(machine).log)
    {
      PublishesSnoc(machine.log, SnapshotTaken);
      order, snapshot := CopyEntries();
      Follow(TakeSnapshot(order));
    }

    /** Sets the tracked entry of a key Offline; a key that is gone stays gone. */
    method MarkEntry(key: Key)
      requires Shape()
      modifies beats.Values
      ensures Shape()
      ensures View() == MarkOffline(old(View()), key)
    {
      if key in beats {
        var tracked := beats[key];
        tracked.knownStatus := Offline;
      }
    }

    /** Offers the Offline update of an alerted entry to the channel. */
    method SendOffline(entry: Entry)
      requires Valid() && !closed && machine.phase.Announced? && machine.phase.entry == entry
      modifies this`machine, this`dispatchCh, this`inHand, this`dropped
      ensures Valid() && machine.phase == Dispatched(old(machine).phase.now, old(machine).phase.todo, entry)
      ensures old(machine).log <= machine.log && Publishes(machine.log) == Publishes(old(machine).log)
      ensures Offered(config.capacity, old(Ch()), Ch(), [StatusUpdate(entry.gatewayID, Offline, entry.lastSeen)])
    {
      hide Shape, View, Reachable;
      var update := StatusUpdate(entry.gatewayID, Offline, entry.lastSeen);
      var how := DispatchStatusUpdate(update);
      FollowDispatch(update, how);
      assert how == HandedOver ==> HandedAt(config.capacity, old(Ch()), Ch(), [update], 0);
    }

    /** The last phase for an alerted entry: the tracked status is set, whatever happened since the snapshot. */
    method MarkAlerted(entry: Entry)
      requires Valid() && machine.phase.Dispatched? && machine.phase.entry == entry
      modifies this`machine, beats.Values
      ensures Valid() && View() == MarkOffline(old(View()), entry.Id())
      ensures MarkedOffline(old(View()), View(), entry.Id())
      ensures machine.phase == Evaluating(old(machine).phase.now, old(machine).phase.todo)
      ensures old(machine).log <= machine.log && Publishes(machine.log) == Publishes(old(machine).log)
    {
      hide View, Reachable, Publishes, MarkOffline;
      MarkMeans(View(), entry.Id());
      PublishesSnoc(machine.log, Marked(entry.Id()));
      MarkEntry(entry.Id());
      Follow(Mark);
    }

    /** The gates between an entry and its alert: status, deadline, lifecycle, publish. */
    method PassGates(now: int, entry: Entry, rest: seq<Entry>, a: Answer) returns (alerted: bool)
      requires Valid() && machine.phase == Evaluating(now, [entry] + rest) && IsInt64(a.timeoutMs)
      modifies this`machine
      ensures Valid() && alerted == Alerts(entry, now, a)
      ensures alerted <==> && entry.knownStatus == Online
                           && entry.lastSeen + Wrap64(a.timeoutMs * 1_000_000) <= now
                           && a.lifecycle != Some(Paused) && a.published
      ensures machine.phase == if alerted then Announced(now, rest, entry) else Evaluating(now, rest)
      ensures old(machine).log <= machine.log
      ensures Publishes(machine.log) == Publishes(old(machine).log) +
              if alerted then [(entry.Id(), AlertFor(entry, now, a))] else []
    {
      PublishesSnoc(machine.log, Published(entry.Id(), AlertFor(entry, now, a)));
      assert machine.phase.todo[0] == entry && machine.phase.todo[1..] == rest;
      Follow(Evaluate(a));
      if entry.knownStatus == Offline {
        return false;
      }
      if now < Deadline(entry.lastSeen, a.timeoutMs) {
        return false;
      }
      if a.lifecycle.Some? && a.lifecycle.value == Paused {
        return false;
      }
      return a.published;
    }

    /** The body of the Tick's loop for one entry of its snapshot. */
    method EvaluateEntry(now: int, entry: Entry, rest: seq<Entry>, a: Answer) returns (alerted: bool)
      requires Valid() && machine.phase == Evaluating(now, [entry] + rest) && IsInt64(a.timeoutMs)
      requires closed ==> !Alerts(entry, now, a)
      modifies this`machine, this`dispatchCh, this`inHand, this`dropped, beats.Values
      ensures Valid() && machine.phase == Evaluating(now, rest)
      ensures alerted == Alerts(entry, now, a)
      ensures View() == if alerted then MarkOffline(old(View()), entry.Id()) else old(View())
      ensures old(machine).log <= machine.log
      ensures Publishes(machine.log) == Publishes(old(machine).log) +
              if alerted then [(entry.Id(), AlertFor(entry, now, a))] else []
      ensures Offered(config.capacity, old(Ch()), Ch(),
                      if alerted then [StatusUpdate(entry.gatewayID, Offline, entry.lastSeen)] else [])
    {
      hide View, Shape, MarkOffline, Publishes, Reachable;
      alerted := PassGates(now, entry, rest, a);
      if alerted {
        SendOffline(entry);
        MarkAlerted(entry);
      }
    }

    /** One turn of the Tick's loop; `before` is the map the snapshot was taken of. */
    method EvaluateNext(now: int, ghost before: Beats, order: seq<Key>, snapshot: seq<Entry>,
                        answers: Key -> Answer, i: nat)
      returns (more: seq<(Key, Alert)>)
      requires Valid() && i < |snapshot| && machine.phase == Evaluating(now, snapshot[i..])
      requires closed ==> NoneAlerts(before, now, answers)
      requires IsSnapshot(order, snapshot, before) && before[order[i]].Id() == order[i]
      requires View() == TickProgress(before, order[..i], now, answers)
      requires IsInt64(answers(order[i]).timeoutMs)
      modifies this`machine, this`dispatchCh, this`inHand, this`dropped, beats.Values
      ensures Valid() && machine.phase == Evaluating(now, snapshot[i + 1..]) && old(machine).log <= machine.log
      ensures View() == TickProgress(before, order[..i + 1], now, answers)
      ensures AlertList(before, order[..i + 1], now, answers) == AlertList(before, order[..i], now, answers) + more
      ensures Publishes(machine.log) == Publishes(old(machine).log) + more
      ensures Offered(config.capacity, old(Ch()), Ch(), OfflineUpdates(more))
    {
      hide View, Reachable, Publishes, Offered, TickProgress, AlertList, IsSnapshot, MarkOffline, NoneAlerts;
      StillNoneAlerts(before, order, snapshot, now, answers, i);
      TickMovesOn(before, order, snapshot, now, answers, i);
      var alerted := EvaluateEntry(now, snapshot[i], snapshot[i + 1..], answers(order[i]));
      more := if alerted then [(order[i], AlertFor(snapshot[i], now, answers(order[i])))] else [];
      assert OfflineUpdates(more) ==
             if alerted then [StatusUpdate(snapshot[i].gatewayID, Offline, snapshot[i].lastSeen)] else [];
    }

    /** The Tick's loop over its snapshot. */
    method EvaluateAll(now: int, order: seq<Key>, snapshot: seq<Entry>, answers: Key -> Answer)
      returns (alerts: seq<(Key, Alert)>)
      requires Valid() && machine.phase == Evaluating(now, snapshot)
      requires closed ==> NoneAlerts(View(), now, answers)
      requires IsSnapshot(order, snapshot, View())
      requires forall k :: IsInt64(answers(k).timeoutMs)
      requires forall k :: k in View() ==> View()[k].Id() == k
      modifies this`machine, this`dispatchCh, this`inHand, this`dropped, beats.Values
      ensures Valid() && machine.phase == Evaluating(now, []) && old(machine).log <= machine.log
      ensures View() == TickProgress(old(View()), order, now, answers)
      ensures alerts == AlertList(old(View()), order, now, answers)
      ensures AlertsExactly(alerts, old(View()), now, answers) && EndsOffline(old(View()), View(), alerts)
      ensures Publishes(machine.log) == Publishes(old(machine).log) + alerts
      ensures Offered(config.capacity, old(Ch()), Ch(), OfflineUpdates(alerts))
    {
      hide View, Reachable, TickProgress, AlertList, Offered, OfflineUpdates, Publishes, AlertsExactly, EndsOffline;
      alerts := [];
      ghost var before, log := View(), machine.log;
      NothingEvaluated(config.capacity, before, Ch(), order, now, answers);
      for i := 0 to |snapshot|
        invariant Valid() && log <= machine.log
        invariant machine.phase == Evaluating(now, snapshot[i..])
        invariant View() == TickProgress(before, order[..i], now, answers)
        invariant alerts == AlertList(before, order[..i], now, answers)
        invariant Publishes(machine.log) == Publishes(log) + alerts
        invariant Offered(config.capacity, old(Ch()), Ch(), OfflineUpdates(alerts))
      {
        ghost var ch := Ch();
        var more := EvaluateNext(now, before, order, snapshot, answers, i);
        OfferedThen(config.capacity, old(Ch()), ch, OfflineUpdates(alerts), Ch(), OfflineUpdates(more));
        OfflineUpdatesJoin(alerts, more);
        alerts := alerts + more;
      }
      assert order[..|snapshot|] == order;
      WholeTick(before, order, now, answers);
    }

    lemma EntriesCarryTheirKeys()
      requires Valid()
      ensures forall k :: k in View() ==> View()[k].Id() == k
    {
      forall k | k in View() ensures View()[k].Id() == k {
        HeartbeatAlerts.TrackedKeys(config, machine, k);
      }
    }

    /** The Tick is over. */
    ghost method Finish()
      requires Valid() && machine.phase.Evaluating? && machine.phase.todo == []
      modifies this`machine
      ensures Valid() && machine == old(machine).(phase := Idle)
    {
      Follow(EndTick);
    }

    /** A Tick past its grace check. */
    method TickBody(now: int, answers: Key -> Answer) returns (alerts: seq<(Key, Alert)>)
      requires Valid() && machine.phase == Begun(now) && (closed ==> NoneAlerts(View(), now, answers))
      requires forall k :: IsInt64(answers(k).timeoutMs)
      modifies this`machine, this`dispatchCh, this`inHand, this`dropped, beats.Values
      ensures Valid() && machine.phase.Idle? && old(machine).log <= machine.log
      ensures View() == TickResult(old(View()), now, answers)
      ensures AlertsExactly(alerts, old(View()), now, answers)
      ensures EndsOffline(old(View()), View(), alerts)
      ensures Publishes(machine.log) == Publishes(old(machine).log) + alerts
      ensures Offered(config.capacity, old(Ch()), Ch(), OfflineUpdates(alerts))
    {
      hide TickProgress, TickResult, AlertList, AlertsExactly, EndsOffline, Publishes, View;
      ghost var before := View();
      var order, snapshot := Snapshot();
      EntriesCarryTheirKeys();
      alerts := EvaluateAll(now, order, snapshot, answers);
      WholeTick(before, order, now, answers);
      Finish();
    }

    /**
     One Tick that nothing interleaves with; `started` and `now` are its two clock readings. `alerts` lists what
     was published, in order. A Tick asks about each key once, so the answers are given by key; the order of the map
     is arbitrary. After `Close` nothing may be left to send.
     */
    method Tick(started: int, now: int, answers: Key -> Answer) returns (alerts: seq<(Key, Alert)>)
      requires Valid() && machine.phase.Idle?
      requires closed ==> started < config.startTime + config.gracePeriod || NoneAlerts(View(), now, answers)
      requires machine.clock <= started <= now
      requires forall k :: IsInt64(answers(k).timeoutMs)
      modifies this`machine, this`dispatchCh, this`inHand, this`dropped, beats.Values
      ensures Valid() && machine.phase.Idle? && old(machine).log <= machine.log
      ensures started < config.startTime + config.gracePeriod ==> alerts == [] && View() == old(View())
      ensures config.startTime + config.gracePeriod <= started ==>
                && View() == TickResult(old(View()), now, answers)
                && AlertsExactly(alerts, old(View()), now, answers)
                && EndsOffline(old(View()), View(), alerts)
      ensures Publishes(machine.log[|old(machine).log|..]) == alerts
      ensures Offered(config.capacity, old(Ch()), Ch(), OfflineUpdates(alerts))
    {
      alerts := [];
      if started < config.startTime + config.gracePeriod {
        return;
      }
      Follow(Advance(now));
      Follow(BeginTick);
      alerts := TickBody(now, answers);
      PublishedSince(old(machine).log, machine.log, alerts);
    }

    /** The worker receives the next queued update. */
    method TakeJob()
      requires Valid() && inHand.None? && dispatchCh != []
      modifies this`machine, this`dispatchCh, this`inHand
      ensures Valid() && inHand == Some(old(dispatchCh)[0]) && dispatchCh == old(dispatchCh)[1..]
      ensures machine.delivered == old(machine).delivered && machine.log == old(machine).log
    {
      inHand, dispatchCh := Some(dispatchCh[0]), dispatchCh[1..];
      Follow(WorkerTakes);
    }

    /** The worker hands its update to the Management API, which accepts it or not. */
    method Deliver(ok: bool)
      requires Valid() && inHand.Some?
      modifies this`machine, this`inHand
      ensures Valid() && inHand == None
      ensures machine.delivered == old(machine).delivered + [Delivery(old(inHand).value, ok)]
      ensures machine.log == old(machine).log
    {
      inHand := None;
      Follow(WorkerFinishes(ok));
    }

    /** One turn of the worker's loop. */
    method ServeNext()
      requires Valid() && inHand.None? && dispatchCh != []
      modifies this`machine, this`dispatchCh, this`inHand
      ensures Valid() && inHand == None && dispatchCh == old(dispatchCh)[1..]
      ensures machine.log == old(machine).log
    {
      TakeJob();
      var ok: bool := *;
      Deliver(ok);
    }

    /** The worker's loop once the channel is closed: it delivers what is left, in order, and exits. */
    method DrainAndExit()
      requires Valid() && closed && !done
      modifies this`machine, this`dispatchCh, this`inHand, this`done
      ensures Valid() && done && dispatchCh == [] && inHand == None
      ensures machine.log == old(machine).log
    {
      hide View, Shape;
      if inHand.Some? {
        var ok: bool := *;
        Deliver(ok);
      }
      while dispatchCh != []
        invariant Valid() && inHand.None?
        invariant machine.log == old(machine).log
        decreases |dispatchCh|
      {
        ServeNext();
      }
      done := true;
      Follow(WorkerExits);
    }

    /** Closes the channel and waits for the worker, which leaves nothing behind; only the first call has an effect. */
    method Close()
      requires Valid() && (closed ==> done)
      modifies this`machine, this`dispatchCh, this`inHand, this`closed, this`done
      ensures Valid() && closed && done
      ensures old(closed) ==> machine == old(machine)
      ensures machine.log == old(machine).log
      ensures HeartbeatStatus.Updates(machine.delivered) == HeartbeatStatus.Kept(HeartbeatStatus.Attempts(machine.log))
    {
      HeartbeatStatus.UpdatesConserved(config, machine);
      if !closed {
        closed := true;
        Follow(Heartbeat.Step.Close);
        DrainAndExit();
        HeartbeatStatus.UpdatesConserved(config, machine);
      }
    }
  }
}
