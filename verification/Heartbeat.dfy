/**
 The heartbeat tracker as a state machine.

 Every lock-protected section, every call that leaves the process and every channel operation is one
 step, so that telemetry, decommissions and the status worker may run between any two phases of a Tick.
 The answers of the outside world (timeouts, lifecycle states, publish results) are part of the step labels.
 Ticks do not overlap: a new Tick begins only in phase `Idle`.
 */
module Heartbeat {
  import opened Common

  datatype Status = Offline | Online

  datatype Key = Key(tenantID: string, gatewayID: string)

  datatype Entry = Entry(tenantID: string, gatewayID: string, lastSeen: int, knownStatus: Status) {
    function Id(): Key { Key(tenantID, gatewayID) }
  }

  /** The payload of the update-status call: it names the gateway, but not the tenant. */
  datatype StatusUpdate = StatusUpdate(gatewayID: string, status: Status, lastSeenAt: int)

  datatype Alert = Alert(gatewayID: string, lastSeen: int, timeoutMs: int, timestamp: int)

  datatype Lifecycle = ActiveOnline | ActiveOffline | Paused | Provisioning

  /** What the outside world answers about one timeout candidate; `lifecycle` is None when the query fails. */
  datatype Answer = Answer(timeoutMs: int, lifecycle: Option<Lifecycle>, published: bool)

  /** `serial` says that no telemetry call starts while another one for the same key is in flight. */
  datatype Config = Config(startTime: int, gracePeriod: int, capacity: nat, serial: bool)

  const NANOS_PER_MS: int := 1_000_000

  type Beats = map<Key, Entry>

  // ------------------------------------------------------------------------------------------------
  // The sequential meaning of the critical sections
  // ------------------------------------------------------------------------------------------------

  datatype Hearing = FirstSeen | Recovered | Refreshed

  function HearingOf(beats: Beats, key: Key): Hearing {
    if key !in beats then FirstSeen
    else if beats[key].knownStatus == Offline then Recovered
    else Refreshed
  }

  function Hear(beats: Beats, key: Key, now: int): Beats {
    if key in beats then beats[key := beats[key].(lastSeen := now, knownStatus := Online)]
    else beats[key := Entry(key.tenantID, key.gatewayID, now, Online)]
  }

  function MarkOffline(beats: Beats, key: Key): Beats {
    if key in beats then beats[key := beats[key].(knownStatus := Offline)] else beats
  }

  /** The deadline of an entry; the product of the timeout and a millisecond is a 64-bit one. */
  function Deadline(lastSeen: int, timeoutMs: int): int {
    lastSeen + Wrap64(timeoutMs * NANOS_PER_MS)
  }

  /** The four gates an entry passes before its alert is out. */
  predicate Alerts(e: Entry, now: int, a: Answer) {
    && e.knownStatus == Online
    && Deadline(e.lastSeen, a.timeoutMs) <= now
    && a.lifecycle != Some(Paused)
    && a.published
  }

  // ------------------------------------------------------------------------------------------------
  // States, history and steps
  // ------------------------------------------------------------------------------------------------

  /** Where the (only) Tick is; `todo` holds the part of the snapshot that is still to be evaluated. */
  datatype Phase =
    | Idle
    | Begun(now: int)
    | Evaluating(now: int, todo: seq<Entry>)
    | Announced(now: int, todo: seq<Entry>, entry: Entry)
    | Dispatched(now: int, todo: seq<Entry>, entry: Entry)

  datatype Call = Call(key: Key, now: int)

  datatype Event =
    | Heard(key: Key, at: int, hearing: Hearing, queued: bool)
    | Removed(key: Key)
    | SnapshotTaken
    | Published(key: Key, alert: Alert)
    | OfflineSent(key: Key, lastSeen: int, queued: bool)
    | Marked(key: Key)

  datatype Delivery = Delivery(update: StatusUpdate, ok: bool)

  datatype State = State(
    clock: int,
    beats: Beats,
    calls: multiset<Call>,
    phase: Phase,
    queue: seq<StatusUpdate>,
    inHand: Option<StatusUpdate>,
    delivered: seq<Delivery>,
    dropped: nat,
    closed: bool,
    exited: bool,
    log: seq<Event>)

  datatype Step =
    | Advance(to: int)
    | CallTelemetry(key: Key)
    | CommitTelemetry(call: Call, queued: bool)
    | Decommission(key: Key)
    | BeginTick
    | TakeSnapshot(order: seq<Key>)
    | Evaluate(answer: Answer)
    | Dispatch(queued: bool)
    | Mark
    | EndTick
    | WorkerTakes
    | WorkerFinishes(ok: bool)
    | Close
    | WorkerExits

  function Init(c: Config): State {
    State(c.startTime, map[], multiset{}, Idle, [], None, [], 0, false, false, [])
  }

  /** `order` lists every tracked key exactly once: one of the orders in which a Go map may be ranged over. */
  ghost predicate Enumerates(order: seq<Key>, beats: Beats) {
    && (forall i :: 0 <= i < |order| ==> order[i] in beats)
    && (forall i, j :: 0 <= i < j < |order| ==> order[i] != order[j])
    && (forall k :: k in beats ==> k in order)
  }

  function Copies(order: seq<Key>, beats: Beats): seq<Entry>
    requires forall i :: 0 <= i < |order| ==> order[i] in beats
  {
    seq(|order|, i requires 0 <= i < |order| => beats[order[i]])
  }

  /** A non-blocking send: it succeeds when the buffer has room (an unbuffered channel needs an idle
      worker) and is dropped only when the buffer is full. */
  predicate SendOutcome(c: Config, s: State, queued: bool) {
    if queued then |s.queue| < c.capacity || (c.capacity == 0 && s.inHand.None?)
    else |s.queue| >= c.capacity
  }

  function Send(c: Config, s: State, u: StatusUpdate, queued: bool): State {
    if !queued then s.(dropped := s.dropped + 1)
    else if c.capacity == 0 then s.(inHand := Some(u))
    else s.(queue := s.queue + [u])
  }

  /** A telemetry call for the key has read the clock and not taken the lock yet. */
  ghost predicate InFlight(calls: multiset<Call>, key: Key) {
    exists now :: Call(key, now) in calls
  }

  /** When a step may happen. A closed channel forbids every step that might send on it. */
  ghost predicate Enabled(c: Config, s: State, step: Step) {
    match step
    case Advance(to) => s.clock <= to
    case CallTelemetry(key) => c.serial ==> !InFlight(s.calls, key)
    case CommitTelemetry(call, queued) =>
      && call in s.calls
      && (HearingOf(s.beats, call.key) != Refreshed ==> !s.closed && SendOutcome(c, s, queued))
    case Decommission(key) => true
    case BeginTick => s.phase.Idle? && c.startTime + c.gracePeriod <= s.clock
    case TakeSnapshot(order) => s.phase.Begun? && Enumerates(order, s.beats)
    case Evaluate(answer) => s.phase.Evaluating? && s.phase.todo != [] && IsInt64(answer.timeoutMs)
    case Dispatch(queued) => s.phase.Announced? && !s.closed && SendOutcome(c, s, queued)
    case Mark => s.phase.Dispatched?
    case EndTick => s.phase.Evaluating? && s.phase.todo == []
    case WorkerTakes => s.inHand.None? && s.queue != []
    case WorkerFinishes(ok) => s.inHand.Some?
    case Close => !s.closed
    case WorkerExits => s.closed && s.queue == [] && s.inHand.None?
  }

  /** The state after an enabled step. */
  ghost function Apply(c: Config, s: State, step: Step): State
    requires Enabled(c, s, step)
  {
    match step
    case Advance(to) => s.(clock := to)
    case CallTelemetry(key) => s.(calls := s.calls + multiset{Call(key, s.clock)})
    case CommitTelemetry(call, queued) =>
      var hearing := HearingOf(s.beats, call.key);
      var t := s.(beats := Hear(s.beats, call.key, call.now),
                  calls := s.calls - multiset{call},
                  log := s.log + [Heard(call.key, call.now, hearing, queued)]);
      if hearing == Refreshed then t
      else Send(c, t, StatusUpdate(call.key.gatewayID, Online, call.now), queued)
    case Decommission(key) =>
      s.(beats := s.beats - {key}, log := s.log + [Removed(key)])
    case BeginTick => s.(phase := Begun(s.clock))
    case TakeSnapshot(order) =>
      s.(phase := Evaluating(s.phase.now, Copies(order, s.beats)), log := s.log + [SnapshotTaken])
    case Evaluate(a) =>
      var e, rest := s.phase.todo[0], s.phase.todo[1..];
      if Alerts(e, s.phase.now, a) then
        s.(phase := Announced(s.phase.now, rest, e),
           log := s.log + [Published(e.Id(), Alert(e.gatewayID, e.lastSeen, a.timeoutMs, s.phase.now))])
      else
        s.(phase := Evaluating(s.phase.now, rest))
    case Dispatch(queued) =>
      var e := s.phase.entry;
      Send(c, s.(phase := Dispatched(s.phase.now, s.phase.todo, e),
                 log := s.log + [OfflineSent(e.Id(), e.lastSeen, queued)]),
           StatusUpdate(e.gatewayID, Offline, e.lastSeen), queued)
    case Mark =>
      s.(beats := MarkOffline(s.beats, s.phase.entry.Id()),
         phase := Evaluating(s.phase.now, s.phase.todo),
         log := s.log + [Marked(s.phase.entry.Id())])
    case EndTick => s.(phase := Idle)
    case WorkerTakes => s.(inHand := Some(s.queue[0]), queue := s.queue[1..])
    case WorkerFinishes(ok) => s.(inHand := None, delivered := s.delivered + [Delivery(s.inHand.value, ok)])
    case Close => s.(closed := true)
    case WorkerExits => s.(exited := true)
  }

  /** The state a run of steps leads to, or None if one of the steps is not enabled where it stands. */
  ghost function Exec(c: Config, s: State, steps: seq<Step>): Option<State>
    decreases |steps|
  {
    if steps == [] then Some(s)
    else
      match Exec(c, s, steps[..|steps| - 1])
      case None => None
      case Some(t) =>
        var last := steps[|steps| - 1];
        if Enabled(c, t, last) then Some(Apply(c, t, last)) else None
  }

  /** Some interleaving starting from a fresh tracker ends in `s`. */
  ghost predicate Reachable(c: Config, s: State) {
    exists steps :: Exec(c, Init(c), steps) == Some(s)
  }

  lemma ExecSnoc(c: Config, s: State, steps: seq<Step>, t: State, step: Step)
    requires Exec(c, s, steps) == Some(t)
    requires Enabled(c, t, step)
    ensures Exec(c, s, steps + [step]) == Some(Apply(c, t, step))
  {
    assert (steps + [step])[..|steps|] == steps;
  }

  lemma InitReachable(c: Config)
    ensures Reachable(c, Init(c))
  {
    assert Exec(c, Init(c), []) == Some(Init(c));
  }

  /** One more step of a run. */
  lemma Go(c: Config, s: State, step: Step) returns (t: State)
    requires Reachable(c, s) && Enabled(c, s, step)
    ensures t == Apply(c, s, step) && Reachable(c, t)
  {
    var steps :| Exec(c, Init(c), steps) == Some(s);
    ExecSnoc(c, Init(c), steps, s, step);
    t := Apply(c, s, step);
  }
}
