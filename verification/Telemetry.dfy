/**
 The batching telemetry consumer as a state machine: the subscription callback, the bounded channel, the flush
 loop and cancellation, interleaved step by step. A flush is not atomic: the write and the disposal of each
 message are steps of their own.
 */
module Telemetry {
  import opened Common

  // ------------------------------------------------------------------------------------------------
  // Messages
  // ------------------------------------------------------------------------------------------------

  datatype Envelope = Envelope(gatewayID: string, sensorID: string, sensorType: string, timestamp: int,
                               keyVersion: int, encryptedData: string, iv: string, authTag: string)

  datatype Row = Row(time: int, tenantID: string, gatewayID: string, sensorID: string, sensorType: string,
                     encryptedData: string, iv: string, authTag: string, keyVersion: int)

  /** A message as it arrives: its subject, what its body decodes to, and whether the handler will take it. */
  datatype Raw = Raw(subject: string, envelope: Option<Envelope>, handled: bool)

  datatype Failure = Permanent | Transient

  datatype Content = Good(row: Row) | Bad(failure: Failure)

  /** A processed message; `id` is its position among all messages received. */
  datatype Pending = Pending(id: nat, content: Content)

  function BuildRow(tenantID: string, e: Envelope): Row {
    Row(e.timestamp, tenantID, e.gatewayID, e.sensorID, e.sensorType, e.encryptedData, e.iv, e.authTag, e.keyVersion)
  }

  /** The subject has the four tokens of a telemetry subject. */
  predicate GoodSubject(subject: string) {
    |Split(subject, '.')| == 4
  }

  /** Parsing, decoding and the heartbeat handler, in this order; only the handler's failure is worth a retry. */
  function Process(raw: Raw): Content {
    if !GoodSubject(raw.subject) then Bad(Permanent)
    else if raw.envelope.None? then Bad(Permanent)
    else if !raw.handled then Bad(Transient)
    else Good(BuildRow(Split(raw.subject, '.')[2], raw.envelope.value))
  }

  // What processing comes to, read off the message.

  /** The subject has three separators, and the body decodes. */
  ghost predicate WellFormed(raw: Raw) {
    multiset(raw.subject)['.'] == 3 && raw.envelope.Some?
  }

  /** The token stands between the second and the third separator of a subject with three. */
  ghost predicate ThirdToken(subject: string, token: string) {
    exists a, b, d :: '.' !in a && '.' !in b && '.' !in token && '.' !in d
                      && subject == a + "." + b + "." + token + "." + d
  }

  /** Every column of the row is what the message says. */
  ghost predicate RowHolds(row: Row, raw: Raw) {
    && raw.envelope.Some?
    && ThirdToken(raw.subject, row.tenantID)
    && row.time == raw.envelope.value.timestamp
    && row.gatewayID == raw.envelope.value.gatewayID
    && row.sensorID == raw.envelope.value.sensorID
    && row.sensorType == raw.envelope.value.sensorType
    && row.encryptedData == raw.envelope.value.encryptedData
    && row.iv == raw.envelope.value.iv
    && row.authTag == raw.envelope.value.authTag
    && row.keyVersion == raw.envelope.value.keyVersion
  }

  lemma FourTokensJoin(subject: string)
    requires |Split(subject, '.')| == 4
    ensures ThirdToken(subject, Split(subject, '.')[2])
  {
    hide Split;
    SplitJoins(subject, '.');
    var p := Split(subject, '.');
    JoinFour(p, '.');
    assert subject == p[0] + "." + p[1] + "." + p[2] + "." + p[3];
  }

  /** A well-formed message the handler takes becomes a row of its own fields; the others fail, each in its way. */
  lemma ProcessMeans(raw: Raw)
    ensures WellFormed(raw) && raw.handled <==> Process(raw).Good?
    ensures WellFormed(raw) && raw.handled ==> RowHolds(Process(raw).row, raw)
    ensures !WellFormed(raw) <==> Process(raw) == Bad(Permanent)
  {
    hide Split;
    SplitCounts(raw.subject, '.');
    if |Split(raw.subject, '.')| == 4 { FourTokensJoin(raw.subject); }
  }

  datatype How = Acked | Naked | Termed

  /** What a flush does to a message: any processing failure terminates it. */
  function FlushVerdict(content: Content, writeOk: bool): How {
    if content.Bad? then Termed else if writeOk then Acked else Naked
  }

  /** What the callback does to a message it can no longer queue: only permanent failures terminate it. */
  function CallbackVerdict(content: Content): How {
    if content == Bad(Permanent) then Termed else Naked
  }

  /** `batch` is the flush that disposed of the message, or None for the callback. */
  datatype Disposal = Disposal(id: nat, how: How, batch: Option<nat>)

  datatype Batch = Batch(msgs: seq<Pending>, ok: bool)

  function Rows(msgs: seq<Pending>): seq<Row> {
    if msgs == [] then []
    else
      var m := msgs[|msgs| - 1];
      Rows(msgs[..|msgs| - 1]) + if m.content.Good? then [m.content.row] else []
  }

  // ------------------------------------------------------------------------------------------------
  // The machine
  // ------------------------------------------------------------------------------------------------

  /** `handlerNeverFails` describes the composition with the heartbeat tracker. */
  datatype Config = Config(batchSize: nat, handlerNeverFails: bool)

  datatype Loop =
    | Waiting
    | Writing(stopping: bool)
    | Disposing(ok: bool, next: nat, batch: nat, stopping: bool)
    | Stopped

  datatype State = State(
    raws: seq<Raw>,
    callback: Option<Pending>,
    channel: seq<Pending>,
    buf: seq<Pending>,
    loop: Loop,
    cancelled: bool,
    enqueued: seq<Pending>,
    batches: seq<Batch>,
    disposals: seq<Disposal>,
    written: nat,
    writeErrors: nat,
    parseErrors: nat,
    refused: nat)

  datatype Step =
    | Receive(raw: Raw)
    | Enqueue
    | HandOver
    | Cancel
    | Refuse
    | Take
    | TimerFlush
    | FinalFlush
    | Write(ok: bool)
    | DisposeNext
    | EndFlush

  function Init(): State {
    State([], None, [], [], Waiting, false, [], [], [], 0, 0, 0, 0)
  }

  function Capacity(c: Config): nat { 2 * c.batchSize }

  predicate Enabled(c: Config, s: State, step: Step) {
    match step
    case Receive(raw) => s.callback.None? && (c.handlerNeverFails ==> raw.handled)
    case Enqueue => s.callback.Some? && |s.channel| < Capacity(c)
    // a channel operation meets a receiver that is already waiting
    case HandOver => s.callback.Some? && s.channel == [] && s.loop.Waiting?
    case Cancel => !s.cancelled
    case Refuse => s.callback.Some? && s.cancelled
    case Take => s.loop.Waiting? && s.channel != []
    case TimerFlush => s.loop.Waiting? && s.buf != []
    case FinalFlush => s.loop.Waiting? && s.cancelled
    // without rows there is no write to fail
    case Write(ok) => s.loop.Writing? && (Rows(s.buf) == [] ==> ok)
    case DisposeNext => s.loop.Disposing? && s.loop.next < |s.buf|
    case EndFlush => s.loop.Disposing? && s.loop.next >= |s.buf|
  }

  /** The buffer after a message was appended, and whether that triggers a flush. */
  function Buffered(c: Config, s: State, m: Pending): State {
    var buf := s.buf + [m];
    s.(buf := buf, loop := if |buf| >= c.batchSize then Writing(false) else Waiting)
  }

  function Apply(c: Config, s: State, step: Step): State
    requires Enabled(c, s, step)
  {
    match step
    case Receive(raw) => s.(callback := Some(Pending(|s.raws|, Process(raw))), raws := s.raws + [raw])
    case Enqueue =>
      s.(channel := s.channel + [s.callback.value], enqueued := s.enqueued + [s.callback.value], callback := None)
    case HandOver =>
      Buffered(c, s.(enqueued := s.enqueued + [s.callback.value], callback := None), s.callback.value)
    case Cancel => s.(cancelled := true)
    case Refuse =>
      s.(disposals := s.disposals + [Disposal(s.callback.value.id, CallbackVerdict(s.callback.value.content), None)],
         callback := None, refused := s.refused + 1)
    case Take => Buffered(c, s.(channel := s.channel[1..]), s.channel[0])
    case TimerFlush => s.(loop := Writing(false))
    case FinalFlush => s.(loop := if s.buf == [] then Stopped else Writing(true))
    case Write(ok) =>
      s.(loop := Disposing(ok, 0, |s.batches|, s.loop.stopping), batches := s.batches + [Batch(s.buf, ok)])
    case DisposeNext =>
      var m, ok := s.buf[s.loop.next], s.loop.ok;
      var how := FlushVerdict(m.content, ok);
      s.(loop := s.loop.(next := s.loop.next + 1),
         disposals := s.disposals + [Disposal(m.id, how, Some(s.loop.batch))],
         written := if how == Acked then s.written + 1 else s.written,
         writeErrors := if how == Naked then s.writeErrors + 1 else s.writeErrors,
         parseErrors := if how == Termed then s.parseErrors + 1 else s.parseErrors)
    case EndFlush => s.(buf := [], loop := if s.loop.stopping then Stopped else Waiting)
  }

  ghost function Exec(c: Config, steps: seq<Step>): Option<State> {
    if steps == [] then Some(Init())
    else
      match Exec(c, steps[..|steps| - 1])
      case None => None
      case Some(s) =>
        var last := steps[|steps| - 1];
        if Enabled(c, s, last) then Some(Apply(c, s, last)) else None
  }

  /** Some interleaving of callback, flush loop and cancellation ends in `s`. */
  ghost predicate Reachable(c: Config, s: State) {
    exists steps :: Exec(c, steps) == Some(s)
  }

  lemma InitReachable(c: Config)
    ensures Reachable(c, Init())
  {
    assert Exec(c, []) == Some(Init());
  }

  lemma Go(c: Config, s: State, step: Step) returns (t: State)
    requires Reachable(c, s) && Enabled(c, s, step)
    ensures t == Apply(c, s, step) && Reachable(c, t)
  {
    var steps :| Exec(c, steps) == Some(s);
    assert (steps + [step])[..|steps|] == steps;
    t := Apply(c, s, step);
    assert Exec(c, steps + [step]) == Some(t);
  }
}
