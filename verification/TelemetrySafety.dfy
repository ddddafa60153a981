/**
 At-least-once delivery over every interleaving: no message is lost or disposed of twice, what is acknowledged
 was written, and what is written does not depend on the schedule.
 */
module TelemetrySafety {
  import opened Common
  import opened Telemetry

  // ------------------------------------------------------------------------------------------------
  // The line of messages that are not disposed of
  // ------------------------------------------------------------------------------------------------

  function CallbackSeq(s: State): seq<Pending> {
    if s.callback.Some? then [s.callback.value] else []
  }

  /** The part of the buffer that is not disposed of yet. */
  function Live(s: State): seq<Pending> {
    if s.loop.Disposing? then s.buf[Min(s.loop.next, |s.buf|)..] else s.buf
  }

  /** Buffer, channel and callback in one line, oldest message first. */
  function Line(s: State): seq<Pending> {
    Live(s) + s.channel + CallbackSeq(s)
  }

  function Ids(msgs: seq<Pending>): seq<nat> {
    seq(|msgs|, i requires 0 <= i < |msgs| => msgs[i].id)
  }

  function DisposedIds(ds: seq<Disposal>): seq<nat> {
    seq(|ds|, i requires 0 <= i < |ds| => ds[i].id)
  }

  function FirstNats(n: nat): seq<nat> {
    seq(n, i requires 0 <= i => i)
  }

  /** Every message received is in one place: in the line, or disposed of, and there once. */
  ghost predicate EachInOnePlace(s: State) {
    multiset(DisposedIds(s.disposals)) + multiset(Ids(Line(s))) == multiset(FirstNats(|s.raws|))
  }

  lemma HeadMoves<T>(a: seq<T>, q: seq<T>, z: seq<T>)
    requires q != []
    ensures (a + [q[0]]) + q[1..] + z == a + q + z
  {
    assert q == [q[0]] + q[1..];
  }

  lemma Regrouped<T>(w: seq<T>, x: seq<T>, y: seq<T>, z: seq<T>)
    ensures (w + x) + y + z == w + (x + y + z)
  {
  }

  lemma LiveDrops(c: Config, s: State)
    requires Enabled(c, s, DisposeNext)
    ensures Live(s) == [s.buf[s.loop.next]] + Live(Apply(c, s, DisposeNext))
  {
  }

  lemma LineDrops(c: Config, s: State)
    requires Enabled(c, s, DisposeNext)
    ensures Line(s) == [s.buf[s.loop.next]] + Line(Apply(c, s, DisposeNext))
  {
    hide Process, Live;
    LiveDrops(c, s);
    Regrouped([s.buf[s.loop.next]], Live(Apply(c, s, DisposeNext)), s.channel, CallbackSeq(s));
  }

  /** A message that enters the channel or goes past it does not change its place in the line. */
  lemma LineQueues(c: Config, s: State, step: Step)
    requires Enabled(c, s, step) && (step.Enqueue? || step.HandOver?)
    ensures Line(Apply(c, s, step)) == Line(s)
  {
    hide Process;
    var t, m := Apply(c, s, step), s.callback.value;
    assert CallbackSeq(s) == [m] && CallbackSeq(t) == [];
    assert t.buf + t.channel == s.buf + s.channel + [m] || t.channel == s.channel + [m];
  }

  /** What a step does to the line: a message joins at the end, leaves at one of the ends, or nothing changes. */
  lemma LineMoves(c: Config, s: State, step: Step)
    requires Enabled(c, s, step) && (s.loop.Disposing? ==> s.loop.next <= |s.buf|)
    ensures var t := Apply(c, s, step);
            match step
            case Receive(raw) => Line(t) == Line(s) + [Pending(|s.raws|, Process(raw))]
            case Refuse => Line(s) == Line(t) + [s.callback.value]
            case DisposeNext => Line(s) == [s.buf[s.loop.next]] + Line(t)
            case _ => Line(t) == Line(s)
  {
    hide Process;
    var t := Apply(c, s, step);
    match step
    case Take => HeadMoves(s.buf, s.channel, CallbackSeq(s));
    case DisposeNext => LineDrops(c, s);
    case Receive(raw) => assert Live(t) == Live(s) && CallbackSeq(s) == [];
    case Refuse => assert Live(t) == Live(s) && CallbackSeq(t) == [];
    case HandOver => LineQueues(c, s, step);
    case Enqueue => LineQueues(c, s, step);
    case _ =>
  }

  lemma IdsSnoc(msgs: seq<Pending>, m: Pending)
    ensures Ids(msgs + [m]) == Ids(msgs) + [m.id]
    ensures Ids([m] + msgs) == [m.id] + Ids(msgs)
  {
  }

  lemma NatsJoin(n: nat)
    ensures multiset(FirstNats(n + 1)) == multiset(FirstNats(n)) + multiset{n}
  {
    assert FirstNats(n + 1) == FirstNats(n) + [n];
  }

  lemma MovesOver(ds: seq<nat>, line: seq<nat>, rest: seq<nat>, x: nat)
    requires line == rest + [x] || line == [x] + rest
    ensures multiset(ds + [x]) + multiset(rest) == multiset(ds) + multiset(line)
  {
  }

  lemma DisposedSnoc(ds: seq<Disposal>, d: Disposal)
    ensures DisposedIds(ds + [d]) == DisposedIds(ds) + [d.id]
  {
  }

  lemma OnePlaceKept(c: Config, s: State, step: Step)
    requires EachInOnePlace(s) && Enabled(c, s, step) && (s.loop.Disposing? ==> s.loop.next <= |s.buf|)
    ensures EachInOnePlace(Apply(c, s, step))
  {
    hide Line, Process, Ids, FirstNats, DisposedIds;
    LineMoves(c, s, step);
    var t := Apply(c, s, step);
    match step
    case Receive(raw) =>
      IdsSnoc(Line(s), Pending(|s.raws|, Process(raw)));
      NatsJoin(|s.raws|);
    case Refuse =>
      IdsSnoc(Line(t), s.callback.value);
      DisposedSnoc(s.disposals, t.disposals[|s.disposals|]);
      MovesOver(DisposedIds(s.disposals), Ids(Line(s)), Ids(Line(t)), s.callback.value.id);
    case DisposeNext =>
      IdsSnoc(Line(t), s.buf[s.loop.next]);
      DisposedSnoc(s.disposals, t.disposals[|s.disposals|]);
      MovesOver(DisposedIds(s.disposals), Ids(Line(s)), Ids(Line(t)), s.buf[s.loop.next].id);
    case _ =>
  }

  // ------------------------------------------------------------------------------------------------
  // Batches
  // ------------------------------------------------------------------------------------------------

  /** All messages that were part of a flush, in order. */
  function Flushed(batches: seq<Batch>): seq<Pending> {
    if batches == [] then [] else Flushed(batches[..|batches| - 1]) + batches[|batches| - 1].msgs
  }

  /** The buffered messages no flush has begun with. */
  function Unflushed(s: State): seq<Pending> {
    if s.loop.Disposing? then [] else s.buf
  }

  function MaxBatch(c: Config): nat { Max(1, c.batchSize) }

  /** The flush in progress is the latest batch; a flush holds between one and `MaxBatch` messages. */
  ghost predicate BatchesInOrder(c: Config, s: State) {
    && Flushed(s.batches) + Unflushed(s) + s.channel == s.enqueued
    && |s.channel| <= Capacity(c)
    && (forall b :: 0 <= b < |s.batches| ==> 1 <= |s.batches[b].msgs| <= MaxBatch(c))
    && |s.buf| <= MaxBatch(c)
    && match s.loop
       case Waiting => |s.buf| < MaxBatch(c)
       case Writing(_) => s.buf != []
       case Disposing(ok, next, batch, _) =>
         next <= |s.buf| && batch + 1 == |s.batches| && s.batches[batch] == Batch(s.buf, ok)
       case Stopped => s.buf == []
  }

  lemma FlushedSnoc(batches: seq<Batch>, b: Batch)
    ensures Flushed(batches + [b]) == Flushed(batches) + b.msgs
  {
    assert (batches + [b])[..|batches|] == batches;
  }

  lemma QueueJoins<T>(f: seq<T>, u: seq<T>, q: seq<T>, x: T)
    ensures f + u + (q + [x]) == (f + u + q) + [x]
    ensures q == [] ==> f + (u + [x]) + q == (f + u + q) + [x]
  {
  }

  lemma WriteKeepsBatches(c: Config, s: State, ok: bool)
    requires BatchesInOrder(c, s) && Enabled(c, s, Write(ok))
    ensures BatchesInOrder(c, Apply(c, s, Write(ok)))
  {
    hide Rows, Flushed;
    FlushedSnoc(s.batches, Batch(s.buf, ok));
    assert Flushed(s.batches) + s.buf + [] == Flushed(s.batches) + s.buf;
  }

  lemma BatchesKept(c: Config, s: State, step: Step)
    requires BatchesInOrder(c, s) && Enabled(c, s, step)
    ensures BatchesInOrder(c, Apply(c, s, step))
  {
    hide Rows, Process, Flushed;
    match step
    case Take =>
      assert Flushed(s.batches) + (s.buf + [s.channel[0]]) + s.channel[1..] == s.enqueued by {
        assert Flushed(s.batches) + (s.buf + [s.channel[0]]) == Flushed(s.batches) + s.buf + [s.channel[0]];
        assert s.channel == [s.channel[0]] + s.channel[1..];
      }
    case Enqueue => QueueJoins(Flushed(s.batches), Unflushed(s), s.channel, s.callback.value);
    case HandOver => QueueJoins(Flushed(s.batches), s.buf, s.channel, s.callback.value);
    case Write(ok) => WriteKeepsBatches(c, s, ok);
    case _ =>
  }

  // ------------------------------------------------------------------------------------------------
  // Verdicts
  // ------------------------------------------------------------------------------------------------

  /** The messages are what processing made of what was received. */
  ghost predicate Genuine(raws: seq<Raw>, msgs: seq<Pending>) {
    forall i :: 0 <= i < |msgs| ==> msgs[i].id < |raws| && msgs[i].content == Process(raws[msgs[i].id])
  }

  /** The disposal is the verdict its place hands out; a flush disposes only of messages it holds. */
  ghost predicate RightVerdict(s: State, d: Disposal) {
    && d.id < |s.raws|
    && match d.batch
       case Some(b) =>
         && b < |s.batches|
         && d.how == FlushVerdict(Process(s.raws[d.id]), s.batches[b].ok)
         && exists x :: 0 <= x < |s.batches[b].msgs| && s.batches[b].msgs[x].id == d.id
       case None => d.how == CallbackVerdict(Process(s.raws[d.id]))
  }

  ghost predicate VerdictsRight(s: State) {
    && Genuine(s.raws, s.enqueued) && Genuine(s.raws, s.buf) && Genuine(s.raws, CallbackSeq(s))
    && (forall i :: 0 <= i < |s.disposals| ==> RightVerdict(s, s.disposals[i]))
  }

  /** Neither the messages received nor the batches begun are ever revised. */
  lemma HistoryGrows(c: Config, s: State, step: Step)
    requires Enabled(c, s, step)
    ensures s.raws <= Apply(c, s, step).raws && s.batches <= Apply(c, s, step).batches
    ensures s.disposals <= Apply(c, s, step).disposals
  {
  }

  lemma StaysRight(s: State, t: State, d: Disposal)
    requires RightVerdict(s, d) && s.raws <= t.raws && s.batches <= t.batches
    ensures RightVerdict(t, d)
  {
  }

  lemma NewVerdict(c: Config, s: State, step: Step)
    requires VerdictsRight(s) && BatchesInOrder(c, s) && Enabled(c, s, step)
    requires step.Refuse? || step.DisposeNext?
    ensures RightVerdict(Apply(c, s, step), Apply(c, s, step).disposals[|s.disposals|])
  {
    if step.DisposeNext? {
      assert s.batches[s.loop.batch].msgs[s.loop.next].id == s.buf[s.loop.next].id;
    } else {
      assert CallbackSeq(s)[0] == s.callback.value;
    }
  }

  lemma GenuineMore(raws: seq<Raw>, more: seq<Raw>, msgs: seq<Pending>)
    requires Genuine(raws, msgs) && raws <= more
    ensures Genuine(more, msgs)
  {
  }

  lemma GenuineJoin(raws: seq<Raw>, xs: seq<Pending>, ys: seq<Pending>)
    requires Genuine(raws, xs) && Genuine(raws, ys)
    ensures Genuine(raws, xs + ys)
  {
  }

  lemma GenuineKept(c: Config, s: State, step: Step)
    requires VerdictsRight(s) && BatchesInOrder(c, s) && Enabled(c, s, step)
    ensures var t := Apply(c, s, step);
            Genuine(t.raws, t.enqueued) && Genuine(t.raws, t.buf) && Genuine(t.raws, CallbackSeq(t))
  {
    hide Process, Flushed;
    var t := Apply(c, s, step);
    match step
    case Receive(raw) =>
      GenuineMore(s.raws, t.raws, s.enqueued);
      GenuineMore(s.raws, t.raws, s.buf);
    case Enqueue => GenuineJoin(s.raws, s.enqueued, CallbackSeq(s));
    case HandOver =>
      GenuineJoin(s.raws, s.enqueued, CallbackSeq(s));
      GenuineJoin(s.raws, s.buf, CallbackSeq(s));
    case Take =>
      assert s.channel[0] == s.enqueued[|s.enqueued| - |s.channel|];
      assert Genuine(s.raws, [s.channel[0]]);
      GenuineJoin(s.raws, s.buf, [s.channel[0]]);
    case _ =>
  }

  lemma VerdictsKept(c: Config, s: State, step: Step)
    requires VerdictsRight(s) && BatchesInOrder(c, s) && Enabled(c, s, step)
    ensures VerdictsRight(Apply(c, s, step))
  {
    hide Process, Flushed, RightVerdict;
    var t := Apply(c, s, step);
    GenuineKept(c, s, step);
    HistoryGrows(c, s, step);
    if step.Refuse? || step.DisposeNext? { NewVerdict(c, s, step); }
    forall i | 0 <= i < |t.disposals| ensures RightVerdict(t, t.disposals[i]) {
      if i < |s.disposals| { StaysRight(s, t, s.disposals[i]); }
    }
  }

  // ------------------------------------------------------------------------------------------------
  // Counters, and the order in which flushes dispose
  // ------------------------------------------------------------------------------------------------

  /** How many messages flushes disposed of in a certain way. */
  function Count(ds: seq<Disposal>, how: How): nat {
    if ds == [] then 0
    else
      var d := ds[|ds| - 1];
      Count(ds[..|ds| - 1], how) + if d.batch.Some? && d.how == how then 1 else 0
  }

  /** The ids of the messages disposed of by flushes, in order. */
  function FlushedIds(ds: seq<Disposal>): seq<nat> {
    if ds == [] then []
    else
      var d := ds[|ds| - 1];
      FlushedIds(ds[..|ds| - 1]) + if d.batch.Some? then [d.id] else []
  }

  ghost predicate CountersRight(s: State) {
    && s.written == Count(s.disposals, Acked)
    && s.writeErrors == Count(s.disposals, Naked)
    && s.parseErrors == Count(s.disposals, Termed)
    && |s.disposals| == s.written + s.writeErrors + s.parseErrors + s.refused
  }

  /** Flushes dispose of exactly what they hold, in channel order. */
  ghost predicate FlushesComplete(s: State) {
    Ids(Flushed(s.batches)) ==
    if s.loop.Disposing? then FlushedIds(s.disposals) + Ids(Live(s)) else FlushedIds(s.disposals)
  }

  lemma DisposalSnoc(ds: seq<Disposal>, d: Disposal)
    ensures forall how :: Count(ds + [d], how) == Count(ds, how) + if d.batch.Some? && d.how == how then 1 else 0
    ensures FlushedIds(ds + [d]) == FlushedIds(ds) + if d.batch.Some? then [d.id] else []
  {
    assert (ds + [d])[..|ds|] == ds;
  }

  lemma CountersKept(c: Config, s: State, step: Step)
    requires CountersRight(s) && Enabled(c, s, step)
    ensures CountersRight(Apply(c, s, step))
  {
    hide Process, Count;
    var t := Apply(c, s, step);
    if step.Refuse? || step.DisposeNext? {
      DisposalSnoc(s.disposals, t.disposals[|s.disposals|]);
    }
  }

  lemma IdsJoin(xs: seq<Pending>, ys: seq<Pending>)
    ensures Ids(xs + ys) == Ids(xs) + Ids(ys)
  {
  }

  lemma NothingDisposedYet(s: State)
    requires s.loop.Disposing? && s.loop.next == 0
    ensures Live(s) == s.buf
  {
  }

  lemma WriteKeepsFlushes(c: Config, s: State, ok: bool)
    requires FlushesComplete(s) && Enabled(c, s, Write(ok))
    ensures FlushesComplete(Apply(c, s, Write(ok)))
  {
    hide Process, Flushed, FlushedIds, Rows, Ids, Live;
    var t := Apply(c, s, Write(ok));
    assert Live(t) == s.buf by { NothingDisposedYet(t); }
    assert t.batches == s.batches + [Batch(s.buf, ok)] && t.disposals == s.disposals;
    FlushedSnoc(s.batches, Batch(s.buf, ok));
    IdsJoin(Flushed(s.batches), s.buf);
  }

  lemma Regroup(xs: seq<nat>, x: nat, ys: seq<nat>)
    ensures xs + ([x] + ys) == (xs + [x]) + ys
  {
  }

  lemma LiveShrinks(c: Config, s: State)
    requires BatchesInOrder(c, s) && Enabled(c, s, DisposeNext)
    ensures Ids(Live(s)) == [s.buf[s.loop.next].id] + Ids(Live(Apply(c, s, DisposeNext)))
  {
    hide Process, Flushed, Ids;
    var t, m := Apply(c, s, DisposeNext), s.buf[s.loop.next];
    LiveDrops(c, s);
    IdsSnoc(Live(t), m);
  }

  lemma DisposalKeepsFlushes(c: Config, s: State)
    requires FlushesComplete(s) && BatchesInOrder(c, s) && Enabled(c, s, DisposeNext)
    ensures FlushesComplete(Apply(c, s, DisposeNext))
  {
    hide Process, Flushed, FlushedIds, Rows, Ids, Live, BatchesInOrder;
    var t := Apply(c, s, DisposeNext);
    DisposalSnoc(s.disposals, t.disposals[|s.disposals|]);
    LiveShrinks(c, s);
    Regroup(FlushedIds(s.disposals), s.buf[s.loop.next].id, Ids(Live(t)));
  }

  lemma NothingAdded(xs: seq<nat>)
    ensures xs + Ids([]) == xs && xs + [] == xs
  {
  }

  lemma FlushesKept(c: Config, s: State, step: Step)
    requires FlushesComplete(s) && BatchesInOrder(c, s) && Enabled(c, s, step)
    ensures FlushesComplete(Apply(c, s, step))
  {
    hide Process, Flushed, FlushedIds, Rows;
    match step
    case Write(ok) => WriteKeepsFlushes(c, s, ok);
    case DisposeNext => DisposalKeepsFlushes(c, s);
    case Refuse =>
      DisposalSnoc(s.disposals, Apply(c, s, Refuse).disposals[|s.disposals|]);
      NothingAdded(FlushedIds(s.disposals));
    case EndFlush =>
      assert Live(s) == [];
      NothingAdded(FlushedIds(s.disposals));
    case _ =>
  }
}
