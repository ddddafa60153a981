/**
 What the telemetry consumer guarantees in every reachable state.
 */
module TelemetryDelivery {
  import opened Common
  import opened Telemetry
  import opened TelemetrySafety

  ghost predicate Inv(c: Config, s: State) {
    && EachInOnePlace(s)
    && BatchesInOrder(c, s)
    && VerdictsRight(s)
    && CountersRight(s)
    && FlushesComplete(s)
    && (c.handlerNeverFails ==> forall i :: 0 <= i < |s.raws| ==> s.raws[i].handled)
  }

  lemma InvKept(c: Config, s: State, step: Step)
    requires Inv(c, s) && Enabled(c, s, step)
    ensures Inv(c, Apply(c, s, step))
  {
    hide EachInOnePlace, VerdictsRight, CountersRight, FlushesComplete, Process, Rows, Flushed;
    OnePlaceKept(c, s, step);
    BatchesKept(c, s, step);
    VerdictsKept(c, s, step);
    CountersKept(c, s, step);
    FlushesKept(c, s, step);
  }

  lemma InitInv(c: Config)
    ensures Inv(c, Init())
  {
    assert multiset(DisposedIds([])) + multiset(Ids(Line(Init()))) == multiset(FirstNats(0));
  }

  lemma {:induction false} InvHolds(c: Config, steps: seq<Step>, s: State)
    requires Exec(c, steps) == Some(s)
    ensures Inv(c, s)
    decreases |steps|
  {
    hide Inv;
    InitInv(c);
    if steps != [] {
      var before := Exec(c, steps[..|steps| - 1]).value;
      InvHolds(c, steps[..|steps| - 1], before);
      InvKept(c, before, steps[|steps| - 1]);
    }
  }

  lemma ReachableInv(c: Config, s: State)
    requires Reachable(c, s)
    ensures Inv(c, s)
  {
    var steps :| Exec(c, steps) == Some(s);
    InvHolds(c, steps, s);
  }

  // ------------------------------------------------------------------------------------------------
  // Conservation
  // ------------------------------------------------------------------------------------------------

  lemma {:induction false} NatOnce(n: nat, id: nat)
    ensures multiset(FirstNats(n))[id] == if id < n then 1 else 0
  {
    if n > 0 {
      NatOnce(n - 1, id);
      NatsJoin(n - 1);
    } else {
      assert FirstNats(0) == [];
    }
  }

  /** Every received message is disposed of once or waits in one place of the line; nothing else is ever disposed of. */
  lemma OncePerMessage(c: Config, s: State, id: nat)
    requires Reachable(c, s)
    ensures multiset(DisposedIds(s.disposals))[id] + multiset(Ids(Line(s)))[id] == if id < |s.raws| then 1 else 0
  {
    ReachableInv(c, s);
    NatOnce(|s.raws|, id);
  }

  lemma OnceMeansDistinct(xs: seq<nat>, i: nat, j: nat)
    requires i < j < |xs| && multiset(xs)[xs[i]] <= 1
    ensures xs[i] != xs[j]
  {
    assert xs == xs[..j] + xs[j..];
    assert xs[..j][i] == xs[i] && xs[j..][0] == xs[j];
    assert multiset(xs) == multiset(xs[..j]) + multiset(xs[j..]);
    assert xs[i] in multiset(xs[..j]) && xs[j] in multiset(xs[j..]);
  }

  /** No message is disposed of twice, and none that still waits in the channel, also after the loop has returned. */
  lemma NoSecondDisposal(c: Config, s: State, i: nat, j: nat)
    requires Reachable(c, s) && i < |s.disposals|
    ensures i < j < |s.disposals| ==> s.disposals[i].id != s.disposals[j].id
    ensures j < |s.channel| ==> s.disposals[i].id != s.channel[j].id
  {
    var ds, line := DisposedIds(s.disposals), Ids(Line(s));
    OncePerMessage(c, s, s.disposals[i].id);
    assert ds[i] == s.disposals[i].id && ds[i] in multiset(ds);
    if i < j < |s.disposals| { OnceMeansDistinct(ds, i, j); }
    if j < |s.channel| {
      assert line[|Live(s)| + j] == s.channel[j].id;
      assert s.channel[j].id in multiset(line);
    }
  }

  /** The disposals by what was done, and whether by a flush or by the callback. */
  function Kinds(ds: seq<Disposal>): seq<(How, bool)> {
    seq(|ds|, i requires 0 <= i < |ds| => (ds[i].how, ds[i].batch.Some?))
  }

  lemma {:induction false} CountIsMultiplicity(ds: seq<Disposal>, how: How)
    ensures Count(ds, how) == multiset(Kinds(ds))[(how, true)]
  {
    if ds != [] {
      var n := |ds| - 1;
      CountIsMultiplicity(ds[..n], how);
      assert Kinds(ds) == Kinds(ds[..n]) + [(ds[n].how, ds[n].batch.Some?)];
    }
  }

  /** Each counter counts its own kind of disposal, and together they account for every message. */
  lemma MessagesConserved(c: Config, s: State)
    requires Reachable(c, s)
    ensures s.written == multiset(Kinds(s.disposals))[(Acked, true)]
    ensures s.writeErrors == multiset(Kinds(s.disposals))[(Naked, true)]
    ensures s.parseErrors == multiset(Kinds(s.disposals))[(Termed, true)]
    ensures |s.raws| == s.parseErrors + s.written + s.writeErrors + s.refused + |Line(s)|
  {
    hide Count, Kinds;
    ReachableInv(c, s);
    CountIsMultiplicity(s.disposals, Acked);
    CountIsMultiplicity(s.disposals, Naked);
    CountIsMultiplicity(s.disposals, Termed);
    assert |multiset(DisposedIds(s.disposals)) + multiset(Ids(Line(s)))| == |s.disposals| + |Line(s)|;
    assert |multiset(FirstNats(|s.raws|))| == |s.raws|;
  }

  /** Once the loop has returned nothing is buffered, and what is in the channel stays there. */
  lemma StoppedLeavesChannel(c: Config, s: State, step: Step)
    requires Reachable(c, s) && s.loop.Stopped? && Enabled(c, s, step)
    ensures s.buf == [] && Apply(c, s, step).loop.Stopped? && s.channel <= Apply(c, s, step).channel
    ensures Apply(c, s, step).batches == s.batches
  {
    ReachableInv(c, s);
  }

  // ------------------------------------------------------------------------------------------------
  // What is acknowledged was written
  // ------------------------------------------------------------------------------------------------

  lemma {:induction false} RowsContain(msgs: seq<Pending>, x: nat)
    requires x < |msgs| && msgs[x].content.Good?
    ensures msgs[x].content.row in Rows(msgs)
  {
    if x < |msgs| - 1 {
      RowsContain(msgs[..|msgs| - 1], x);
    }
  }

  /**
   The rows are those of the good messages, each once and in their order: row `i` is that of message `at[i]`, and no
   good message is left out.
   */
  ghost predicate ListsGoodOnes(msgs: seq<Pending>, rows: seq<Row>, at: seq<nat>) {
    && |at| == |rows|
    && (forall i, j :: 0 <= i < j < |at| ==> at[i] < at[j])
    && (forall i :: 0 <= i < |at| ==>
          at[i] < |msgs| && msgs[at[i]].content.Good? && msgs[at[i]].content.row == rows[i])
    && (forall x :: 0 <= x < |msgs| && msgs[x].content.Good? ==> x in at)
  }

  lemma ListsMore(msgs: seq<Pending>, rows: seq<Row>, at: seq<nat>, m: Pending)
    requires ListsGoodOnes(msgs, rows, at)
    ensures m.content.Good? ==> ListsGoodOnes(msgs + [m], rows + [m.content.row], at + [|msgs|])
    ensures !m.content.Good? ==> ListsGoodOnes(msgs + [m], rows, at)
  {
    if m.content.Good? {
      var all, longer := msgs + [m], at + [|msgs|];
      assert longer[|at|] == |msgs|;
      forall x | 0 <= x < |all| && all[x].content.Good? ensures x in longer {
        assert x < |msgs| ==> x in at;
      }
    }
  }

  lemma {:induction false} RowsAreTheGoodOnes(msgs: seq<Pending>) returns (at: seq<nat>)
    ensures ListsGoodOnes(msgs, Rows(msgs), at)
  {
    at := [];
    if msgs != [] {
      hide ListsGoodOnes;
      var n := |msgs| - 1;
      at := RowsAreTheGoodOnes(msgs[..n]);
      ListsMore(msgs[..n], Rows(msgs[..n]), at, msgs[n]);
      assert msgs == msgs[..n] + [msgs[n]] && Rows(msgs[..n]) + [] == Rows(msgs[..n]);
      if msgs[n].content.Good? { at := at + [n]; }
    }
  }

  lemma {:induction false} FlushedContains(batches: seq<Batch>, b: nat) returns (at: nat)
    requires b < |batches|
    ensures at + |batches[b].msgs| <= |Flushed(batches)|
    ensures Flushed(batches)[at..at + |batches[b].msgs|] == batches[b].msgs
  {
    var before := batches[..|batches| - 1];
    if b == |batches| - 1 {
      at := |Flushed(before)|;
    } else {
      at := FlushedContains(before, b);
      assert Flushed(batches)[at..at + |batches[b].msgs|] == Flushed(before)[at..at + |batches[b].msgs|];
    }
  }

  lemma BatchIsGenuine(c: Config, s: State, b: nat)
    requires BatchesInOrder(c, s) && VerdictsRight(s) && b < |s.batches|
    ensures Genuine(s.raws, s.batches[b].msgs)
  {
    var at := FlushedContains(s.batches, b);
    forall i | 0 <= i < |s.batches[b].msgs|
      ensures s.batches[b].msgs[i] == s.enqueued[at + i]
    {
      assert Flushed(s.batches)[at..at + |s.batches[b].msgs|][i] == Flushed(s.batches)[at + i];
    }
  }

  /** A row with exactly what an acknowledged message said, column by column, was in a write that succeeded. */
  lemma AckedWasWritten(c: Config, s: State, i: nat) returns (b: nat, row: Row)
    requires Reachable(c, s) && i < |s.disposals| && s.disposals[i].how == Acked
    ensures b < |s.batches| && s.batches[b].ok && row in Rows(s.batches[b].msgs)
    ensures s.disposals[i].id < |s.raws| && RowHolds(row, s.raws[s.disposals[i].id])
  {
    hide Reachable, EachInOnePlace, CountersRight, FlushesComplete, RowHolds, Process;
    ReachableInv(c, s);
    var d := s.disposals[i];
    assert RightVerdict(s, d);
    b := d.batch.value;
    var x :| 0 <= x < |s.batches[b].msgs| && s.batches[b].msgs[x].id == d.id;
    BatchIsGenuine(c, s, b);
    ProcessMeans(s.raws[d.id]);
    row := s.batches[b].msgs[x].content.row;
    RowsContain(s.batches[b].msgs, x);
  }

  // ------------------------------------------------------------------------------------------------
  // What is written does not depend on the schedule
  // ------------------------------------------------------------------------------------------------

  /** The rows of the writes that succeeded, in the order they were written. */
  function WrittenRows(batches: seq<Batch>): seq<Row> {
    if batches == [] then []
    else
      var b := batches[|batches| - 1];
      WrittenRows(batches[..|batches| - 1]) + if b.ok then Rows(b.msgs) else []
  }

  ghost predicate WriterSucceeds(s: State) {
    forall b :: 0 <= b < |s.batches| ==> s.batches[b].ok
  }

  lemma {:induction false} RowsJoin(xs: seq<Pending>, ys: seq<Pending>)
    ensures Rows(xs + ys) == Rows(xs) + Rows(ys)
    decreases |ys|
  {
    if ys == [] {
      assert xs + ys == xs && Rows(xs) + [] == Rows(xs);
    } else {
      var y := ys[|ys| - 1];
      RowsJoin(xs, ys[..|ys| - 1]);
      assert (xs + ys)[..|xs + ys| - 1] == xs + ys[..|ys| - 1];
      var last := if y.content.Good? then [y.content.row] else [];
      assert Rows(xs) + Rows(ys[..|ys| - 1]) + last == Rows(xs) + (Rows(ys[..|ys| - 1]) + last);
    }
  }

  lemma {:induction false} AllWritten(batches: seq<Batch>)
    requires forall b :: 0 <= b < |batches| ==> batches[b].ok
    ensures WrittenRows(batches) == Rows(Flushed(batches))
  {
    if batches != [] {
      AllWritten(batches[..|batches| - 1]);
      RowsJoin(Flushed(batches[..|batches| - 1]), batches[|batches| - 1].msgs);
    }
  }

  /** With a succeeding writer, the rows written and then those still waiting are the valid rows in channel order. */
  lemma WrittenInChannelOrder(c: Config, s: State)
    requires Reachable(c, s) && WriterSucceeds(s)
    ensures WrittenRows(s.batches) + Rows(Unflushed(s) + s.channel) == Rows(s.enqueued)
  {
    hide Rows, WrittenRows, Reachable, EachInOnePlace, VerdictsRight, CountersRight, FlushesComplete;
    ReachableInv(c, s);
    AllWritten(s.batches);
    RowsJoin(Flushed(s.batches), Unflushed(s) + s.channel);
    assert Flushed(s.batches) + (Unflushed(s) + s.channel) == s.enqueued;
  }

  /** Consumers, whatever their batch sizes and schedules, that have written the same messages wrote the same rows. */
  lemma ScheduleDoesNotMatter(c1: Config, s1: State, c2: Config, s2: State)
    requires Reachable(c1, s1) && WriterSucceeds(s1) && Unflushed(s1) == [] && s1.channel == []
    requires Reachable(c2, s2) && WriterSucceeds(s2) && Unflushed(s2) == [] && s2.channel == []
    requires s1.enqueued == s2.enqueued
    ensures WrittenRows(s1.batches) == WrittenRows(s2.batches)
  {
    WrittenInChannelOrder(c1, s1);
    WrittenInChannelOrder(c2, s2);
    assert Rows([]) == [] && forall rows: seq<Row> :: rows + [] == rows;
  }

  /** Between flushes, those so far have disposed of exactly their messages, in channel order, in bounded batches. */
  lemma FlushesDisposeInOrder(c: Config, s: State)
    requires Reachable(c, s) && !s.loop.Disposing?
    ensures FlushedIds(s.disposals) + Ids(Unflushed(s) + s.channel) == Ids(s.enqueued)
    ensures forall b :: 0 <= b < |s.batches| ==> 1 <= |s.batches[b].msgs| <= Max(1, c.batchSize)
  {
    hide Reachable, Ids, Flushed, FlushedIds, Live, EachInOnePlace, VerdictsRight, CountersRight;
    ReachableInv(c, s);
    var flushed, rest := Flushed(s.batches), Unflushed(s) + s.channel;
    IdsJoin(flushed, rest);
    assert flushed + rest == s.enqueued;
  }

  // ------------------------------------------------------------------------------------------------
  // Which messages are terminated
  // ------------------------------------------------------------------------------------------------

  /**
   What becomes of a message, by what it said and by whether the write of its batch succeeded. A flush acknowledges it
   exactly if the write succeeded, it is well-formed and the handler took it, asks for it again exactly if only the
   write failed, and terminates it otherwise. The callback terminates it exactly if it is malformed.
   */
  lemma DisposedExactly(c: Config, s: State, i: nat)
    requires Reachable(c, s) && i < |s.disposals|
    ensures s.disposals[i].id < |s.raws|
    ensures s.disposals[i].batch.Some? ==> s.disposals[i].batch.value < |s.batches|
    ensures var d, raw := s.disposals[i], s.raws[s.disposals[i].id];
            match d.batch
            case Some(b) =>
              && (d.how == Acked <==> s.batches[b].ok && WellFormed(raw) && raw.handled)
              && (d.how == Naked <==> !s.batches[b].ok && WellFormed(raw) && raw.handled)
              && (d.how == Termed <==> !WellFormed(raw) || !raw.handled)
            case None =>
              && (d.how == Naked <==> WellFormed(raw))
              && (d.how == Termed <==> !WellFormed(raw))
  {
    hide Reachable, EachInOnePlace, BatchesInOrder, CountersRight, FlushesComplete, Process, WellFormed;
    ReachableInv(c, s);
    assert RightVerdict(s, s.disposals[i]);
    ProcessMeans(s.raws[s.disposals[i].id]);
  }

  /**
   Behind the heartbeat tracker, whose handler never fails, a message is terminated exactly if its subject or its
   body is malformed, whether a flush or the cancelled callback disposes of it.
   */
  lemma TerminatedExactlyWhenMalformed(c: Config, s: State, i: nat)
    requires Reachable(c, s) && c.handlerNeverFails && i < |s.disposals|
    ensures s.disposals[i].id < |s.raws|
    ensures s.disposals[i].how == Termed <==> !WellFormed(s.raws[s.disposals[i].id])
  {
    hide Reachable, EachInOnePlace, BatchesInOrder, CountersRight, FlushesComplete, VerdictsRight, WellFormed;
    ReachableInv(c, s);
    DisposedExactly(c, s, i);
  }

  /** With a handler that fails, the same message is terminated by a flush and asked for again by the callback. */
  lemma FailingHandlerSplitsPaths(raw: Raw) returns (c: Config, flushed: State, refused: State)
    requires WellFormed(raw) && !raw.handled
    ensures Reachable(c, flushed) && flushed.raws == [raw] && |flushed.disposals| == 1
    ensures Reachable(c, refused) && refused.raws == [raw] && |refused.disposals| == 1
    ensures flushed.disposals[0].how == Termed && refused.disposals[0].how == Naked
  {
    hide Process, Exec;
    ProcessMeans(raw);
    c := Config(1, false);
    InitReachable(c);
    var s := Go(c, Init(), Receive(raw));
    refused := Go(c, s, Cancel);
    refused := Go(c, refused, Refuse);
    flushed := Go(c, s, HandOver);
    flushed := Go(c, flushed, Write(true));
    flushed := Go(c, flushed, DisposeNext);
  }

  predicate DisposesOf(s: State, i: nat, raw: Raw) {
    i < |s.disposals| && s.disposals[i].id < |s.raws| && s.raws[s.disposals[i].id] == raw
  }

  /** Wherever the message ends up, it is terminated everywhere or nowhere. */
  ghost predicate SameFate(raw: Raw) {
    forall c, s, t, i: nat, j: nat ::
      Reachable(c, s) && DisposesOf(s, i, raw) && Reachable(c, t) && DisposesOf(t, j, raw) ==>
        (s.disposals[i].how == Termed <==> t.disposals[j].how == Termed)
  }

  /** Both paths agree on a message exactly if it is malformed or the handler takes it. */
  lemma PathsAgreeExactly(raw: Raw)
    ensures SameFate(raw) <==> !WellFormed(raw) || raw.handled
  {
    hide Reachable, WellFormed;
    if WellFormed(raw) && !raw.handled {
      var c, flushed, refused := FailingHandlerSplitsPaths(raw);
      DisposedExactly(c, flushed, 0);
      DisposedExactly(c, refused, 0);
      assert DisposesOf(flushed, 0, raw) && DisposesOf(refused, 0, raw);
    } else {
      forall c, s, t, i: nat, j: nat
        | Reachable(c, s) && DisposesOf(s, i, raw) && Reachable(c, t) && DisposesOf(t, j, raw)
        ensures s.disposals[i].how == Termed <==> t.disposals[j].how == Termed
      {
        DisposedExactly(c, s, i);
        DisposedExactly(c, t, j);
      }
    }
  }

  /** Every column holds its own part of the message, so tenant and envelope can be read back from the row. */
  lemma RowIsVerbatim(tenantID: string, e: Envelope)
    ensures var r := BuildRow(tenantID, e);
            && r.tenantID == tenantID
            && e == Envelope(gatewayID := r.gatewayID, sensorID := r.sensorID, sensorType := r.sensorType,
                             timestamp := r.time, keyVersion := r.keyVersion, encryptedData := r.encryptedData,
                             iv := r.iv, authTag := r.authTag)
  {
  }

  /** The tenant of a row is the third of the subject's four tokens. */
  lemma TenantIsThirdToken(a: string, b: string, tenantID: string, gatewayID: string)
    requires '.' !in a && '.' !in b && '.' !in tenantID && '.' !in gatewayID
    ensures var subject := a + "." + (b + "." + (tenantID + "." + gatewayID));
            GoodSubject(subject) && Split(subject, '.')[2] == tenantID
  {
    var c := tenantID + "." + gatewayID;
    SplitFirst(a, b + "." + c, '.');
    SplitFirst(b, c, '.');
    SplitFirst(tenantID, gatewayID, '.');
    SplitWhole(gatewayID, '.');
  }
}
