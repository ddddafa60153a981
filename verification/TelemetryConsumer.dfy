/**
 The consumer as the object it is: one buffer whose storage every flush reuses, counters, and the dispositions
 of the messages. Its methods move the ghost state machine along.
 */
module TelemetryConsumer {
  import opened Common
  import opened Telemetry
  import opened TelemetrySafety
  import TelemetryDelivery

  /**
   What happens next to the flush loop: its context is cancelled, or its select picks a message, the ticker or the
   cancelled context, with the writer's answer should a flush follow.
   */
  datatype Choice = Cancellation | Message(writerOk: bool) | Ticker(writerOk: bool) | Done(writerOk: bool)

  /** How the callback's select ends, or that none of its cases can proceed yet. */
  datatype Enqueuing = Queued | HandedOver | Refused | Blocked

  /** What a flush does to the first messages of its batch. */
  function FlushDisposals(msgs: seq<Pending>, ok: bool, batch: nat): seq<Disposal> {
    seq(|msgs|, i requires 0 <= i < |msgs| => Disposal(msgs[i].id, FlushVerdict(msgs[i].content, ok), Some(batch)))
  }

  /**
   One disposal a message, in order: a good one is acknowledged if the write succeeds and asked for again if not, and
   the others are terminated.
   */
  ghost predicate DisposesRightly(ds: seq<Disposal>, msgs: seq<Pending>, writerOk: bool, batch: nat) {
    && |ds| == |msgs|
    && forall i :: 0 <= i < |msgs| ==>
         && ds[i].id == msgs[i].id && ds[i].batch == Some(batch)
         && (ds[i].how == Acked <==> msgs[i].content.Good? && writerOk)
         && (ds[i].how == Naked <==> msgs[i].content.Good? && !writerOk)
  }

  lemma FlushDisposalsMean(msgs: seq<Pending>, writerOk: bool, batch: nat)
    ensures DisposesRightly(FlushDisposals(msgs, writerOk || Rows(msgs) == [], batch), msgs, writerOk, batch)
  {
    forall i | 0 <= i < |msgs| && msgs[i].content.Good? ensures Rows(msgs) != [] {
      TelemetryDelivery.RowsContain(msgs, i);
    }
  }

  /** What the flush loop sees and leaves behind. */
  datatype Desk = Desk(buf: seq<Pending>, channel: seq<Pending>, disposals: seq<Disposal>, flushes: nat,
                       cancelled: bool, stopped: bool)

  function Flushing(d: Desk, writerOk: bool): Desk {
    if d.buf == [] then d
    else
      d.(buf := [], flushes := d.flushes + 1,
         disposals := d.disposals + FlushDisposals(d.buf, writerOk || Rows(d.buf) == [], d.flushes))
  }

  /** One turn of the loop; after the last one nothing moves any more. */
  function Turn(batchSize: nat, d: Desk, choice: Choice): Desk {
    if d.stopped then d
    else
      match choice
      case Cancellation => d.(cancelled := true)
      case Message(writerOk) =>
        if d.channel == [] then d
        else
          var taken := d.(buf := d.buf + [d.channel[0]], channel := d.channel[1..]);
          if |taken.buf| >= batchSize then Flushing(taken, writerOk) else taken
      case Ticker(writerOk) => Flushing(d, writerOk)
      case Done(writerOk) => if d.cancelled then Flushing(d, writerOk).(stopped := true) else d
  }

  function Turns(batchSize: nat, d: Desk, schedule: seq<Choice>): Desk {
    if schedule == [] then d
    else Turn(batchSize, Turns(batchSize, d, schedule[..|schedule| - 1]), schedule[|schedule| - 1])
  }

  lemma NoTurns(batchSize: nat, d: Desk, schedule: seq<Choice>)
    ensures Turns(batchSize, d, schedule[..0]) == d
  {
  }

  lemma TurnsSnoc(batchSize: nat, d: Desk, schedule: seq<Choice>, i: nat)
    requires i < |schedule|
    ensures Turns(batchSize, d, schedule[..i + 1]) == Turn(batchSize, Turns(batchSize, d, schedule[..i]), schedule[i])
  {
    assert schedule[..i + 1][..i] == schedule[..i];
  }

  lemma {:induction false} StoppedStays(batchSize: nat, d: Desk, schedule: seq<Choice>, i: nat)
    requires i <= |schedule| && Turns(batchSize, d, schedule[..i]).stopped
    ensures Turns(batchSize, d, schedule) == Turns(batchSize, d, schedule[..i])
    decreases |schedule| - i
  {
    if i < |schedule| {
      TurnsSnoc(batchSize, d, schedule, i);
      StoppedStays(batchSize, d, schedule, i + 1);
    } else {
      assert schedule[..i] == schedule;
    }
  }

  lemma SameTail(a: seq<nat>, b: seq<nat>, z: seq<nat>)
    requires a + z == b + z
    ensures a == b
  {
    assert |a + z| == |b + z|;
    assert (a + z)[..|a|] == a && (b + z)[..|b|] == b;
  }

  lemma NothingDisposed(msgs: seq<Pending>, ok: bool, batch: nat)
    ensures FlushDisposals(msgs[..0], ok, batch) == []
  {
  }

  lemma FlushDisposalsSnoc(msgs: seq<Pending>, i: nat, ok: bool, batch: nat)
    requires i < |msgs|
    ensures FlushDisposals(msgs[..i + 1], ok, batch) ==
            FlushDisposals(msgs[..i], ok, batch) +
            [Disposal(msgs[i].id, FlushVerdict(msgs[i].content, ok), Some(batch))]
  {
  }

  class Consumer {
    const config: Config
    const storage: array<Pending>
    var len: nat
    var pending: seq<Pending>
    var disposals: seq<Disposal>
    var flushes: nat
    var received: nat
    var written: nat
    var writeErrors: nat
    var parseErrors: nat
    var cancelled: bool
    ghost var machine: State

    /** The fields hold what the state of the machine says; the storage beyond `len` is stale. */
    ghost predicate Shows(s: State)
      reads this`len, this`pending, this`disposals, this`flushes, this`received, this`written, this`writeErrors
      reads this`parseErrors, this`cancelled, storage
    {
      && len <= storage.Length
      && s.buf == storage[..len]
      && s.channel == pending
      && s.disposals == disposals
      && |s.raws| == received && |s.batches| == flushes
      && s.written == written && s.writeErrors == writeErrors && s.parseErrors == parseErrors
      && s.cancelled == cancelled
    }

    ghost predicate Valid()
      reads this, storage
    {
      && storage.Length == MaxBatch(config)
      && Shows(machine)
      && Reachable(config, machine)
    }

    constructor (config: Config)
      ensures Valid() && this.config == config && machine == Init() && fresh(storage)
    {
      this.config := config;
      storage := new Pending[Max(1, config.batchSize)];
      len, pending, disposals := 0, [], [];
      received, flushes, written, writeErrors, parseErrors, cancelled := 0, 0, 0, 0, 0, false;
      machine := Init();
      new;
      InitReachable(config);
    }

    ghost method Follow(step: Step)
      requires storage.Length == MaxBatch(config)
      requires Reachable(config, machine) && Enabled(config, machine, step) && Shows(Apply(config, machine, step))
      modifies this`machine
      ensures Valid() && machine == Apply(config, old(machine), step)
    {
      machine := Go(config, machine, step);
    }

    /** The callback: counts the message, processes it, and holds it until it is queued or refused. */
    method OnMessage(raw: Raw) returns (m: Pending)
      requires Valid() && machine.callback.None? && (config.handlerNeverFails ==> raw.handled)
      modifies this`machine, this`received
      ensures Valid() && machine.callback == Some(m) && m == Pending(old(received), Process(raw))
      ensures machine == old(machine).(raws := old(machine).raws + [raw], callback := Some(m))
      ensures m.content.Good? <==> WellFormed(raw) && raw.handled
      ensures m.content.Good? ==> RowHolds(m.content.row, raw)
      ensures m.content == Bad(Permanent) <==> !WellFormed(raw)
    {
      hide WellFormed, RowHolds;
      ProcessMeans(raw);
      var parts := Split(raw.subject, '.');
      var content: Content;
      if |parts| != 4 {
        content := Bad(Permanent);
      } else if raw.envelope.None? {
        content := Bad(Permanent);
      } else if !raw.handled {
        content := Bad(Transient);
      } else {
        content := Good(BuildRow(parts[2], raw.envelope.value));
      }
      m := Pending(received, content);
      received := received + 1;
      Follow(Receive(raw));
    }

    /** While the loop waits, the buffer has a free slot. */
    lemma RoomInBuffer()
      requires Valid() && machine.loop.Waiting?
      ensures len < storage.Length
    {
      TelemetryDelivery.ReachableInv(config, machine);
    }

    ghost function View(): Desk
      reads this`len, this`pending, this`disposals, this`flushes, this`cancelled, this`machine, storage
      requires len <= storage.Length
    {
      Desk(storage[..len], pending, disposals, flushes, cancelled, machine.loop.Stopped?)
    }

    /** The context is cancelled. */
    method CancelContext()
      requires Valid() && !cancelled
      modifies this`machine, this`cancelled
      ensures Valid() && cancelled && machine == old(machine).(cancelled := true)
    {
      cancelled := true;
      Follow(Cancel);
    }

    /** A message that cannot be queued any more is terminated if it is permanently bad, else asked for again. */
    method RefusePending(m: Pending)
      requires Valid() && machine.callback == Some(m) && cancelled
      modifies this`machine, this`disposals
      ensures Valid() && machine.callback.None? && machine.loop == old(machine).loop
      ensures disposals == old(disposals) + [Disposal(m.id, CallbackVerdict(m.content), None)]
      ensures disposals[|old(disposals)|].how == if m.content == Bad(Permanent) then Termed else Naked
    {
      if m.content.Bad? && m.content.failure == Permanent {
        disposals := disposals + [Disposal(m.id, Termed, None)];
      } else {
        disposals := disposals + [Disposal(m.id, Naked, None)];
      }
      Follow(Refuse);
    }

    /**
     The callback's select: the channel takes the message, or a loop that waits at the empty channel does, or, once
     the context is cancelled, the message is refused. While none of this is possible it blocks.
     */
    method EnqueuePending(m: Pending, loopWaits: bool) returns (how: Enqueuing)
      requires Valid() && machine.callback == Some(m) && loopWaits == machine.loop.Waiting?
      modifies this`machine, this`pending, this`disposals, this`len, storage
      ensures Valid() && flushes == old(flushes)
      ensures how == Blocked <==> machine.callback == Some(m)
      ensures match how
              case Queued =>
                |old(pending)| < 2 * config.batchSize && View() == old(View()).(channel := old(pending) + [m])
                && machine.loop == old(machine).loop
              case HandedOver =>
                loopWaits && old(pending) == [] && View() == old(View()).(buf := old(View()).buf + [m])
                && machine.loop == if len >= config.batchSize then Writing(false) else Waiting
              case Refused =>
                cancelled && machine.loop == old(machine).loop
                && View() == old(View()).(disposals := old(disposals) +
                                                       [Disposal(m.id, CallbackVerdict(m.content), None)])
              case Blocked =>
                !cancelled && |old(pending)| >= 2 * config.batchSize && !(loopWaits && old(pending) == [])
                && View() == old(View()) && machine == old(machine)
    {
      hide Reachable, Process, Rows;
      var refuse: bool, parked: bool := *, *;
      var full := |pending| >= 2 * config.batchSize;
      var direct := loopWaits && pending == [] && (parked || full);
      if cancelled && (refuse || (full && !direct)) {
        RefusePending(m);
        return Refused;
      }
      if direct {
        RoomInBuffer();
        storage[len] := m;
        len := len + 1;
        assert storage[..len] == old(storage[..len]) + [m];
        Follow(HandOver);
        return HandedOver;
      }
      if !full {
        pending := pending + [m];
        Follow(Enqueue);
        return Queued;
      }
      return Blocked;
    }

    /** Copies the rows of the buffered messages, so that the writer never sees the reused storage. */
    method CopyRows() returns (rows: seq<Row>)
      requires len <= storage.Length
      ensures rows == Rows(storage[..len])
    {
      rows := [];
      for i := 0 to len
        invariant rows == Rows(storage[..i])
      {
        assert storage[..i + 1][..i] == storage[..i];
        if storage[i].content.Good? {
          rows := rows + [storage[i].content.row];
        }
      }
    }

    /** Disposes of one message of the batch and counts it. */
    method DisposeOf(i: nat, writeFailed: bool)
      requires Valid() && i < len && flushes > 0
      requires machine.loop.Disposing? && machine.loop.next == i && machine.loop.ok == !writeFailed
      requires machine.loop.batch == flushes - 1
      modifies this`machine, this`disposals, this`written, this`writeErrors, this`parseErrors
      ensures Valid() && machine.loop == old(machine).loop.(next := i + 1)
      ensures disposals == old(disposals) +
              [Disposal(storage[i].id, FlushVerdict(storage[i].content, !writeFailed), Some(flushes - 1))]
      ensures machine.enqueued == old(machine).enqueued
    {
      hide Reachable, Process, Rows, Buffered;
      var m := storage[i];
      if m.content.Bad? {
        parseErrors := parseErrors + 1;
        disposals := disposals + [Disposal(m.id, Termed, Some(flushes - 1))];
      } else if writeFailed {
        writeErrors := writeErrors + 1;
        disposals := disposals + [Disposal(m.id, Naked, Some(flushes - 1))];
      } else {
        written := written + 1;
        disposals := disposals + [Disposal(m.id, Acked, Some(flushes - 1))];
      }
      Follow(DisposeNext);
    }

    /** Disposes of the messages of the batch one by one, after its write. */
    method DisposeBatch(writeFailed: bool)
      requires Valid() && flushes > 0 && machine.loop.Disposing? && machine.loop.next == 0
      requires machine.loop.ok == !writeFailed && machine.loop.batch == flushes - 1
      modifies this`machine, this`disposals, this`written, this`writeErrors, this`parseErrors
      ensures Valid() && machine.loop == old(machine).loop.(next := len)
      ensures disposals == old(disposals) + FlushDisposals(storage[..len], !writeFailed, flushes - 1)
      ensures machine.enqueued == old(machine).enqueued
    {
      hide Reachable, Process, Rows, Buffered, FlushDisposals, FlushVerdict;
      ghost var msgs := storage[..len];
      NothingDisposed(msgs, !writeFailed, flushes - 1);
      for i := 0 to len
        invariant Valid() && machine.loop == old(machine).loop.(next := i)
        invariant disposals == old(disposals) + FlushDisposals(msgs[..i], !writeFailed, flushes - 1)
        invariant machine.enqueued == old(machine).enqueued
      {
        DisposeOf(i, writeFailed);
        FlushDisposalsSnoc(msgs, i, !writeFailed, flushes - 1);
      }
      assert msgs[..len] == msgs;
    }

    /**
     Writes the valid rows of the batch and disposes of its messages one by one. `rows` is what the writer was
     called with; without rows it is not called and nothing can fail.
     */
    method WriteBatch(writerOk: bool) returns (rows: seq<Row>)
      requires Valid() && machine.loop.Writing?
      modifies this`machine, this`flushes, this`disposals, this`written, this`writeErrors, this`parseErrors
      ensures Valid() && rows == Rows(storage[..len]) && flushes == old(flushes) + 1
      ensures machine.loop == Disposing(writerOk || rows == [], len, old(flushes), old(machine).loop.stopping)
      ensures disposals == old(disposals) + FlushDisposals(storage[..len], writerOk || rows == [], old(flushes))
      ensures DisposesRightly(disposals[|old(disposals)|..], storage[..len], writerOk, old(flushes))
      ensures machine.enqueued == old(machine).enqueued
    {
      hide Reachable, Process, Rows, Buffered, FlushDisposals, FlushVerdict, DisposesRightly;
      rows := CopyRows();
      var writeFailed := rows != [] && !writerOk;
      flushes := flushes + 1;
      Follow(Write(!writeFailed));
      DisposeBatch(writeFailed);
      FlushDisposalsMean(storage[..len], writerOk, old(flushes));
      assert disposals[|old(disposals)|..] == FlushDisposals(storage[..len], writerOk || rows == [], old(flushes));
    }

    /** A flush of a non-empty buffer; afterwards the storage is free for the next messages. */
    method Flush(writerOk: bool)
      requires Valid() && machine.loop.Writing? && len > 0
      modifies this`machine, this`flushes, this`disposals, this`written, this`writeErrors, this`parseErrors, this`len
      ensures Valid() && len == 0 && flushes == old(flushes) + 1
      ensures View() == Flushing(old(View()), writerOk).(stopped := old(machine).loop.stopping)
      ensures machine.loop == if old(machine).loop.stopping then Stopped else Waiting
      ensures machine.enqueued == old(machine).enqueued
    {
      var rows := WriteBatch(writerOk);
      len := 0;
      Follow(EndFlush);
    }

    /** Takes the oldest message from the channel into the buffer, and flushes a full one. */
    method TakeMessage(writerOk: bool)
      requires Valid() && machine.loop.Waiting? && pending != [] && len < storage.Length
      modifies this`machine, this`pending, this`flushes, this`disposals, this`written, this`writeErrors
      modifies this`parseErrors, this`len, storage
      ensures Valid() && machine.loop.Waiting?
      ensures View() == Turn(config.batchSize, old(View()), Message(writerOk))
      ensures pending == old(pending)[1..]
      ensures if old(len) + 1 < config.batchSize
              then storage[..len] == old(storage[..len]) + [old(pending)[0]] && flushes == old(flushes)
              else len == 0 && flushes == old(flushes) + 1
      ensures machine.enqueued == old(machine).enqueued
    {
      hide FlushDisposals, Rows, Reachable, Process;
      storage[len] := pending[0];
      len := len + 1;
      pending := pending[1..];
      assert storage[..len] == old(storage[..len]) + [old(pending)[0]];
      Follow(Take);
      if len >= config.batchSize {
        Flush(writerOk);
      }
    }

    /** A tick or a cancellation flushes what is buffered, if anything. */
    method FlushBuffered(writerOk: bool, stopping: bool)
      requires Valid() && machine.loop.Waiting? && (stopping ==> cancelled)
      modifies this`machine, this`flushes, this`disposals, this`written, this`writeErrors, this`parseErrors, this`len
      ensures Valid()
      ensures View() == Flushing(old(View()), writerOk).(stopped := stopping)
      ensures len == 0 && flushes == old(flushes) + (if old(len) > 0 then 1 else 0)
      ensures machine.loop == if stopping then Stopped else Waiting
      ensures machine.enqueued == old(machine).enqueued
    {
      hide Reachable, Process, Rows, FlushDisposals;
      if stopping {
        Follow(FinalFlush);
      } else if len > 0 {
        Follow(TimerFlush);
      }
      if len > 0 {
        Flush(writerOk);
      }
    }

    /** One turn of the loop. */
    method TakeTurn(choice: Choice) returns (took: bool, stopped: bool)
      requires Valid() && machine.loop.Waiting?
      modifies this`machine, this`pending, this`flushes, this`disposals, this`written, this`writeErrors
      modifies this`parseErrors, this`len, this`cancelled, storage
      ensures Valid() && if stopped then machine.loop.Stopped? && len == 0 else machine.loop.Waiting?
      ensures View() == Turn(config.batchSize, old(View()), choice)
      ensures took <==> choice.Message? && old(pending) != []
      ensures stopped <==> choice.Done? && old(cancelled)
      ensures cancelled <==> old(cancelled) || choice.Cancellation?
      ensures choice.Ticker? || stopped ==> len == 0
      ensures if took then old(pending) != [] && pending == old(pending)[1..] else pending == old(pending)
      ensures machine.enqueued == old(machine).enqueued
    {
      hide Reachable, Process, Rows, FlushDisposals;
      took, stopped := false, false;
      match choice
      case Cancellation =>
        if !cancelled {
          CancelContext();
        }
      case Message(writerOk) =>
        if pending != [] {
          RoomInBuffer();
          TakeMessage(writerOk);
          took := true;
        }
      case Ticker(writerOk) => FlushBuffered(writerOk, false);
      case Done(writerOk) =>
        if cancelled {
          FlushBuffered(writerOk, true);
          stopped := true;
        }
    }

    lemma DisposedInOrder(before: State, taken: nat)
      requires Valid() && Reachable(config, before) && before.loop.Waiting?
      requires machine.loop.Waiting? || machine.loop.Stopped?
      requires machine.enqueued == before.enqueued
      requires taken <= |before.channel| && pending == before.channel[taken..]
      ensures FlushedIds(disposals) + Ids(storage[..len]) ==
              FlushedIds(before.disposals) + Ids(before.buf + before.channel[..taken])
    {
      hide FlushedIds, Ids;
      TelemetryDelivery.FlushesDisposeInOrder(config, before);
      TelemetryDelivery.FlushesDisposeInOrder(config, machine);
      var x, y := before.channel[..taken], before.channel[taken..];
      assert before.channel == x + y && before.buf + (x + y) == (before.buf + x) + y;
      IdsJoin(before.buf + x, y);
      IdsJoin(storage[..len], y);
      var a, b := FlushedIds(disposals) + Ids(storage[..len]), FlushedIds(before.disposals) + Ids(before.buf + x);
      var z := Ids(y);
      assert FlushedIds(disposals) + (Ids(storage[..len]) + z) == a + z;
      assert FlushedIds(before.disposals) + (Ids(before.buf + x) + z) == b + z;
      SameTail(a, b, z);
    }

    /**
     The flush loop over a schedule of select outcomes: a message when there is one, the ticker, or cancellation,
     which ends the loop. Whatever the schedule, the messages taken are disposed of once each, in channel order,
     and those still buffered are next; after cancellation none is.
     */
    method FlushLoop(schedule: seq<Choice>) returns (taken: nat, stopped: bool)
      requires Valid() && machine.loop.Waiting?
      modifies this`machine, this`pending, this`flushes, this`disposals, this`written, this`writeErrors
      modifies this`parseErrors, this`len, this`cancelled, storage
      ensures Valid() && View() == Turns(config.batchSize, old(View()), schedule)
      ensures if stopped then machine.loop.Stopped? && len == 0 else machine.loop.Waiting?
      ensures taken <= |old(pending)| && pending == old(pending)[taken..]
      ensures FlushedIds(disposals) + Ids(storage[..len]) ==
              FlushedIds(old(disposals)) + Ids(old(storage[..len]) + old(pending)[..taken])
    {
      hide Reachable, Process, Rows, FlushDisposals, FlushedIds, Ids, Turn, Turns;
      taken, stopped := 0, false;
      ghost var before, desk := machine, View();
      NoTurns(config.batchSize, desk, schedule);
      for i := 0 to |schedule|
        invariant Valid() && machine.enqueued == before.enqueued
        invariant taken <= |old(pending)| && pending == old(pending)[taken..]
        invariant !stopped && machine.loop.Waiting?
        invariant View() == Turns(config.batchSize, desk, schedule[..i])
      {
        TurnsSnoc(config.batchSize, desk, schedule, i);
        var took;
        took, stopped := TakeTurn(schedule[i]);
        taken := if took then taken + 1 else taken;
        if stopped {
          StoppedStays(config.batchSize, desk, schedule, i + 1);
          break;
        }
      }
      assert schedule[..|schedule|] == schedule;
      DisposedInOrder(before, taken);
    }
  }
}
