/**
 Status updates over every interleaving: how the attempted updates of a key relate to its tracked status,
 where they repeat themselves, how they travel through the bounded channel, and what the Management API
 ends up believing.
 */
module HeartbeatStatus {
  import opened Common
  import opened Heartbeat
  import opened HeartbeatHistory
  import HeartbeatAlerts

  // ------------------------------------------------------------------------------------------------
  // Attempted updates of one key
  // ------------------------------------------------------------------------------------------------

  predicate IsAttempt(e: Event, key: Key) { CameOnline(e, key) || IsOfflineSent(e, key) }

  /** The statuses attempted for a key, oldest first. */
  function Sent(log: History, key: Key): seq<Status>
    decreases |log|
  {
    if log == [] then []
    else
      var e, before := log[|log| - 1], Sent(log[..|log| - 1], key);
      if CameOnline(e, key) then before + [Online]
      else if IsOfflineSent(e, key) then before + [Offline]
      else before
  }

  function LastSent(log: History, key: Key): Option<Status> {
    var sent := Sent(log, key);
    if sent == [] then None else Some(sent[|sent| - 1])
  }

  /** The key was registered since its latest Offline update was attempted. */
  predicate SeenSinceSent(log: History, key: Key)
    decreases |log|
  {
    log != [] &&
    var e := log[|log| - 1];
    !IsOfflineSent(e, key) && (IsFirstSeen(e, key) || SeenSinceSent(log[..|log| - 1], key))
  }

  /** The current Offline mark of the key hit a registration that came after the Offline update it belongs to. */
  predicate LateMark(log: History, key: Key)
    decreases |log|
  {
    log != [] &&
    var e, before := log[|log| - 1], log[..|log| - 1];
    !CameOnline(e, key) && (if IsMarked(e, key) then SeenSinceSent(before, key) else LateMark(before, key))
  }

  lemma SentSnoc(log: History, e: Event, key: Key)
    ensures Sent(log + [e], key) ==
            Sent(log, key) + (if CameOnline(e, key) then [Online] else if IsOfflineSent(e, key) then [Offline] else [])
    ensures SeenSinceSent(log + [e], key) <==>
            !IsOfflineSent(e, key) && (IsFirstSeen(e, key) || SeenSinceSent(log, key))
    ensures LateMark(log + [e], key) <==>
            !CameOnline(e, key) && (if IsMarked(e, key) then SeenSinceSent(log, key) else LateMark(log, key))
  {
    assert (log + [e])[..|log|] == log;
  }

  /** Between the attempt of an Offline update for the key and the key's mark. */
  predicate InWindow(p: Phase, key: Key) {
    p.Dispatched? && p.entry.Id() == key
  }

  /** What was last sent about a tracked key, given where its status and the running Tick stand. */
  ghost predicate SentTellsStatus(s: State, key: Key)
    requires key in s.beats
  {
    var status, last, late := s.beats[key].knownStatus, LastSent(s.log, key), LateMark(s.log, key);
    if InWindow(s.phase, key) then
      status == Online && last == Some(if SeenSinceSent(s.log, key) then Online else Offline)
    else
      && (status == Online ==> !late)
      && last == Some(if status == Online || late then Online else Offline)
  }

  /** Nothing Offline is sent or marked for an entry before the Tick gets to it. */
  ghost predicate StillOnline(s: State, key: Key) {
    && LastSent(s.log, key) == Some(Online)
    && (key in s.beats ==> s.beats[key].knownStatus == Online)
  }

  /** The entries an Offline update may still be sent for. */
  function Undispatched(p: Phase): seq<Entry> {
    match p
    case Evaluating(_, todo) => todo
    case Announced(_, todo, e) => [e] + todo
    case Dispatched(_, todo, _) => todo
    case _ => []
  }

  ghost predicate MapAgrees(s: State) {
    forall k :: k in s.beats ==> SentTellsStatus(s, k)
  }

  ghost predicate UndispatchedOnline(s: State) {
    var todo := Undispatched(s.phase);
    forall i :: 0 <= i < |todo| && todo[i].knownStatus == Online ==> StillOnline(s, todo[i].Id())
  }

  /** Where the event of a step, if any, leaves the window of one key. */
  ghost predicate WindowEffect(s: State, t: State, e: Option<Event>, key: Key) {
    if e.Some? && IsOfflineSent(e.value, key) then InWindow(t.phase, key)
    else if e.Some? && IsMarked(e.value, key) then InWindow(s.phase, key) && !InWindow(t.phase, key)
    else InWindow(t.phase, key) == InWindow(s.phase, key)
  }

  ghost predicate KeyEffect(s: State, t: State, e: Option<Event>, key: Key) {
    MapEffect(s, t, e, key) && WindowEffect(s, t, e, key)
  }

  lemma StepEffect(c: Config, s: State, step: Step, key: Key)
    requires Enabled(c, s, step)
    ensures KeyEffect(s, Apply(c, s, step), Logged(c, s, step), key)
  {
    StepMapEffect(c, s, step, key);
    LogGrows(c, s, step);
    assert WindowEffect(s, Apply(c, s, step), Logged(c, s, step), key);
  }

  lemma SentTellsStatusKept(s: State, t: State, e: Option<Event>, key: Key)
    requires KeyEffect(s, t, e, key) && key in t.beats
    requires key in s.beats ==> SentTellsStatus(s, key)
    requires e.Some? && IsOfflineSent(e.value, key) ==> StillOnline(s, key)
    ensures SentTellsStatus(t, key)
  {
    if e.Some? { SentSnoc(s.log, e.value, key); }
  }

  /** An Offline update is only sent for an entry that was Online when the snapshot was taken. */
  lemma SentForStillOnline(c: Config, s: State, step: Step, key: Key)
    requires HistoryInv(s) && UndispatchedOnline(s) && Enabled(c, s, step)
    requires Logged(c, s, step).Some? && IsOfflineSent(Logged(c, s, step).value, key)
    ensures StillOnline(s, key)
  {
    LogGrows(c, s, step);
    assert Undispatched(s.phase)[0] == s.phase.entry;
  }

  lemma MapAgreesKept(c: Config, s: State, step: Step)
    requires HistoryInv(s) && MapAgrees(s) && UndispatchedOnline(s) && Enabled(c, s, step)
    ensures MapAgrees(Apply(c, s, step))
  {
    var t, e := Apply(c, s, step), Logged(c, s, step);
    forall k | k in t.beats ensures SentTellsStatus(t, k) {
      StepEffect(c, s, step, k);
      if e.Some? && IsOfflineSent(e.value, k) { SentForStillOnline(c, s, step, k); }
      SentTellsStatusKept(s, t, e, k);
    }
  }

  /** `Undispatched` only loses entries, except when a snapshot is taken. */
  lemma UndispatchedShrinks(c: Config, s: State, step: Step)
    requires Enabled(c, s, step) && !step.TakeSnapshot?
    ensures var p, q := Undispatched(s.phase), Undispatched(Apply(c, s, step).phase);
            q == p || (p != [] && q == p[1..])
    ensures var p, q := Pending(s.phase), Undispatched(s.phase);
            q == p || (p != [] && s.phase.Dispatched? && q == p[1..])
  {
    var p, q := Undispatched(s.phase), Undispatched(Apply(c, s, step).phase);
    if step.Evaluate? && q != p[1..] {
      assert q == [p[0]] + p[1..] == p;
    }
  }

  lemma StillOnlineKept(s: State, t: State, e: Option<Event>, key: Key)
    requires KeyEffect(s, t, e, key) && StillOnline(s, key)
    requires e.Some? ==> !IsOfflineSent(e.value, key) && !IsMarked(e.value, key)
    ensures StillOnline(t, key)
  {
    if e.Some? { SentSnoc(s.log, e.value, key); }
  }

  /** An entry that may still be dispatched after a step was fit to be dispatched before it. */
  lemma UndispatchedBefore(c: Config, s: State, step: Step, i: nat)
    requires HistoryInv(s) && MapAgrees(s) && UndispatchedOnline(s) && Enabled(c, s, step)
    requires var todo := Undispatched(Apply(c, s, step).phase);
             i < |todo| && todo[i].knownStatus == Online
    ensures var k, e := Undispatched(Apply(c, s, step).phase)[i].Id(), Logged(c, s, step);
            StillOnline(s, k) && (e.Some? ==> !IsOfflineSent(e.value, k) && !IsMarked(e.value, k))
  {
    LogGrows(c, s, step);
    var todo, before, pending := Undispatched(Apply(c, s, step).phase), Undispatched(s.phase), Pending(s.phase);
    var k := todo[i].Id();
    if step.TakeSnapshot? {
      var _ := TrackedIsLatestHeard(s.log, step.order[i]);
      assert SentTellsStatus(s, k);
    } else {
      UndispatchedShrinks(c, s, step);
      var d := if todo == before then i else i + 1;
      assert todo[i] == before[d];
      if step.Dispatch? || step.Mark? {
        assert pending[0] == s.phase.entry && todo[i] == pending[i + 1];
      }
    }
  }

  lemma UndispatchedKept(c: Config, s: State, step: Step)
    requires HistoryInv(s) && MapAgrees(s) && UndispatchedOnline(s) && Enabled(c, s, step)
    ensures UndispatchedOnline(Apply(c, s, step))
  {
    var t, e := Apply(c, s, step), Logged(c, s, step);
    var todo := Undispatched(t.phase);
    forall i | 0 <= i < |todo| && todo[i].knownStatus == Online
      ensures StillOnline(t, todo[i].Id())
    {
      var k := todo[i].Id();
      UndispatchedBefore(c, s, step, i);
      StepEffect(c, s, step, k);
      StillOnlineKept(s, t, e, k);
    }
  }

  // ------------------------------------------------------------------------------------------------
  // Offline updates never repeat; when all updates alternate
  // ------------------------------------------------------------------------------------------------

  predicate Alternates(sent: seq<Status>) {
    forall i :: 0 <= i < |sent| ==> sent[i] == if i % 2 == 0 then Online else Offline
  }

  lemma AlternatesSnoc(sent: seq<Status>, next: Status)
    ensures Alternates(sent + [next]) <==>
            Alternates(sent) && next == if sent == [] || sent[|sent| - 1] == Offline then Online else Offline
  {
    var longer := sent + [next];
    if Alternates(longer) {
      assert forall i :: 0 <= i < |sent| ==> longer[i] == sent[i];
      assert longer[|sent|] == next;
    }
  }

  /** The latest Offline update of the key has not been followed by its mark yet. */
  predicate OpenWindow(log: History, key: Key)
    decreases |log|
  {
    log != [] &&
    var e := log[|log| - 1];
    IsOfflineSent(e, key) || (!IsMarked(e, key) && OpenWindow(log[..|log| - 1], key))
  }

  /**
   The key is tracked, and as Online in the eyes of the receiver of its updates: it is Online and not in a window
   that began after its registration, or its Offline mark overtook a registration.
   */
  predicate ReportedOnline(log: History, key: Key) {
    match Tracked(log, key)
    case None => false
    case Some(e) =>
      if e.knownStatus == Offline then LateMark(log, key) else OpenWindow(log, key) ==> SeenSinceSent(log, key)
  }

  /** The decommission at `r` took away an entry that was reported Online, and no update was attempted up to `i`. */
  predicate RemovedOnline(log: History, key: Key, r: nat, i: nat)
    requires i <= |log|
  {
    && r < i && IsRemoved(log[r], key) && ReportedOnline(log[..r], key)
    && forall x :: r < x < i ==> !IsAttempt(log[x], key)
  }

  /**
   Position `i` registers a key that was decommissioned while reported Online, or recovers one whose Offline mark
   overtook a registration.
   */
  ghost predicate RepeatsOnline(log: History, key: Key, i: nat)
    requires i < |log|
  {
    if IsFirstSeen(log[i], key) then exists r: nat :: RemovedOnline(log, key, r, i)
    else CameOnline(log[i], key) && LateMark(log[..i], key)
  }

  ghost predicate NeverRepeats(log: History, key: Key) {
    forall i :: 0 <= i < |log| ==> !RepeatsOnline(log, key, i)
  }

  /** At every point of the history, a tracked key is reported Online exactly if the last update says so. */
  ghost predicate ReportsAreTrue(log: History) {
    forall k, i :: 0 <= i <= |log| && Tracked(log[..i], k).Some? ==>
      (ReportedOnline(log[..i], k) <==> LastSent(log[..i], k) == Some(Online))
  }

  ghost predicate WindowTellsPhase(s: State) {
    forall k :: OpenWindow(s.log, k) <==> InWindow(s.phase, k)
  }

  lemma WindowKept(c: Config, s: State, step: Step)
    requires WindowTellsPhase(s) && Enabled(c, s, step)
    ensures WindowTellsPhase(Apply(c, s, step))
  {
    var t, e := Apply(c, s, step), Logged(c, s, step);
    LogGrows(c, s, step);
    forall k ensures OpenWindow(t.log, k) <==> InWindow(t.phase, k) {
      StepEffect(c, s, step, k);
      if e.Some? { assert t.log[..|s.log|] == s.log; }
    }
  }

  lemma ReportsKept(c: Config, s: State, step: Step)
    requires ReportsAreTrue(s.log) && Enabled(c, s, step)
    requires var t := Apply(c, s, step); MapTellsHistory(t) && MapAgrees(t) && WindowTellsPhase(t)
    ensures ReportsAreTrue(Apply(c, s, step).log)
  {
    LogGrows(c, s, step);
    var t := Apply(c, s, step);
    forall k, i | 0 <= i <= |t.log| && Tracked(t.log[..i], k).Some?
      ensures ReportedOnline(t.log[..i], k) <==> LastSent(t.log[..i], k) == Some(Online)
    {
      if i <= |s.log| {
        assert t.log[..i] == s.log[..i];
      } else {
        assert t.log[..i] == t.log;
        assert SentTellsStatus(t, k);
      }
    }
  }

  /** Without an attempt, the last update stays what it is. */
  lemma {:induction false} LastSentStays(log: History, key: Key, r: nat)
    requires r <= |log| && forall x :: r <= x < |log| ==> !IsAttempt(log[x], key)
    ensures LastSent(log, key) == LastSent(log[..r], key)
    decreases |log|
  {
    if r < |log| {
      assert log[..|log| - 1][..r] == log[..r];
      LastSentStays(log[..|log| - 1], key, r);
    } else {
      assert log[..r] == log;
    }
  }

  /** An untracked key whose last update was Online lost an entry that was reported Online. */
  lemma {:induction false} FindRemoval(log: History, key: Key) returns (r: nat)
    requires ReportsAreTrue(log) && Tracked(log, key).None? && LastSent(log, key) == Some(Online)
    ensures RemovedOnline(log, key, r, |log|)
    decreases |log|
  {
    var before := log[..|log| - 1];
    assert forall i :: 0 <= i <= |before| ==> log[..i] == before[..i];
    if Tracked(before, key).Some? {
      r := |before|;
      assert before[..|before|] == before;
    } else {
      r := FindRemoval(before, key);
      assert log[..r] == before[..r];
    }
  }

  lemma RemovalIsTheCause(log: History, key: Key)
    requires ReportsAreTrue(log) && Tracked(log, key).None?
    ensures LastSent(log, key) == Some(Online) <==> exists r: nat :: RemovedOnline(log, key, r, |log|)
  {
    if LastSent(log, key) == Some(Online) {
      var r := FindRemoval(log, key);
    } else if r: nat :| RemovedOnline(log, key, r, |log|) {
      LastSentStays(log, key, r);
    }
  }

  ghost predicate OfflinesApart(log: History) {
    forall k, i, j :: 0 <= i < j < |log| && IsOfflineSent(log[i], k) && IsOfflineSent(log[j], k) ==>
      exists m :: i < m < j && CameOnline(log[m], k)
  }

  lemma RemovedOnlineBefore(log: History, e: Event, key: Key, r: nat, i: nat)
    requires i <= |log|
    ensures RemovedOnline(log + [e], key, r, i) <==> RemovedOnline(log, key, r, i)
  {
    assert r < i ==> (log + [e])[..r] == log[..r];
    assert forall x :: 0 <= x < i ==> (log + [e])[x] == log[x];
  }

  lemma NeverRepeatsSnoc(log: History, e: Event, key: Key)
    ensures NeverRepeats(log + [e], key) <==> NeverRepeats(log, key) && !RepeatsOnline(log + [e], key, |log|)
  {
    var longer := log + [e];
    assert longer[..|log|] == log;
    forall i | 0 <= i < |log| ensures RepeatsOnline(longer, key, i) <==> RepeatsOnline(log, key, i) {
      assert longer[..i] == log[..i] && longer[i] == log[i];
      forall r: nat ensures RemovedOnline(longer, key, r, i) <==> RemovedOnline(log, key, r, i) {
        RemovedOnlineBefore(log, e, key, r, i);
      }
    }
  }

  ghost predicate AlternationIsExact(log: History) {
    forall k :: Alternates(Sent(log, k)) <==> NeverRepeats(log, k)
  }

  /** What the last update was decides whether an event repeats it. */
  lemma RepeatsByLastSent(s: State, t: State, e: Event, key: Key)
    requires KeyEffect(s, t, Some(e), key) && MapTellsHistory(s) && ReportsAreTrue(s.log)
    requires key in s.beats ==> SentTellsStatus(s, key)
    ensures RepeatsOnline(t.log, key, |s.log|) <==> CameOnline(e, key) && LastSent(s.log, key) == Some(Online)
  {
    assert t.log[..|s.log|] == s.log;
    if IsFirstSeen(e, key) {
      RemovalIsTheCause(s.log, key);
      forall r: nat ensures RemovedOnline(t.log, key, r, |s.log|) <==> RemovedOnline(s.log, key, r, |s.log|) {
        RemovedOnlineBefore(s.log, e, key, r, |s.log|);
      }
    }
  }

  lemma AlternationSnoc(s: State, t: State, e: Event, key: Key)
    requires KeyEffect(s, t, Some(e), key) && MapTellsHistory(s) && ReportsAreTrue(s.log)
    requires key in s.beats ==> SentTellsStatus(s, key)
    requires IsOfflineSent(e, key) ==> StillOnline(s, key)
    requires Alternates(Sent(s.log, key)) <==> NeverRepeats(s.log, key)
    ensures Alternates(Sent(t.log, key)) <==> NeverRepeats(t.log, key)
  {
    hide RepeatsOnline, NeverRepeats, Alternates;
    SentSnoc(s.log, e, key);
    NeverRepeatsSnoc(s.log, e, key);
    RepeatsByLastSent(s, t, e, key);
    if CameOnline(e, key) { AlternatesSnoc(Sent(s.log, key), Online); }
    if IsOfflineSent(e, key) { AlternatesSnoc(Sent(s.log, key), Offline); }
  }

  lemma AlternationKept(c: Config, s: State, step: Step)
    requires HistoryInv(s) && MapAgrees(s) && UndispatchedOnline(s) && ReportsAreTrue(s.log)
    requires AlternationIsExact(s.log) && Enabled(c, s, step)
    ensures AlternationIsExact(Apply(c, s, step).log)
  {
    hide RepeatsOnline, NeverRepeats, Alternates;
    var t, e := Apply(c, s, step), Logged(c, s, step);
    LogGrows(c, s, step);
    forall k | e.Some? ensures Alternates(Sent(t.log, k)) <==> NeverRepeats(t.log, k) {
      StepEffect(c, s, step, k);
      if IsOfflineSent(e.value, k) { SentForStillOnline(c, s, step, k); }
      AlternationSnoc(s, t, e.value, k);
    }
  }

  lemma {:induction false} OnlineSentAfter(log: History, key: Key, i: nat) returns (m: nat)
    requires LastSent(log, key) == Some(Online) && i < |log| && IsOfflineSent(log[i], key)
    ensures i < m < |log| && CameOnline(log[m], key)
    decreases |log|
  {
    if CameOnline(log[|log| - 1], key) {
      m := |log| - 1;
    } else {
      m := OnlineSentAfter(log[..|log| - 1], key, i);
    }
  }

  lemma OfflinesApartKept(c: Config, s: State, step: Step)
    requires HistoryInv(s) && UndispatchedOnline(s) && OfflinesApart(s.log) && Enabled(c, s, step)
    ensures OfflinesApart(Apply(c, s, step).log)
  {
    LogGrows(c, s, step);
    var log := Apply(c, s, step).log;
    forall k, i, j | 0 <= i < j < |log| && IsOfflineSent(log[i], k) && IsOfflineSent(log[j], k)
      ensures exists m :: i < m < j && CameOnline(log[m], k)
    {
      if j < |s.log| {
        var m :| i < m < j && CameOnline(s.log[m], k);
        assert CameOnline(log[m], k);
      } else {
        assert Undispatched(s.phase)[0] == s.phase.entry && StillOnline(s, k);
        var m := OnlineSentAfter(s.log, k, i);
        assert CameOnline(log[m], k);
      }
    }
  }

  // ------------------------------------------------------------------------------------------------
  // Conservation through the channel
  // ------------------------------------------------------------------------------------------------

  datatype Attempt = Attempt(update: StatusUpdate, queued: bool)

  /** Every status update ever attempted, in order, with the outcome of its send. */
  function Attempts(log: History): seq<Attempt>
    decreases |log|
  {
    if log == [] then []
    else
      var e, before := log[|log| - 1], Attempts(log[..|log| - 1]);
      if e.Heard? && e.hearing != Refreshed
      then before + [Attempt(StatusUpdate(e.key.gatewayID, Online, e.at), e.queued)]
      else if e.OfflineSent?
      then before + [Attempt(StatusUpdate(e.key.gatewayID, Offline, e.lastSeen), e.queued)]
      else before
  }

  /** The attempted updates without the dropped ones. */
  function Kept(attempts: seq<Attempt>): seq<StatusUpdate> {
    if attempts == [] then []
    else
      var a := attempts[|attempts| - 1];
      Kept(attempts[..|attempts| - 1]) + (if a.queued then [a.update] else [])
  }

  function Updates(delivered: seq<Delivery>): seq<StatusUpdate> {
    seq(|delivered|, i requires 0 <= i < |delivered| => delivered[i].update)
  }

  function HandOf(s: State): seq<StatusUpdate> {
    if s.inHand.Some? then [s.inHand.value] else []
  }

  ghost predicate Conserved(c: Config, s: State) {
    && Kept(Attempts(s.log)) == Updates(s.delivered) + HandOf(s) + s.queue
    && |Attempts(s.log)| == |s.delivered| + |HandOf(s)| + |s.queue| + s.dropped
    && |s.queue| <= c.capacity
    && (s.exited ==> s.closed && s.inHand.None? && s.queue == [])
  }

  lemma AttemptsSnoc(log: History, e: Event)
    ensures Attempts(log + [e]) == Attempts(log) +
            if e.Heard? && e.hearing != Refreshed
            then [Attempt(StatusUpdate(e.key.gatewayID, Online, e.at), e.queued)]
            else if e.OfflineSent? then [Attempt(StatusUpdate(e.key.gatewayID, Offline, e.lastSeen), e.queued)]
            else []
  {
    assert (log + [e])[..|log|] == log;
  }

  lemma KeptSnoc(attempts: seq<Attempt>, a: Attempt)
    ensures Kept(attempts + [a]) == Kept(attempts) + if a.queued then [a.update] else []
  {
    assert (attempts + [a])[..|attempts|] == attempts;
  }

  /** A send either appends to what the worker will see, or counts as dropped. */
  lemma SendConserves(c: Config, s: State, t: State, e: Event, u: StatusUpdate, queued: bool)
    requires Conserved(c, s) && SendOutcome(c, s, queued) && !s.closed
    requires t.log == s.log + [e] && t.delivered == s.delivered && t.exited == s.exited
    requires var sent := Send(c, s, u, queued);
             t.inHand == sent.inHand && t.queue == sent.queue && t.dropped == sent.dropped
    requires || (e.Heard? && e.hearing != Refreshed && u == StatusUpdate(e.key.gatewayID, Online, e.at))
             || (e.OfflineSent? && u == StatusUpdate(e.key.gatewayID, Offline, e.lastSeen))
    requires e.queued == queued
    ensures Conserved(c, t)
  {
    AttemptsSnoc(s.log, e);
    KeptSnoc(Attempts(s.log), Attempt(u, queued));
    assert !queued ==> Kept(Attempts(t.log)) == Kept(Attempts(s.log));
  }

  lemma HeadMoves<T>(a: seq<T>, q: seq<T>)
    requires q != []
    ensures a + [] + q == a + [q[0]] + q[1..]
  {
    assert q == [q[0]] + q[1..];
  }

  lemma WorkerTakesConserves(c: Config, s: State)
    requires Conserved(c, s) && Enabled(c, s, WorkerTakes)
    ensures Conserved(c, Apply(c, s, WorkerTakes))
  {
    HeadMoves(Updates(s.delivered), s.queue);
  }

  lemma WorkerFinishesConserves(c: Config, s: State, ok: bool)
    requires Conserved(c, s) && Enabled(c, s, WorkerFinishes(ok))
    ensures Conserved(c, Apply(c, s, WorkerFinishes(ok)))
  {
    assert Updates(Apply(c, s, WorkerFinishes(ok)).delivered) == Updates(s.delivered) + HandOf(s);
  }

  /** Steps that neither send nor work on the channel leave both sides of the balance alone. */
  lemma OthersConserve(c: Config, s: State, step: Step)
    requires Conserved(c, s) && Enabled(c, s, step)
    requires !step.WorkerTakes? && !step.WorkerFinishes? && !step.Dispatch?
    requires step.CommitTelemetry? ==> HearingOf(s.beats, step.call.key) == Refreshed
    ensures Conserved(c, Apply(c, s, step))
  {
    LogGrows(c, s, step);
    var e := Logged(c, s, step);
    if e.Some? { AttemptsSnoc(s.log, e.value); }
    assert Attempts(Apply(c, s, step).log) == Attempts(s.log);
  }

  lemma ConservedKept(c: Config, s: State, step: Step)
    requires Conserved(c, s) && Enabled(c, s, step)
    ensures Conserved(c, Apply(c, s, step))
  {
    if step.CommitTelemetry? && HearingOf(s.beats, step.call.key) != Refreshed {
      LogGrows(c, s, step);
      SendConserves(c, s, Apply(c, s, step), Logged(c, s, step).value,
                    StatusUpdate(step.call.key.gatewayID, Online, step.call.now), step.queued);
    } else if step.Dispatch? {
      LogGrows(c, s, step);
      SendConserves(c, s, Apply(c, s, step), Logged(c, s, step).value,
                    StatusUpdate(s.phase.entry.gatewayID, Offline, s.phase.entry.lastSeen), step.queued);
    } else if step.WorkerTakes? {
      WorkerTakesConserves(c, s);
    } else if step.WorkerFinishes? {
      WorkerFinishesConserves(c, s, step.ok);
    } else {
      OthersConserve(c, s, step);
    }
  }

  // ------------------------------------------------------------------------------------------------
  // The invariant over runs
  // ------------------------------------------------------------------------------------------------

  ghost predicate StatusInv(c: Config, s: State) {
    && HistoryInv(s)
    && MapAgrees(s)
    && UndispatchedOnline(s)
    && OfflinesApart(s.log)
    && WindowTellsPhase(s)
    && ReportsAreTrue(s.log)
    && AlternationIsExact(s.log)
    && Conserved(c, s)
  }

  lemma {:induction false} StatusInvHolds(c: Config, steps: seq<Step>, s: State)
    requires Exec(c, Init(c), steps) == Some(s)
    ensures StatusInv(c, s)
    decreases |steps|
  {
    if steps != [] {
      var before, step := Exec(c, Init(c), steps[..|steps| - 1]).value, steps[|steps| - 1];
      StatusInvHolds(c, steps[..|steps| - 1], before);
      MapKept(c, before, step);
      SnapshotKept(c, before, step);
      MapAgreesKept(c, before, step);
      UndispatchedKept(c, before, step);
      OfflinesApartKept(c, before, step);
      WindowKept(c, before, step);
      ReportsKept(c, before, step);
      AlternationKept(c, before, step);
      ConservedKept(c, before, step);
    }
  }

  lemma ReachableStatusInv(c: Config, s: State)
    requires Reachable(c, s)
    ensures StatusInv(c, s)
  {
    var steps :| Exec(c, Init(c), steps) == Some(s);
    StatusInvHolds(c, steps, s);
  }

  // ------------------------------------------------------------------------------------------------
  // Theorems
  // ------------------------------------------------------------------------------------------------

  /** Registration `m` of the key fell between an Offline update and its mark `j`; it did not come Online since. */
  ghost predicate RegisteredInWindow(log: History, key: Key, m: nat, j: nat) {
    && m < j < |log|
    && IsFirstSeen(log[m], key) && IsMarked(log[j], key)
    && (forall x :: m < x < j ==> !IsOfflineSent(log[x], key))
    && (forall x :: j < x < |log| ==> !CameOnline(log[x], key) && !IsMarked(log[x], key))
  }

  lemma {:induction false} SeenSinceSentMeans(log: History, key: Key)
    ensures SeenSinceSent(log, key) <==>
            exists m :: 0 <= m < |log| && IsFirstSeen(log[m], key)
                        && forall x :: m < x < |log| ==> !IsOfflineSent(log[x], key)
    decreases |log|
  {
    if log != [] {
      var before := log[..|log| - 1];
      SeenSinceSentMeans(before, key);
      assert forall x :: 0 <= x < |before| ==> log[x] == before[x];
      if SeenSinceSent(log, key) && !IsFirstSeen(log[|log| - 1], key) {
        var m :| 0 <= m < |before| && IsFirstSeen(before[m], key)
                 && forall x :: m < x < |before| ==> !IsOfflineSent(before[x], key);
        assert IsFirstSeen(log[m], key);
      }
    }
  }

  lemma {:induction false} LateMarkMeans(log: History, key: Key)
    ensures LateMark(log, key) <==> exists m: nat, j: nat :: RegisteredInWindow(log, key, m, j)
    decreases |log|
  {
    if log != [] {
      var e, before := log[|log| - 1], log[..|log| - 1];
      assert forall x :: 0 <= x < |before| ==> log[x] == before[x];
      SeenSinceSentMeans(before, key);
      LateMarkMeans(before, key);
      if m: nat, j: nat :| RegisteredInWindow(log, key, m, j) {
        assert IsFirstSeen(before[m], key);
        assert j < |before| ==> RegisteredInWindow(before, key, m, j);
      } else if LateMark(log, key) && !IsMarked(e, key) {
        var m: nat, j: nat :| RegisteredInWindow(before, key, m, j);
        assert RegisteredInWindow(log, key, m, j);
      } else if LateMark(log, key) {
        var m :| 0 <= m < |before| && IsFirstSeen(before[m], key)
                 && forall x :: m < x < |before| ==> !IsOfflineSent(before[x], key);
        assert RegisteredInWindow(log, key, m, |before|);
      }
    }
  }

  /**
   Outside its own dispatch-to-mark window, a tracked key's status is what was last sent about it, except
   exactly when the key was registered anew inside the window of the Offline mark it carries.
   */
  lemma SentAgreesWithMap(c: Config, s: State, key: Key)
    requires Reachable(c, s) && key in s.beats && !InWindow(s.phase, key)
    ensures LastSent(s.log, key) == Some(s.beats[key].knownStatus) <==>
            !exists m: nat, j: nat :: RegisteredInWindow(s.log, key, m, j)
  {
    ReachableStatusInv(c, s);
    assert SentTellsStatus(s, key);
    LateMarkMeans(s.log, key);
  }

  /** In every run, two Offline updates of a key are separated by the key coming Online. */
  lemma CameOnlineBetweenOfflines(c: Config, s: State, key: Key, i: nat, j: nat) returns (m: nat)
    requires Reachable(c, s)
    requires i < j < |s.log| && IsOfflineSent(s.log[i], key) && IsOfflineSent(s.log[j], key)
    ensures i < m < j && CameOnline(s.log[m], key)
  {
    ReachableStatusInv(c, s);
    m :| i < m < j && CameOnline(s.log[m], key);
  }

  /**
   The updates of a key read Online, Offline, Online, ... exactly as long as it is not registered after having been
   decommissioned while reported Online, and does not recover from a mark that overtook a registration.
   */
  lemma UpdatesAlternate(c: Config, s: State, key: Key)
    requires Reachable(c, s)
    ensures Alternates(Sent(s.log, key)) <==> NeverRepeats(s.log, key)
  {
    ReachableStatusInv(c, s);
  }

  /** The key was registered again after a decommission. */
  ghost predicate RegisteredAgain(log: History, key: Key) {
    exists i, j :: 0 <= i < j < |log| && IsRemoved(log[i], key) && IsFirstSeen(log[j], key)
  }

  ghost predicate WasRemoved(log: History, key: Key) {
    exists i :: 0 <= i < |log| && IsRemoved(log[i], key)
  }

  lemma RegisteredAgainSnoc(log: History, e: Event, key: Key)
    ensures WasRemoved(log + [e], key) <==> WasRemoved(log, key) || IsRemoved(e, key)
    ensures RegisteredAgain(log + [e], key) <==>
            RegisteredAgain(log, key) || (IsFirstSeen(e, key) && WasRemoved(log, key))
  {
    var longer := log + [e];
    assert longer[|log|] == e && forall i :: 0 <= i < |log| ==> longer[i] == log[i];
    if i :| 0 <= i < |log| && IsRemoved(log[i], key) {
      assert IsRemoved(longer[i], key);
    }
    if i, j :| 0 <= i < j < |log| && IsRemoved(log[i], key) && IsFirstSeen(log[j], key) {
      assert IsRemoved(longer[i], key) && IsFirstSeen(longer[j], key);
    }
  }

  ghost predicate NoLateMarks(log: History, key: Key) {
    forall i :: 0 <= i <= |log| ==> !LateMark(log[..i], key)
  }

  lemma NoLateMarksEnd(log: History, key: Key)
    requires NoLateMarks(log, key)
    ensures !LateMark(log, key)
  {
    assert log[..|log|] == log;
  }

  lemma NoLateMarksSnoc(log: History, e: Event, key: Key)
    requires NoLateMarks(log, key) && !LateMark(log + [e], key)
    ensures NoLateMarks(log + [e], key)
  {
    var longer := log + [e];
    forall i | 0 <= i <= |longer| ensures !LateMark(longer[..i], key) {
      assert longer[..i] == if i <= |log| then log[..i] else longer;
    }
  }

  /** For a key registered at most once: unknown means nothing sent or decommissioned; no mark comes late. */
  ghost predicate OnceInv(s: State, key: Key) {
    && (key !in s.beats ==> Sent(s.log, key) == [] || WasRemoved(s.log, key))
    && (InWindow(s.phase, key) ==> Offline in Sent(s.log, key))
    && (!RegisteredAgain(s.log, key) ==>
          && (SeenSinceSent(s.log, key) ==> Offline !in Sent(s.log, key))
          && NoLateMarks(s.log, key))
  }

  lemma OnceKept(s: State, t: State, e: Option<Event>, key: Key)
    requires KeyEffect(s, t, e, key) && OnceInv(s, key)
    requires e.Some? && IsOfflineSent(e.value, key) ==> StillOnline(s, key)
    ensures OnceInv(t, key)
  {
    hide RegisteredAgain, WasRemoved, NoLateMarks;
    if e.Some? {
      SentSnoc(s.log, e.value, key);
      RegisteredAgainSnoc(s.log, e.value, key);
      if !RegisteredAgain(t.log, key) {
        assert !LateMark(s.log, key) by { NoLateMarksEnd(s.log, key); }
        NoLateMarksSnoc(s.log, e.value, key);
      }
    }
  }

  lemma {:induction false} RegisteredOnce(c: Config, steps: seq<Step>, s: State, key: Key)
    requires Exec(c, Init(c), steps) == Some(s)
    ensures OnceInv(s, key)
    decreases |steps|
  {
    if steps != [] {
      var before, step := Exec(c, Init(c), steps[..|steps| - 1]).value, steps[|steps| - 1];
      RegisteredOnce(c, steps[..|steps| - 1], before, key);
      StepEffect(c, before, step, key);
      var e := Logged(c, before, step);
      if e.Some? && IsOfflineSent(e.value, key) {
        StatusInvHolds(c, steps[..|steps| - 1], before);
        SentForStillOnline(c, before, step, key);
      }
      OnceKept(before, s, e, key);
    }
  }

  /** A key that is registered only once gets alternating updates that agree with its status. */
  lemma RegisteredOnceAlternates(c: Config, s: State, key: Key)
    requires Reachable(c, s) && !RegisteredAgain(s.log, key)
    ensures Alternates(Sent(s.log, key))
    ensures key in s.beats && !InWindow(s.phase, key) ==> LastSent(s.log, key) == Some(s.beats[key].knownStatus)
  {
    assert OnceInv(s, key) by {
      var steps :| Exec(c, Init(c), steps) == Some(s);
      RegisteredOnce(c, steps, s, key);
    }
    assert key in s.beats ==> SentTellsStatus(s, key) by { ReachableStatusInv(c, s); }
    assert s.log[..|s.log|] == s.log;
    UpdatesAlternate(c, s, key);
  }

  /** It expires at once, is alerted and its Offline update sent. */
  lemma AlertedAtOnce(c: Config, key: Key) returns (s: State)
    requires c == Config(0, 0, 10, true)
    ensures Reachable(c, s)
    ensures var e := Entry(key.tenantID, key.gatewayID, 0, Online);
            && s.beats == map[key := e] && s.phase == Dispatched(0, [], e)
            && |s.queue| == 2 && s.calls == multiset{} && s.clock == 0 && !s.closed
            && s.log == [Heard(key, 0, FirstSeen, true), SnapshotTaken,
                         Published(key, Alert(key.gatewayID, 0, 0, 0)), OfflineSent(key, 0, true)]
  {
    hide Reachable;
    s := HeartbeatAlerts.RegisteredAtOnce(c, key);
    s := Go(c, s, BeginTick);
    s := Go(c, s, TakeSnapshot([key]));
    assert s.phase == Evaluating(0, [Entry(key.tenantID, key.gatewayID, 0, Online)]);
    s := Go(c, s, Evaluate(Answer(0, None, true)));
    s := Go(c, s, Dispatch(true));
  }

  /** Before the mark, the gateway is decommissioned and registered anew. */
  lemma RegisteredAnew(c: Config, key: Key) returns (s: State)
    requires c == Config(0, 0, 10, true)
    ensures Reachable(c, s) && s.phase == Dispatched(0, [], Entry(key.tenantID, key.gatewayID, 0, Online))
    ensures key in s.beats && LastSent(s.log, key) == Some(Online)
  {
    s := AlertedAtOnce(c, key);
    s := Go(c, s, Decommission(key));
    s := Go(c, s, CallTelemetry(key));
    var log := s.log;
    s := Go(c, s, CommitTelemetry(Call(key, 0), true));
    SentSnoc(log, Heard(key, 0, FirstSeen, true), key);
  }

  /** Registering a decommissioned key anew inside the window leaves the map Offline and the last word Online. */
  lemma LateRegistrationDisagrees(key: Key) returns (c: Config, s: State)
    ensures Reachable(c, s) && s.phase.Idle? && key in s.beats
    ensures s.beats[key].knownStatus == Offline && LastSent(s.log, key) == Some(Online)
  {
    c := Config(0, 0, 10, true);
    s := RegisteredAnew(c, key);
    SentSnoc(s.log, Marked(key), key);
    assert Sent(s.log, key) + [] == Sent(s.log, key);
    s := Go(c, s, Mark);
    s := Go(c, s, EndTick);
  }

  /** A gateway is registered, decommissioned and registered anew. */
  lemma RegisteredTwice(key: Key) returns (c: Config, s: State)
    ensures Reachable(c, s)
    ensures s.log == [Heard(key, 0, FirstSeen, true), Removed(key), Heard(key, 0, FirstSeen, true)]
  {
    hide Reachable;
    c := Config(0, 0, 10, true);
    s := HeartbeatAlerts.RegisteredAtOnce(c, key);
    s := Go(c, s, Decommission(key));
    s := Go(c, s, CallTelemetry(key));
    s := Go(c, s, CommitTelemetry(Call(key, 0), true));
  }

  /** It is reported Online twice in a row. */
  lemma OnlineTwiceInARow(key: Key) returns (c: Config, s: State)
    ensures Reachable(c, s) && Sent(s.log, key) == [Online, Online] && !Alternates(Sent(s.log, key))
  {
    hide Reachable;
    c, s := RegisteredTwice(key);
    var heard := Heard(key, 0, FirstSeen, true);
    SentSnoc([], heard, key);
    SentSnoc([heard], Removed(key), key);
    SentSnoc([heard, Removed(key)], heard, key);
    assert [] + [heard] == [heard] && [heard] + [Removed(key)] == [heard, Removed(key)];
    assert s.log == [heard, Removed(key)] + [heard];
    assert Sent(s.log, key)[1] == Online;
  }

  /**
   What the channel does to the attempted updates: those delivered, in hand and queued are, in this order, the
   attempted ones without the dropped ones; nothing is lost track of, and a closed tracker has delivered everything.
   */
  lemma UpdatesConserved(c: Config, s: State)
    requires Reachable(c, s)
    ensures Kept(Attempts(s.log)) == Updates(s.delivered) + HandOf(s) + s.queue
    ensures |Attempts(s.log)| == |s.delivered| + |HandOf(s)| + |s.queue| + s.dropped
    ensures |s.queue| <= c.capacity
    ensures s.exited ==> s.closed && Updates(s.delivered) == Kept(Attempts(s.log))
  {
    ReachableStatusInv(c, s);
  }
}
