/**
 What a decommission stops and what it does not: exactly when no alert for an untracked key can follow any more,
 however the run goes on.
 */
module HeartbeatSilence {
  import opened Common
  import opened Heartbeat
  import opened HeartbeatHistory
  import opened HeartbeatAlerts

  /** None of the steps is telemetry for the key. */
  ghost predicate Unheard(steps: seq<Step>, key: Key) {
    forall i :: 0 <= i < |steps| && steps[i].CommitTelemetry? ==> steps[i].call.key != key
  }

  /** However the run goes on, the key is not alerted before it is heard of again. */
  ghost predicate StaysSilent(c: Config, s: State, key: Key) {
    forall steps, t, j: nat ::
      Exec(c, s, steps) == Some(t) && Unheard(steps, key) && |s.log| <= j < |t.log| ==> !IsPublished(t.log[j], key)
  }

  /** Some timeout, its nanoseconds taken in 64 bits, puts the deadline of the entry at or before `now`. */
  predicate CanExpire(e: Entry, now: int) {
    e.lastSeen - TWO_63 <= now
  }

  lemma CanExpireMeans(e: Entry, now: int)
    ensures CanExpire(e, now) <==> exists t :: IsInt64(t) && Deadline(e.lastSeen, t) <= now
  {
    assert IsInt64(EARLIEST_TIMEOUT_MS) && Deadline(e.lastSeen, EARLIEST_TIMEOUT_MS) == e.lastSeen - TWO_63;
  }

  /** A timeout whose nanoseconds wrap around to the least duration there is. */
  const EARLIEST_TIMEOUT_MS: int := 144_115_188_075_855_872

  predicate AwaitsAlert(e: Entry, now: int, key: Key) {
    e.Id() == key && e.knownStatus == Online && CanExpire(e, now)
  }

  /**
   The running Tick may still alert the key: its snapshot has an Online entry for it that is not evaluated yet and
   can expire, and the Tick is not stuck before a closed channel.
   */
  predicate StillToCome(s: State, key: Key) {
    var todo := Todo(s.phase);
    && (exists i :: 0 <= i < |todo| && AwaitsAlert(todo[i], s.phase.now, key))
    && (s.phase.Announced? ==> !s.closed)
  }

  // ------------------------------------------------------------------------------------------------
  // With nothing to come, the key stays silent
  // ------------------------------------------------------------------------------------------------

  /** Neither the map nor the running Tick holds anything that could be alerted for the key. */
  ghost predicate Quiet(s: State, key: Key) {
    key !in s.beats && !StillToCome(s, key)
  }

  lemma QuietSnapshot(c: Config, s: State, order: seq<Key>, key: Key)
    requires HistoryInv(s) && Quiet(s, key) && Enabled(c, s, TakeSnapshot(order))
    ensures Quiet(Apply(c, s, TakeSnapshot(order)), key)
  {
    forall i | 0 <= i < |order| ensures s.beats[order[i]].Id() != key {
      var _ := TrackedIsLatestHeard(s.log, order[i]);
    }
  }

  lemma QuietEvaluate(c: Config, s: State, a: Answer, key: Key)
    requires Quiet(s, key) && Enabled(c, s, Evaluate(a))
    ensures var t := Apply(c, s, Evaluate(a));
            Quiet(t, key) && forall j :: |s.log| <= j < |t.log| ==> !IsPublished(t.log[j], key)
  {
    var e := s.phase.todo[0];
    CanExpireMeans(e, s.phase.now);
    assert Todo(s.phase)[0] == e && !AwaitsAlert(Todo(s.phase)[0], s.phase.now, key);
    var t := Apply(c, s, Evaluate(a));
    assert forall i :: 0 <= i < |Todo(t.phase)| ==> Todo(t.phase)[i] == Todo(s.phase)[i + 1];
  }

  lemma QuietKept(c: Config, s: State, step: Step, key: Key)
    requires HistoryInv(s) && Quiet(s, key) && Enabled(c, s, step)
    requires step.CommitTelemetry? ==> step.call.key != key
    ensures var t := Apply(c, s, step);
            Quiet(t, key) && s.log <= t.log && forall j :: |s.log| <= j < |t.log| ==> !IsPublished(t.log[j], key)
  {
    LogGrows(c, s, step);
    if step.TakeSnapshot? {
      QuietSnapshot(c, s, step.order, key);
    } else if step.Evaluate? {
      QuietEvaluate(c, s, step.answer, key);
    } else {
      StepMapEffect(c, s, step, key);
      assert Todo(Apply(c, s, step).phase) == Todo(s.phase);
    }
  }

  lemma {:induction false} QuietRun(c: Config, s: State, key: Key, steps: seq<Step>, t: State)
    requires Reachable(c, s) && Quiet(s, key) && Exec(c, s, steps) == Some(t) && Unheard(steps, key)
    ensures Reachable(c, t) && Quiet(t, key) && s.log <= t.log
    ensures forall j :: |s.log| <= j < |t.log| ==> !IsPublished(t.log[j], key)
    decreases |steps|
  {
    if steps != [] {
      var rest, step := steps[..|steps| - 1], steps[|steps| - 1];
      var before := Exec(c, s, rest).value;
      assert forall i :: 0 <= i < |rest| ==> rest[i] == steps[i];
      QuietRun(c, s, key, rest, before);
      ReachableAlertInv(c, before);
      QuietKept(c, before, step, key);
      var _ := Go(c, before, step);
    }
  }

  // ------------------------------------------------------------------------------------------------
  // With something to come, the Tick can be driven to the alert
  // ------------------------------------------------------------------------------------------------

  lemma OneMore(c: Config, s0: State, steps: seq<Step>, s: State, step: Step, key: Key)
    returns (more: seq<Step>, t: State)
    requires Exec(c, s0, steps) == Some(s) && Unheard(steps, key) && Enabled(c, s, step) && !step.CommitTelemetry?
    ensures Exec(c, s0, more) == Some(t) && Unheard(more, key) && t == Apply(c, s, step)
  {
    ExecSnoc(c, s0, steps, s, step);
    more, t := steps + [step], Apply(c, s, step);
  }

  /** A Tick in the course of its loop reaches entry `i` of its snapshot and alerts it. */
  lemma {:induction false} DriveLoop(c: Config, s0: State, steps: seq<Step>, s: State, key: Key, i: nat)
    returns (more: seq<Step>, t: State)
    requires Exec(c, s0, steps) == Some(s) && Unheard(steps, key) && s.phase.Evaluating?
    requires i < |s.phase.todo| && AwaitsAlert(s.phase.todo[i], s.phase.now, key)
    ensures Exec(c, s0, more) == Some(t) && Unheard(more, key)
    ensures |t.log| == |s.log| + 1 && IsPublished(t.log[|s.log|], key)
    decreases i
  {
    hide Exec, Unheard;
    if i == 0 {
      CanExpireMeans(s.phase.todo[0], s.phase.now);
      var timeoutMs :| IsInt64(timeoutMs) && Deadline(s.phase.todo[0].lastSeen, timeoutMs) <= s.phase.now;
      more, t := OneMore(c, s0, steps, s, Evaluate(Answer(timeoutMs, None, true)), key);
    } else {
      more, t := OneMore(c, s0, steps, s, Evaluate(Answer(0, None, false)), key);
      more, t := DriveLoop(c, s0, more, t, key, i - 1);
    }
  }

  /** A Tick in the middle of an alert finishes it and goes on. */
  lemma Drive(c: Config, s: State, key: Key) returns (steps: seq<Step>, t: State)
    requires StillToCome(s, key)
    ensures Exec(c, s, steps) == Some(t) && Unheard(steps, key)
    ensures |s.log| < |t.log| && IsPublished(t.log[|t.log| - 1], key)
  {
    var i :| 0 <= i < |Todo(s.phase)| && AwaitsAlert(Todo(s.phase)[i], s.phase.now, key);
    steps, t := [], s;
    assert Exec(c, s, []) == Some(s) && Unheard([], key);
    hide Exec, Unheard, AwaitsAlert, StillToCome;
    if t.phase.Announced? {
      steps, t := OneMore(c, s, steps, t, Dispatch(|t.queue| < c.capacity), key);
    }
    if t.phase.Dispatched? {
      steps, t := OneMore(c, s, steps, t, Mark, key);
    }
    steps, t := DriveLoop(c, s, steps, t, key, i);
  }

  /**
   Once a key is not tracked, no run that does not hear of it again alerts it, if and only if the running Tick has
   no Online entry of it to evaluate that can expire.
   */
  lemma SilentExactlyWhenNothingIsToCome(c: Config, s: State, key: Key)
    requires Reachable(c, s) && key !in s.beats
    ensures StaysSilent(c, s, key) <==> !StillToCome(s, key)
  {
    if StillToCome(s, key) {
      var steps, t := Drive(c, s, key);
    } else {
      forall steps, t, j: nat | Exec(c, s, steps) == Some(t) && Unheard(steps, key) && |s.log| <= j < |t.log|
        ensures !IsPublished(t.log[j], key)
      {
        QuietRun(c, s, key, steps, t);
      }
    }
  }
}
