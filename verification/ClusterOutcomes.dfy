/** What a run leaves behind: when the value its dispatch delivered becomes the stored outcome, and
    what its completion record says when it ends (nexus/compute/runtime.py, cluster.py). */
module ClusterOutcomes {
  import opened Basics
  import opened ClusterExecution
  import opened ClusterSafety
  import TaskCompletion

  // ----- delivered values ------------------------------------------------------------------------

  /** In step k a failure of t is published. */
  ghost predicate FailureAt(b: seq<State>, k: nat, t: Id) {
    k + 1 < |b| && t !in b[k].outcomes.failures && t in b[k + 1].outcomes.failures
  }

  /** In step k a result of t is published. */
  ghost predicate ResultAt(b: seq<State>, k: nat, t: Id) {
    k + 1 < |b| && t !in b[k].outcomes.results && t in b[k + 1].outcomes.results
  }

  ghost predicate FailureBefore(b: seq<State>, j: nat, t: Id) { exists k :: 0 <= k < j && FailureAt(b, k, t) }

  ghost predicate ResultBefore(b: seq<State>, j: nat, t: Id) { exists k :: 0 <= k < j && ResultAt(b, k, t) }

  /** What is stored was published in some earlier step, and the other way round. */
  lemma {:induction false} StoredWasPublished(b: seq<State>, acts: seq<Action>, j: nat, t: Id)
    requires Behavior(b, acts) && j < |b|
    ensures t in b[j].outcomes.failures <==> FailureBefore(b, j, t)
    ensures t in b[j].outcomes.results <==> ResultBefore(b, j, t)
  {
    if j > 0 {
      StoredWasPublished(b, acts, j - 1, t);
      OutcomesAreWriteOnce(b, acts, j - 1, j);
      PublishedOneMore(b, j - 1, t);
    }
  }

  lemma PublishedOneMore(b: seq<State>, j: nat, t: Id)
    ensures FailureBefore(b, j + 1, t) <==> FailureBefore(b, j, t) || FailureAt(b, j, t)
    ensures ResultBefore(b, j + 1, t) <==> ResultBefore(b, j, t) || ResultAt(b, j, t)
  {
    assert FailureAt(b, j, t) ==> FailureBefore(b, j + 1, t);
    assert ResultAt(b, j, t) ==> ResultBefore(b, j + 1, t);
  }

  /** In step j run r publishes the value its dispatch delivered. */
  ghost predicate PublishesAt(b: seq<State>, acts: seq<Action>, j: nat, r: RunId, t: Id, v: string) {
    && j < |acts| && j + 1 < |b| && acts[j].Advance? && acts[j].run == r
    && r in b[j].runs && b[j].runs[r].task == t && b[j].runs[r].pc == Publishing(v)
  }

  /** A delivered value is accepted exactly when no failure was published before: it then is the
      stored outcome for good, unless an earlier result already was. A failure published before,
      even that of a run which never executed, shuts it out. */
  lemma DeliveredValueIsStoredExactlyWhen(
    b: seq<State>, acts: seq<Action>, j: nat, m: nat, r: RunId, t: Id, v: string)
    requires Behavior(b, acts) && PublishesAt(b, acts, j, r, t, v) && j < m < |b|
    ensures r in b[j + 1].runs && (b[j + 1].runs[r].pc.Completing? <==> !FailureBefore(b, j, t))
    ensures t in b[m].outcomes.results <==> !FailureBefore(b, j, t)
    ensures ResultAt(b, j, t) <==> !FailureBefore(b, j, t) && !ResultBefore(b, j, t)
    ensures ResultAt(b, j, t) ==>
              b[m].outcomes.results[t] == ComputeResult(t, v, acts[j].oracle.seconds, None)
  {
    StoredWasPublished(b, acts, j, t);
    assert b[j + 1] == Apply(b[j], acts[j]);
    PublishingDecides(b[j], r, acts[j].oracle, v);
    OutcomesAreWriteOnce(b, acts, j + 1, m);
    if FailureBefore(b, j, t) { AtMostOneOutcome(b, acts, m, j, t); }
  }

  lemma PublishingDecides(s: State, r: RunId, o: Oracle, v: string)
    requires r in s.runs && s.runs[r].pc == Publishing(v)
    ensures var t, s' := s.runs[r].task, Apply(s, Advance(r, o));
            && (s'.runs[r].pc.Completing? <==> t in s.outcomes.results || t !in s.outcomes.failures)
            && (t !in s.outcomes.results && t !in s.outcomes.failures ==>
                  t in s'.outcomes.results && s'.outcomes.results[t] == ComputeResult(t, v, o.seconds, None))
            && (t in s.outcomes.failures || t in s.outcomes.results ==> s'.outcomes == s.outcomes)
  {
  }

  // ----- the record an ended run leaves ------------------------------------------------------------

  predicate Ended(pc: Pc) { pc.Returned? || pc.Raised? }

  /** Between starting the record and the end. */
  predicate InLoop(pc: Pc) { !pc.Lookup? && !pc.Creating? && !pc.Starting? && !Ended(pc) }

  function KeyOf(run: Run): (RuntimeId, Id) { (run.runtime, run.task) }

  predicate TerminalAt(s: State, key: (RuntimeId, Id)) { key in s.completions && s.completions[key].Terminal() }

  /** In step i run r starts its record. */
  ghost predicate StartsAt(b: seq<State>, acts: seq<Action>, i: nat, r: RunId, key: (RuntimeId, Id)) {
    && i < |acts| && i + 1 < |b| && acts[i].Advance? && acts[i].run == r
    && r in b[i].runs && KeyOf(b[i].runs[r]) == key && b[i].runs[r].pc.Starting?
    && r in b[i + 1].runs && b[i + 1].runs[r].pc.Selecting?
  }

  /** In step j run r ends. */
  ghost predicate EndsAt(b: seq<State>, acts: seq<Action>, j: nat, r: RunId) {
    && j < |acts| && j + 1 < |b| && acts[j].Advance? && acts[j].run == r
    && r in b[j].runs && !Ended(b[j].runs[r].pc) && r in b[j + 1].runs && Ended(b[j + 1].runs[r].pc)
  }

  ghost predicate KeptBetween(b: seq<State>, i: nat, j: nat, key: (RuntimeId, Id))
    requires j < |b|
  {
    forall k :: i <= k <= j ==> key in b[k].completions
  }

  /** Somebody else ended the record of r between the steps i and j: a cancellation, or a run that
      had started an earlier record of the same task. */
  ghost predicate EndedByOther(b: seq<State>, acts: seq<Action>, i: nat, j: nat, r: RunId, key: (RuntimeId, Id))
    requires j <= |acts| && j < |b|
  {
    exists k :: i < k < j && !TerminalAt(b[k], key) && TerminalAt(b[k + 1], key)
                && !(acts[k].Advance? && acts[k].run == r)
  }

  /** A step inside the loop writes no record and stays in the loop, or ends the run. */
  lemma LoopStep(s: State, run: Run, o: Oracle)
    requires InLoop(run.pc)
    ensures var e := StepRun(s, run, o);
            (InLoop(e.pc) && e.status.None?) || Ended(e.pc)
  {
    if InDispatcher(run.pc) { DispatcherStaysInLoop(s, run, o); }
  }

  lemma DispatcherStaysInLoop(s: State, run: Run, o: Oracle)
    requires InDispatcher(run.pc)
    ensures InLoop(StepDispatcher(s, run, o).pc) && StepDispatcher(s, run, o).status.None?
  {
  }

  /** An ended run does nothing more. */
  lemma EndedStays(s: State, run: Run, o: Oracle)
    requires Ended(run.pc)
    ensures StepRun(s, run, o) == Goto(s, run, run.pc)
  {
  }

  /** A terminal record that is kept stays terminal. */
  lemma TerminalStays(s: State, a: Action, key: (RuntimeId, Id))
    requires TerminalAt(s, key) && key in Apply(s, a).completions
    ensures TerminalAt(Apply(s, a), key)
  {
    if a.Advance? && a.run in s.runs { RecordWritesLive(s, s.runs[a.run], a.oracle); }
  }

  predicate StartedAt(s: State, key: (RuntimeId, Id)) { key in s.completions && !s.completions[key].Pending? }

  /** A started record that is kept never becomes pending again. */
  lemma StartedStays(s: State, a: Action, key: (RuntimeId, Id))
    requires StartedAt(s, key) && key in Apply(s, a).completions
    ensures StartedAt(Apply(s, a), key)
  {
    if a.Advance? && a.run in s.runs && KeyOf(s.runs[a.run]) == key { RecordWritesOn(s, s.runs[a.run], a.oracle); }
  }

  lemma RecordWritesOn(s: State, run: Run, o: Oracle)
    requires KeyOf(run) in s.completions
    ensures StepRun(s, run, o).status.Some? ==> !StepRun(s, run, o).status.value.Pending?
  {
    if InDispatcher(run.pc) { DispatcherStaysInLoop(s, run, o); }
  }

  lemma {:induction false} StartedThroughout(
    b: seq<State>, acts: seq<Action>, i: nat, j: nat, r: RunId, key: (RuntimeId, Id))
    requires Behavior(b, acts) && StartsAt(b, acts, i, r, key) && i < j < |b| && KeptBetween(b, i + 1, j, key)
    ensures StartedAt(b[j], key)
  {
    if j == i + 1 {
      assert b[i + 1] == Apply(b[i], acts[i]);
      StartingStarts(b[i], r, acts[i].oracle);
    } else {
      assert b[j - 1 + 1] == Apply(b[j - 1], acts[j - 1]);
      StartedThroughout(b, acts, i, j - 1, r, key);
      StartedStays(b[j - 1], acts[j - 1], key);
    }
  }

  /** A step writes only a record that is absent or not terminal. */
  lemma RecordWritesLive(s: State, run: Run, o: Oracle)
    ensures StepRun(s, run, o).status.Some? ==> !TerminalAt(s, KeyOf(run))
  {
    if InDispatcher(run.pc) { DispatcherStaysInLoop(s, run, o); }
  }

  /** While r is in the loop its kept record is terminal exactly if somebody else ended it. */
  lemma {:induction false} RecordWhileRunning(
    b: seq<State>, acts: seq<Action>, i: nat, j: nat, r: RunId, key: (RuntimeId, Id))
    requires Behavior(b, acts) && StartsAt(b, acts, i, r, key) && i < j < |b| && KeptBetween(b, i + 1, j, key)
    ensures r in b[j].runs && KeyOf(b[j].runs[r]) == key && (InLoop(b[j].runs[r].pc) || Ended(b[j].runs[r].pc))
    ensures InLoop(b[j].runs[r].pc) ==> (TerminalAt(b[j], key) <==> EndedByOther(b, acts, i, j, r, key))
  {
    if j == i + 1 {
      assert b[i + 1] == Apply(b[i], acts[i]);
      StartingStarts(b[i], r, acts[i].oracle);
    } else {
      var s, a := b[j - 1], acts[j - 1];
      assert b[j - 1 + 1] == Apply(s, a);
      RecordWhileRunning(b, acts, i, j - 1, r, key);
      RunMovesOn(s, a, r);
      if InLoop(b[j].runs[r].pc) {
        if TerminalAt(s, key) { TerminalStays(s, a, key); }
        if a.Advance? && a.run == r { OwnStepEndsNothing(s, a, r, key); }
        EndedByOtherOneMore(b, acts, i, j - 1, r, key);
      }
    }
  }

  lemma StartingStarts(s: State, r: RunId, o: Oracle)
    requires r in s.runs && s.runs[r].pc.Starting? && Apply(s, Advance(r, o)).runs[r].pc.Selecting?
    ensures var s' := Apply(s, Advance(r, o));
            KeyOf(s'.runs[r]) == KeyOf(s.runs[r]) && !TerminalAt(s', KeyOf(s.runs[r]))
            && StartedAt(s', KeyOf(s.runs[r]))
  {
  }

  lemma RunMovesOn(s: State, a: Action, r: RunId)
    requires r in s.runs && (InLoop(s.runs[r].pc) || Ended(s.runs[r].pc))
    ensures var s' := Apply(s, a);
            && r in s'.runs && KeyOf(s'.runs[r]) == KeyOf(s.runs[r])
            && (InLoop(s'.runs[r].pc) ==> InLoop(s.runs[r].pc))
            && (InLoop(s'.runs[r].pc) || Ended(s'.runs[r].pc))
  {
    if a.Advance? && a.run == r {
      if InLoop(s.runs[r].pc) { LoopStep(s, s.runs[r], a.oracle); } else { EndedStays(s, s.runs[r], a.oracle); }
    }
  }

  /** r itself ends no record while it stays in the loop. */
  lemma OwnStepEndsNothing(s: State, a: Action, r: RunId, key: (RuntimeId, Id))
    requires r in s.runs && InLoop(s.runs[r].pc) && r in Apply(s, a).runs && InLoop(Apply(s, a).runs[r].pc)
    requires a.Advance? && a.run == r
    ensures TerminalAt(Apply(s, a), key) <==> TerminalAt(s, key)
  {
    LoopStep(s, s.runs[r], a.oracle);
  }

  lemma EndedByOtherOneMore(b: seq<State>, acts: seq<Action>, i: nat, j: nat, r: RunId, key: (RuntimeId, Id))
    requires i < j < |acts| && j + 1 < |b|
    ensures EndedByOther(b, acts, i, j + 1, r, key) <==>
            || EndedByOther(b, acts, i, j, r, key)
            || (!TerminalAt(b[j], key) && TerminalAt(b[j + 1], key) && !(acts[j].Advance? && acts[j].run == r))
  {
  }

  /** A run whose failure may not be published ends without writing its record; so does one whose
      error text is blank. */
  predicate LeavesUnrecorded(pc: Pc) { pc.Handling? || (pc.Recording? && pc.error.IsBlank()) }

  lemma EndingDecides(s: State, r: RunId, o: Oracle)
    requires r in s.runs && InLoop(s.runs[r].pc) && Ended(Apply(s, Advance(r, o)).runs[r].pc)
    ensures var key, s' := KeyOf(s.runs[r]), Apply(s, Advance(r, o));
            && (key in s'.completions <==> key in s.completions)
            && (key in s.completions ==>
                  (TerminalAt(s', key) <==> TerminalAt(s, key) || !LeavesUnrecorded(s.runs[r].pc)))
            && (s.runs[r].pc.Handling? ==> s.runs[r].task in s.outcomes.results)
  {
    if InDispatcher(s.runs[r].pc) { DispatcherStaysInLoop(s, s.runs[r], o); }
  }

  /** After its last attempt a run ends at once, its record unwritten, exactly if its failure would
      be published and a result already was. */
  lemma FailureIsRefusedExactlyWhen(b: seq<State>, acts: seq<Action>, j: nat, r: RunId)
    requires Behavior(b, acts) && j < |acts| && acts[j].Advance? && acts[j].run == r
    requires r in b[j].runs && b[j].runs[r].pc.Handling?
    ensures var run := b[j].runs[r];
            EndsAt(b, acts, j, r) <==>
            && run.attempt >= run.maxAttempts && run.pc.selected && !run.pc.exc.Stale?
            && ResultBefore(b, j, run.task)
  {
    assert b[j + 1] == Apply(b[j], acts[j]);
    StoredWasPublished(b, acts, j, b[j].runs[r].task);
    HandlingEnds(b[j], r, acts[j].oracle);
  }

  lemma HandlingEnds(s: State, r: RunId, o: Oracle)
    requires r in s.runs && s.runs[r].pc.Handling?
    ensures var run := s.runs[r];
            Ended(Apply(s, Advance(r, o)).runs[r].pc) <==>
            run.attempt >= run.maxAttempts && run.pc.selected && !run.pc.exc.Stale? && run.task in s.outcomes.results
  {
  }

  /** A run that ended after starting its record leaves the kept record terminal exactly unless
      nobody else ended it and either its last failure was refused, a result having been published
      before, or its error text was blank. Such a record stays running. */
  lemma RecordAtTheEnd(b: seq<State>, acts: seq<Action>, i: nat, j: nat, r: RunId, key: (RuntimeId, Id))
    requires Behavior(b, acts) && StartsAt(b, acts, i, r, key) && i < j && EndsAt(b, acts, j, r)
    requires KeptBetween(b, i + 1, j + 1, key)
    ensures TerminalAt(b[j + 1], key) <==>
            EndedByOther(b, acts, i, j, r, key) || !LeavesUnrecorded(b[j].runs[r].pc)
    ensures TerminalAt(b[j + 1], key) || b[j + 1].completions[key].Running?
    ensures b[j].runs[r].pc.Handling? ==> ResultBefore(b, j, key.1)
  {
    assert KeptBetween(b, i + 1, j, key);
    RecordWhileRunning(b, acts, i, j, r, key);
    assert b[j + 1] == Apply(b[j], acts[j]);
    EndingDecides(b[j], r, acts[j].oracle);
    StoredWasPublished(b, acts, j, key.1);
    StartedThroughout(b, acts, i, j + 1, r, key);
  }

  // ----- what the record says ------------------------------------------------------------------------

  /** In step i run r handles the failure e of its last attempt and goes on to record it. */
  ghost predicate LastFailureAt(b: seq<State>, acts: seq<Action>, i: nat, r: RunId, e: Exc, selected: bool) {
    && i < |acts| && i + 1 < |b| && acts[i].Advance? && acts[i].run == r
    && r in b[i].runs && b[i].runs[r].pc == Handling(e, selected)
    && b[i].runs[r].attempt >= b[i].runs[r].maxAttempts
    && r in b[i + 1].runs && b[i + 1].runs[r].pc.Recording?
  }

  /** The text a failure is recorded with, as the stored outcomes stand: that of the published
      failure if this one is to be published, and its own otherwise. */
  ghost predicate TextFor(k: Outcomes, t: Id, e: Exc, selected: bool, text: Text) {
    if selected && !e.Stale? then t in k.failures && text == k.failures[t].text else text == e.text
  }

  /** Run r takes no step strictly between i and j. */
  ghost predicate IdleBetween(acts: seq<Action>, i: nat, j: nat, r: RunId)
    requires j <= |acts|
  {
    forall k :: i < k < j ==> !(acts[k].Advance? && acts[k].run == r)
  }

  lemma HandlingRecords(s: State, r: RunId, o: Oracle)
    requires r in s.runs && s.runs[r].pc.Handling? && Apply(s, Advance(r, o)).runs[r].pc.Recording?
    ensures var run, s' := s.runs[r], Apply(s, Advance(r, o));
            && run.attempt >= run.maxAttempts && s'.runs[r].pc.exc == run.pc.exc
            && TextFor(s'.outcomes, run.task, run.pc.exc, run.pc.selected, s'.runs[r].pc.error)
            && (run.pc.selected && !run.pc.exc.Stale? && run.task !in s.outcomes.failures ==>
                  s'.outcomes.failures == s.outcomes.failures[run.task := run.pc.exc])
  {
  }

  lemma RecordingComesFromHandling(s: State, r: RunId, o: Oracle)
    requires r in s.runs && Apply(s, Advance(r, o)).runs[r].pc.Recording?
    ensures s.runs[r].pc.Handling?
  {
    var run := s.runs[r];
    if InDispatcher(run.pc) { DispatcherRecordsNothing(s, run, o); }
  }

  lemma DispatcherRecordsNothing(s: State, run: Run, o: Oracle)
    requires InDispatcher(run.pc)
    ensures !StepDispatcher(s, run, o).pc.Recording?
  {
  }

  /** A run about to record an error handled its last failure in some earlier step; the text is the
      one that failure calls for. */
  lemma {:induction false} RecordingHasItsFailure(b: seq<State>, acts: seq<Action>, j: nat, r: RunId)
    returns (i: nat, e: Exc, selected: bool)
    requires Behavior(b, acts) && j < |b| && r in b[j].runs && b[j].runs[r].pc.Recording?
    ensures i < j && LastFailureAt(b, acts, i, r, e, selected) && b[j].runs[r].pc.exc == e
    ensures KeyOf(b[i].runs[r]) == KeyOf(b[j].runs[r])
    ensures TextFor(b[j].outcomes, b[j].runs[r].task, e, selected, b[j].runs[r].pc.error)
    ensures IdleBetween(acts, i, j, r)
  {
    var s, a := b[j - 1], acts[j - 1];
    assert b[j - 1 + 1] == Apply(s, a);
    if a.Advance? && a.run == r {
      RecordingComesFromHandling(s, r, a.oracle);
      HandlingRecords(s, r, a.oracle);
      i, e, selected := j - 1, s.runs[r].pc.exc, s.runs[r].pc.selected;
    } else {
      i, e, selected := RecordingHasItsFailure(b, acts, j - 1, r);
      OutcomesAreWriteOnce(b, acts, j - 1, j);
    }
  }

  predicate LiveAt(s: State, key: (RuntimeId, Id)) { key in s.completions && !TerminalAt(s, key) }

  lemma RecordingDecides(s: State, r: RunId, o: Oracle)
    requires r in s.runs && s.runs[r].pc.Recording?
    ensures var run, s' := s.runs[r], Apply(s, Advance(r, o));
            if LiveAt(s, KeyOf(run)) && !run.pc.error.IsBlank()
            then s'.completions == s.completions[KeyOf(run) := TaskCompletion.Failed(run.pc.error)]
                 && s'.runs[r].pc == Raised(run.pc.exc)
            else s'.completions == s.completions && s'.runs[r].pc.Raised?
  {
  }

  /** The record of a failed run. When a run ends after its last failure with a live record, the
      record is failed with the text of the failure stored for the task if that failure was to be
      published, and with its own text otherwise, and the run raises that failure. */
  lemma FailedRunRecords(b: seq<State>, acts: seq<Action>, j: nat, r: RunId, key: (RuntimeId, Id))
    returns (i: nat, e: Exc, selected: bool, text: Text)
    requires Behavior(b, acts) && EndsAt(b, acts, j, r) && b[j].runs[r].pc.Recording?
    requires key == KeyOf(b[j].runs[r]) && LiveAt(b[j], key)
    ensures i < j && LastFailureAt(b, acts, i, r, e, selected) && TextFor(b[j].outcomes, key.1, e, selected, text)
    ensures IdleBetween(acts, i, j, r)
    ensures !text.IsBlank() ==>
              && key in b[j + 1].completions && b[j + 1].completions[key] == TaskCompletion.Failed(text)
              && b[j + 1].runs[r].pc == Raised(e)
    ensures text.IsBlank() ==> key in b[j + 1].completions && b[j + 1].completions[key] == b[j].completions[key]
  {
    i, e, selected := RecordingHasItsFailure(b, acts, j, r);
    text := b[j].runs[r].pc.error;
    assert b[j + 1] == Apply(b[j], acts[j]);
    RecordingDecides(b[j], r, acts[j].oracle);
  }

  lemma CompletingDecides(s: State, r: RunId, o: Oracle)
    requires r in s.runs && InLoop(s.runs[r].pc) && Apply(s, Advance(r, o)).runs[r].pc.Returned?
    ensures var key, s' := KeyOf(s.runs[r]), Apply(s, Advance(r, o));
            && s.runs[r].pc.Completing? && LiveAt(s, key)
            && s'.completions == s.completions[key := TaskCompletion.Completed(s'.runs[r].pc.result)]
  {
    if InDispatcher(s.runs[r].pc) { DispatcherStaysInLoop(s, s.runs[r], o); }
  }

  /** The record of a run that computed: when it returns, its record is completed with the very
      result it returns, which is the one stored for the task. */
  lemma ReturnedRunRecords(b: seq<State>, acts: seq<Action>, j: nat, r: RunId)
    requires Behavior(b, acts) && EndsAt(b, acts, j, r) && InLoop(b[j].runs[r].pc) && b[j + 1].runs[r].pc.Returned?
    ensures var key, result := KeyOf(b[j].runs[r]), b[j + 1].runs[r].pc.result;
            && key in b[j + 1].completions && b[j + 1].completions[key] == TaskCompletion.Completed(result)
            && result.task == key.1 && Authoritative(b[j + 1].outcomes, key.1, result)
  {
    assert b[j + 1] == Apply(b[j], acts[j]);
    CompletingDecides(b[j], r, acts[j].oracle);
    InvHolds(b, acts, j + 1);
    assert PcJustified(b[j + 1].outcomes, b[j + 1].runs[r].task, b[j + 1].runs[r].pc);
  }

  /** A run that found a record at its first look ends at once: it returns exactly an idempotent
      repetition of a completed task, with the recorded result, and changes nothing. */
  lemma RepeatedRunAnswers(b: seq<State>, acts: seq<Action>, j: nat, r: RunId)
    requires Behavior(b, acts) && j < |acts| && acts[j].Advance? && acts[j].run == r
    requires r in b[j].runs && b[j].runs[r].pc.Lookup?
    ensures var run, key := b[j].runs[r], KeyOf(b[j].runs[r]);
            && (EndsAt(b, acts, j, r) <==> key in b[j].completions)
            && b[j + 1].completions == b[j].completions && b[j + 1].outcomes == b[j].outcomes
            && (forall x :: b[j + 1].runs[r].pc == Returned(x) <==>
                  key in b[j].completions && run.idempotent && b[j].completions[key] == TaskCompletion.Completed(x))
  {
    assert b[j + 1] == Apply(b[j], acts[j]);
  }

  lemma TextsAgree(
    b: seq<State>, acts: seq<Action>, j: nat, j': nat, t: Id, e: Exc, e': Exc, text: Text, text': Text)
    requires Behavior(b, acts) && j < |b| && j' < |b|
    requires !e.Stale? && TextFor(b[j].outcomes, t, e, true, text)
    requires !e'.Stale? && TextFor(b[j'].outcomes, t, e', true, text')
    ensures text == text'
  {
    if j <= j' { OutcomesAreWriteOnce(b, acts, j, j'); } else { OutcomesAreWriteOnce(b, acts, j', j); }
  }

  /** In step j run r ends with a live record after its last failure e, handled in step i, which was
      to be published. */
  ghost predicate EndsByPublishedFailure(b: seq<State>, acts: seq<Action>, i: nat, j: nat, r: RunId, e: Exc) {
    && LastFailureAt(b, acts, i, r, e, true) && !e.Stale? && i < j
    && EndsAt(b, acts, j, r) && b[j].runs[r].pc.Recording? && IdleBetween(acts, i, j, r)
    && LiveAt(b[j], KeyOf(b[j].runs[r]))
  }

  /** Two runtimes whose last failures of a task were both to be published record the same failure,
      that of the one stored for the task. */
  lemma FailedRecordsAgree(
    b: seq<State>, acts: seq<Action>, i: nat, j: nat, q: RunId, e: Exc, i': nat, j': nat, r: RunId, e': Exc)
    requires Behavior(b, acts) && EndsByPublishedFailure(b, acts, i, j, q, e)
    requires EndsByPublishedFailure(b, acts, i', j', r, e') && b[j].runs[q].task == b[j'].runs[r].task
    ensures var t := b[j].runs[q].task;
            && t in b[j].outcomes.failures && t in b[j'].outcomes.failures
            && b[j].outcomes.failures[t] == b[j'].outcomes.failures[t]
            && var text := b[j].outcomes.failures[t].text;
               !text.IsBlank() ==>
                 && KeyOf(b[j].runs[q]) in b[j + 1].completions && KeyOf(b[j'].runs[r]) in b[j' + 1].completions
                 && b[j + 1].completions[KeyOf(b[j].runs[q])]
                    == b[j' + 1].completions[KeyOf(b[j'].runs[r])] == TaskCompletion.Failed(text)
  {
    var i0, e0, s0, text := FailedRunRecords(b, acts, j, q, KeyOf(b[j].runs[q]));
    SameLastFailure(acts, i, i0, j, q);
    var i1, e1, s1, text' := FailedRunRecords(b, acts, j', r, KeyOf(b[j'].runs[r]));
    SameLastFailure(acts, i', i1, j', r);
    TextsAgree(b, acts, j, j', b[j].runs[q].task, e, e', text, text');
    if j <= j' { OutcomesAreWriteOnce(b, acts, j, j'); } else { OutcomesAreWriteOnce(b, acts, j', j); }
  }

  lemma SameLastFailure(acts: seq<Action>, i: nat, k: nat, j: nat, r: RunId)
    requires i < j <= |acts| && k < j && IdleBetween(acts, i, j, r) && IdleBetween(acts, k, j, r)
    requires acts[i].Advance? && acts[i].run == r && acts[k].Advance? && acts[k].run == r
    ensures i == k
  {
  }

  // ----- attempts ----------------------------------------------------------------------------------------

  /** A run makes at least one attempt and at most as many as it was allowed. */
  lemma {:induction false} AttemptsAreBounded(b: seq<State>, acts: seq<Action>, j: nat, r: RunId)
    requires Behavior(b, acts) && j < |b| && r in b[j].runs && b[j].runs[r].maxAttempts >= 1
    ensures 1 <= b[j].runs[r].attempt <= b[j].runs[r].maxAttempts
  {
    assert j > 0;
    assert b[j - 1 + 1] == Apply(b[j - 1], acts[j - 1]);
    if r in b[j - 1].runs {
      AttemptsAreBounded(b, acts, j - 1, r);
      if acts[j - 1].Advance? && acts[j - 1].run == r {
        AttemptsMoveByFailures(b[j - 1], b[j - 1].runs[r], acts[j - 1].oracle);
      }
    }
  }

  /** The next attempt begins exactly when one fails that is not the last. */
  lemma AttemptsMoveByFailures(s: State, run: Run, o: Oracle)
    ensures var e := StepRun(s, run, o);
            && e.attempt == (if run.pc.Handling? && run.attempt < run.maxAttempts then run.attempt + 1 else run.attempt)
            && (run.pc.Handling? && run.attempt < run.maxAttempts ==> e.pc.Selecting? && e.outcomes == s.outcomes)
  {
    if InDispatcher(run.pc) { DispatcherKeepsAttempt(s, run, o); }
  }

  lemma DispatcherKeepsAttempt(s: State, run: Run, o: Oracle)
    requires InDispatcher(run.pc)
    ensures StepDispatcher(s, run, o).attempt == run.attempt
  {
  }
}
