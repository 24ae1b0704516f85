/** When an answer of `ComputeRuntime.run` survives a crash (nexus/compute/runtime.py): a completed
    record is answered from memory, and only a later save makes it durable. */
module AnswerDurability {
  import opened Basics
  import opened TaskCompletion
  import opened CrashConsistency

  /** The record of t is completed with a result a run may answer. */
  predicate Answerable(s: State, t: Id) {
    t in s.mem && s.mem[t].Completed? && s.mem[t].result.Live?
  }

  /** A crash right now recovers t as completed. */
  predicate Durable(s: State, t: Id) {
    t in Recover(s.disk) && Recover(s.disk)[t].Completed?
  }

  /** The action replaces the durable file. */
  predicate SavesNow(s: State, a: Action) {
    match a
    case Persist(ok) => ok
    case Advance(c, o) =>
      && c in s.calls && o.saves
      && (s.calls[c].pc.SavingPending? || s.calls[c].pc.SavingRunning? || s.calls[c].pc.SavingTerminal?)
    case _ => false
  }

  lemma SaveCopiesMemory(s: State, a: Action)
    ensures Apply(s, a).disk == if SavesNow(s, a) then Some(Flatten(s.mem)) else s.disk
    ensures SavesNow(s, a) ==> Apply(s, a).mem == s.mem
  {
  }

  /** The record was not reloaded as completed from an earlier process. */
  predicate NotReloaded(m: map<Id, Record>, t: Id) { t in m && !(m[t].Completed? && m[t].result.Reloaded?) }

  /** Short of a crash records stay, terminal ones unchanged, and what is written is live. */
  lemma MemoryMovesOn(s: State, a: Action, t: Id)
    requires !a.Crash?
    ensures t in s.mem ==> t in Apply(s, a).mem
    ensures t in s.mem && s.mem[t].Terminal() ==> Apply(s, a).mem[t] == s.mem[t]
    ensures t in Apply(s, a).mem ==> (t in s.mem && Apply(s, a).mem[t] == s.mem[t]) || NotReloaded(Apply(s, a).mem, t)
  {
  }

  function StateAt(acts: seq<Action>, k: nat): State
    requires k <= |acts|
  {
    RunAll(FRESH, acts[..k])
  }

  lemma StateSteps(acts: seq<Action>, k: nat)
    requires k < |acts|
    ensures StateAt(acts, k + 1) == Apply(StateAt(acts, k), acts[k])
  {
    assert acts[..k + 1][..k] == acts[..k];
  }

  /** Nothing recovered from the file is live. */
  lemma RecoveredIsNotLive(acts: seq<Action>, t: Id)
    ensures var m := Recover(RunAll(FRESH, acts).disk);
            t in m && m[t].Completed? ==> m[t].result.Reloaded?
  {
    DiskIsFlat(acts);
    var d := RunAll(FRESH, acts).disk;
    if d.Some? && t in d.value { assert Flat(d.value[t]) == d.value[t]; }
  }

  /** The file never runs ahead of memory. */
  lemma {:induction false} DurableIsInMemory(acts: seq<Action>, t: Id)
    ensures var s := RunAll(FRESH, acts); Durable(s, t) ==> t in s.mem && s.mem[t].Completed?
    decreases |acts|
  {
    if acts != [] {
      DurableIsInMemory(acts[..|acts| - 1], t);
      var s, a := RunAll(FRESH, acts[..|acts| - 1]), acts[|acts| - 1];
      SaveCopiesMemory(s, a);
      if !a.Crash? { MemoryMovesOn(s, a, t); }
    }
  }

  /** What is durable once stays durable, through any later crashes. */
  lemma {:induction false} DurableForever(acts: seq<Action>, i: nat, j: nat, t: Id)
    requires i <= j <= |acts| && Durable(StateAt(acts, i), t)
    ensures Durable(StateAt(acts, j), t)
    decreases j
  {
    if i < j {
      DurableForever(acts, i, j - 1, t);
      DurableIsInMemory(acts[..j - 1], t);
      StateSteps(acts, j - 1);
      SaveCopiesMemory(StateAt(acts, j - 1), acts[j - 1]);
    }
  }

  // ----- the exact condition ---------------------------------------------------------------------

  /** Step k completes the record of t, which is answerable ever since. */
  ghost predicate CompletesAt(acts: seq<Action>, k: nat, t: Id) {
    && k < |acts| && !Answerable(StateAt(acts, k), t)
    && forall j :: k < j <= |acts| ==> Answerable(StateAt(acts, j), t)
  }

  lemma {:induction false} EveryAnswerHasItsStep(acts: seq<Action>, t: Id) returns (k: nat)
    requires Answerable(RunAll(FRESH, acts), t)
    ensures CompletesAt(acts, k, t)
    decreases |acts|
  {
    var last := |acts| - 1;
    assert acts[..|acts|] == acts;
    if Answerable(StateAt(acts, last), t) {
      k := EveryAnswerHasItsStep(acts[..last], t);
      forall j | k < j <= |acts| ensures Answerable(StateAt(acts, j), t) {
        if j <= last {
          assert acts[..last][..j] == acts[..j];
          assert Answerable(StateAt(acts[..last], j), t);
        } else {
          assert acts[..j] == acts;
        }
      }
      assert acts[..last][..k] == acts[..k];
    } else {
      k := last;
    }
  }

  /** Some save succeeded after step k and before step j. */
  ghost predicate SavedSince(acts: seq<Action>, k: nat, j: nat)
    requires j <= |acts|
  {
    exists i :: k < i < j && SavesNow(StateAt(acts, i), acts[i])
  }

  lemma SavedOneMore(acts: seq<Action>, k: nat, j: nat)
    requires k < j < |acts|
    ensures SavedSince(acts, k, j + 1) <==> SavedSince(acts, k, j) || SavesNow(StateAt(acts, j), acts[j])
  {
    assert SavesNow(StateAt(acts, j), acts[j]) ==> SavedSince(acts, k, j + 1);
  }

  /** The completing step itself makes nothing durable. */
  lemma NotDurableAtFirst(acts: seq<Action>, k: nat, t: Id)
    requires k < |acts| && !Answerable(StateAt(acts, k), t) && Answerable(StateAt(acts, k + 1), t)
    ensures !Durable(StateAt(acts, k + 1), t)
  {
    var s, a := StateAt(acts, k), acts[k];
    StateSteps(acts, k);
    DurableIsInMemory(acts[..k], t);
    RecoveredIsNotLive(acts[..k], t);
    SaveCopiesMemory(s, a);
    if !a.Crash? { MemoryMovesOn(s, a, t); }
  }

  /** While it stays answerable, it becomes durable exactly at a successful save. */
  lemma SavingMakesDurable(acts: seq<Action>, j: nat, t: Id)
    requires j < |acts| && Answerable(StateAt(acts, j), t) && Answerable(StateAt(acts, j + 1), t)
    ensures Durable(StateAt(acts, j + 1), t) <==> Durable(StateAt(acts, j), t) || SavesNow(StateAt(acts, j), acts[j])
  {
    var s, a := StateAt(acts, j), acts[j];
    StateSteps(acts, j);
    RecoveredIsNotLive(acts[..j], t);
    SaveCopiesMemory(s, a);
  }

  lemma AnswerableSince(acts: seq<Action>, k: nat, j: nat, t: Id)
    requires CompletesAt(acts, k, t) && k < j <= |acts|
    ensures Answerable(StateAt(acts, j), t)
  {
  }

  lemma DurableFirst(acts: seq<Action>, k: nat, t: Id)
    requires CompletesAt(acts, k, t)
    ensures Durable(StateAt(acts, k + 1), t) <==> SavedSince(acts, k, k + 1)
  {
    AnswerableSince(acts, k, k + 1, t);
    NotDurableAtFirst(acts, k, t);
  }

  lemma DurableOneMore(acts: seq<Action>, k: nat, j: nat, t: Id)
    requires CompletesAt(acts, k, t) && k < j < |acts|
    requires Durable(StateAt(acts, j), t) <==> SavedSince(acts, k, j)
    ensures Durable(StateAt(acts, j + 1), t) <==> SavedSince(acts, k, j + 1)
  {
    AnswerableSince(acts, k, j, t);
    AnswerableSince(acts, k, j + 1, t);
    SavingMakesDurable(acts, j, t);
    SavedOneMore(acts, k, j);
  }

  lemma {:induction false} DurableSince(acts: seq<Action>, k: nat, j: nat, t: Id)
    requires CompletesAt(acts, k, t) && k < j <= |acts|
    ensures Durable(StateAt(acts, j), t) <==> SavedSince(acts, k, j)
    decreases j
  {
    if j == k + 1 {
      DurableFirst(acts, k, t);
    } else {
      DurableSince(acts, k, j - 1, t);
      DurableOneMore(acts, k, j - 1, t);
    }
  }

  /** After any actions, a record completed in memory is recovered as completed if and only if some
      save succeeded after the step that completed it. */
  lemma DurableExactlyWhenSaved(acts: seq<Action>, k: nat, t: Id)
    requires CompletesAt(acts, k, t)
    ensures Durable(RunAll(FRESH, acts), t) <==> SavedSince(acts, k, |acts|)
  {
    assert acts[..|acts|] == acts;
    DurableSince(acts, k, |acts|, t);
  }

  /** A caller can secure an answer: a `persist` that succeeds always suffices, for good. */
  lemma PersistSecuresTheAnswer(acts: seq<Action>, t: Id, later: seq<Action>)
    requires Answerable(RunAll(FRESH, acts), t)
    ensures Durable(RunAll(FRESH, acts + [Persist(true)] + later), t)
  {
    var all := acts + [Persist(true)] + later;
    var n := |acts|;
    assert all[..n] == acts && all[..|all|] == all;
    StateSteps(all, n);
    SaveCopiesMemory(StateAt(all, n), all[n]);
    DurableForever(all, n + 1, |all|, t);
  }

  // ----- every answer of every call ------------------------------------------------------------

  /** Calls in progress own records of this process; a call that returned answered a live one. */
  ghost predicate CallsHold(s: State) {
    forall c :: c in s.calls ==>
      && (Owns(s.calls[c].pc) ==> NotReloaded(s.mem, s.calls[c].task))
      && (s.calls[c].pc.Returned? ==> Answerable(s, s.calls[c].task))
  }

  lemma OwnStepHolds(s: State, c: CallId, o: Oracle)
    requires CallsHold(s) && c in s.calls
    ensures var k, s' := s.calls[c], Apply(s, Advance(c, o));
            && (Owns(s'.calls[c].pc) ==> NotReloaded(s'.mem, k.task))
            && (s'.calls[c].pc.Returned? ==> Answerable(s', k.task))
  {
  }

  lemma StepKeepsCalls(s: State, a: Action)
    requires CallsHold(s)
    ensures CallsHold(Apply(s, a))
  {
    var s' := Apply(s, a);
    if a.Advance? && a.call in s.calls { OwnStepHolds(s, a.call, a.oracle); }
    forall c | c in s'.calls && c in s.calls && s'.calls[c] == s.calls[c]
      ensures Owns(s'.calls[c].pc) ==> NotReloaded(s'.mem, s'.calls[c].task)
      ensures s'.calls[c].pc.Returned? ==> Answerable(s', s'.calls[c].task)
    {
      if !a.Crash? { MemoryMovesOn(s, a, s.calls[c].task); }
    }
  }

  lemma {:induction false} CallsAlwaysHold(acts: seq<Action>)
    ensures CallsHold(RunAll(FRESH, acts))
    decreases |acts|
  {
    if acts != [] {
      CallsAlwaysHold(acts[..|acts| - 1]);
      StepKeepsCalls(RunAll(FRESH, acts[..|acts| - 1]), acts[|acts| - 1]);
    }
  }

  /** The answer of any call, first or repeated, is durable if and only if some save succeeded
      after the step that completed the record it answers. */
  lemma AnswerIsDurableExactlyWhenSaved(acts: seq<Action>, c: CallId) returns (k: nat)
    requires c in RunAll(FRESH, acts).calls && RunAll(FRESH, acts).calls[c].pc.Returned?
    ensures var t := RunAll(FRESH, acts).calls[c].task;
            && Answerable(RunAll(FRESH, acts), t) && CompletesAt(acts, k, t)
            && (Durable(RunAll(FRESH, acts), t) <==> SavedSince(acts, k, |acts|))
  {
    CallsAlwaysHold(acts);
    var t := RunAll(FRESH, acts).calls[c].task;
    k := EveryAnswerHasItsStep(acts, t);
    DurableExactlyWhenSaved(acts, k, t);
  }

  // ----- an answer that is not durable ---------------------------------------------------------

  const SMOOTH := Oracle(true, true, true, true, "out", "error")

  /** One step of call c that is known to lead to this counter. */
  lemma Go(s: State, c: CallId, o: Oracle, pc: Pc) returns (s': State)
    requires Reached(s) && c in s.calls && CallStep(s, c, s.calls[c], o).pc == pc
    ensures Reached(s') && s' == Commit(s, c, CallStep(s, c, s.calls[c], o)) && s'.calls[c].pc == pc
  {
    ReachedStep(s, Advance(c, o));
    s' := Apply(s, Advance(c, o));
  }

  lemma CallUpToCreating() returns (s: State)
    ensures Reached(s) && s.calls == map[0 := Call("t", 1, true, Creating)]
    ensures s.mem == map[] && s.past.used == {0}
  {
    FreshIsReached();
    ReachedStep(FRESH, Run(0, "t", 1, true));
    var called := Apply(FRESH, Run(0, "t", 1, true));
    s := Go(called, 0, SMOOTH, Creating);
  }

  lemma CallUpToStarting() returns (s: State)
    ensures Reached(s) && s.calls == map[0 := Call("t", 1, true, Starting)]
    ensures s.mem == map["t" := Pending] && s.past.used == {0}
  {
    var creating := CallUpToCreating();
    var saving := Go(creating, 0, SMOOTH, SavingPending);
    s := Go(saving, 0, SMOOTH, Starting);
  }

  /** A first call of "t" up to its backend, its running record saved. */
  lemma CallUpToBackend() returns (s: State)
    ensures Reached(s) && s.calls == map[0 := Call("t", 1, true, InBackend(1))]
    ensures s.mem == map["t" := Running] && s.disk == Some(map["t" := Running]) && s.past.used == {0}
  {
    var starting := CallUpToStarting();
    var saving := Go(starting, 0, SMOOTH, SavingRunning);
    var attempting := Go(saving, 0, SMOOTH, Attempting(1));
    s := Go(attempting, 0, SMOOTH, InBackend(1));
    var running: map<Id, Record> := map["t" := Running];
    assert s.mem == running && Flatten(running) == running;
  }

  lemma CallUpToLastSave() returns (s: State)
    ensures Reached(s) && s.calls == map[0 := Call("t", 1, true, SavingTerminal)]
    ensures s.mem == map["t" := Completed(Live("out"))] && s.disk == Some(map["t" := Running]) && s.past.used == {0}
  {
    var backend := CallUpToBackend();
    var completing := Go(backend, 0, SMOOTH, Completing("out"));
    s := Go(completing, 0, SMOOTH, SavingTerminal);
  }

  /** The first call completes its record, and the save that follows fails. */
  lemma CompletedButNotSaved() returns (s: State)
    ensures Reached(s) && 1 !in s.past.used && s.mem == map["t" := Completed(Live("out"))]
    ensures s.disk == Some(map["t" := Running])
  {
    var saving := CallUpToLastSave();
    s := Go(saving, 0, SMOOTH.(saves := false), Raised);
  }

  /** A repeated idempotent call may return a result that a crash then loses: the record was
      completed in memory, but the save after completing it had failed. */
  lemma IdempotentAnswerMayBeLost() returns (s: State)
    ensures Reached(s) && 1 in s.calls && s.calls[1] == Call("t", 1, true, Returned)
    ensures "t" in s.mem && s.mem["t"] == Completed(Live("out"))
    ensures "t" in Recover(s.disk) && Recover(s.disk)["t"].Failed?
  {
    s := CompletedButNotSaved();
    ReachedStep(s, Run(1, "t", 1, true));
    s := Apply(s, Run(1, "t", 1, true));
    s := Go(s, 1, SMOOTH, Returned);
  }
}
