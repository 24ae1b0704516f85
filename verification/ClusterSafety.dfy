/** What every interleaving of the execution system keeps. */
module ClusterSafety {
  import opened Basics
  import Own = TaskOwnership
  import opened ClusterExecution
  import TaskCompletion

  // ----- write-once terminal outcomes ------------------------------------------------

  ghost predicate Grows<K, V>(m: map<K, V>, m': map<K, V>) {
    forall k :: k in m ==> k in m' && m'[k] == m[k]
  }

  ghost predicate Extends(k: Outcomes, k': Outcomes) {
    Grows(k.results, k'.results) && Grows(k.failures, k'.failures)
  }

  /** No task has both outcomes, and a result is filed under its own task. */
  ghost predicate Filed(k: Outcomes) {
    forall t :: t in k.results ==> t !in k.failures && k.results[t].task == t
  }

  /** A stale-ownership error is never the stored failure. */
  ghost predicate NoStaleFailure(k: Outcomes) {
    forall t :: t in k.failures ==> !k.failures[t].Stale?
  }

  ghost predicate Sane(k: Outcomes) { Filed(k) && NoStaleFailure(k) }

  /** A result some run or completion record carries comes from the backend's store. */
  ghost predicate Authoritative(k: Outcomes, t: Id, x: ComputeResult) {
    t in k.results && SameExecution(x, k.results[t])
  }

  ghost predicate PcJustified(k: Outcomes, t: Id, pc: Pc) {
    pc.Completing? || pc.Returned? ==> Authoritative(k, t, pc.result) && pc.result.selection == Some(ExplicitCluster)
  }

  ghost predicate RecordJustified(k: Outcomes, t: Id, status: Status) {
    status.Completed? ==> Authoritative(k, t, status.result) && status.result.selection == Some(ExplicitCluster)
  }

  ghost predicate Inv(s: State) {
    && Own.Fenced(s.registry)
    && Sane(s.outcomes)
    && (forall r :: r in s.runs ==> PcJustified(s.outcomes, s.runs[r].task, s.runs[r].pc))
    && (forall k :: k in s.completions ==> RecordJustified(s.outcomes, k.1, s.completions[k]))
  }

  /** A step of a run may be committed: the stores only grow and what it carries is theirs. */
  ghost predicate Sound(s: State, run: Run, e: Effect) {
    && Own.Fenced(e.registry) && Sane(e.outcomes) && Extends(s.outcomes, e.outcomes)
    && PcJustified(e.outcomes, run.task, e.pc)
    && (e.status.Some? ==> RecordJustified(e.outcomes, run.task, e.status.value))
  }

  lemma CommitKeepsInv(s: State, r: RunId, e: Effect)
    requires Inv(s) && r in s.runs && Sound(s, s.runs[r], e)
    ensures Inv(Commit(s, r, e))
  {
  }

  lemma HandlingIsSound(s: State, r: RunId)
    requires Inv(s) && r in s.runs && s.runs[r].pc.Handling?
    ensures Sound(s, s.runs[r], Handle(s, s.runs[r], s.runs[r].pc.exc, s.runs[r].pc.selected))
  {
  }

  lemma PlainEffectsAreSound(s: State, run: Run, pc: Pc, status: Status)
    requires Inv(s) && PcJustified(s.outcomes, run.task, pc)
    ensures Sound(s, run, Goto(s, run, pc))
    ensures RecordJustified(s.outcomes, run.task, status) ==> Sound(s, run, Record(s, run, pc, status))
  {
  }

  /** Where the results a record step carries come from: its counter, or its completion record. */
  lemma RecordStepOrigins(s: State, run: Run, o: Oracle)
    requires !InDispatcher(run.pc) && !InBackend(run.pc)
    ensures var e, key := StepRecord(s, run, o), (run.runtime, run.task);
            && (e == Goto(s, run, e.pc) || (e.status.Some? && e == Record(s, run, e.pc, e.status.value)))
            && (e.pc.Completing? || e.pc.Returned? ==>
                  || ((run.pc.Completing? || run.pc.Returned?) && e.pc.result == run.pc.result)
                  || (key in s.completions && s.completions[key].Completed?
                      && e.pc.result == s.completions[key].result))
            && (e.status.Some? && e.status.value.Completed? ==>
                  run.pc.Completing? && e.status.value.result == run.pc.result)
  {
  }

  lemma RecordIsSound(s: State, r: RunId, o: Oracle)
    requires Inv(s) && r in s.runs && !InDispatcher(s.runs[r].pc) && !InBackend(s.runs[r].pc)
    ensures Sound(s, s.runs[r], StepRecord(s, s.runs[r], o))
  {
    var run := s.runs[r];
    var e := StepRecord(s, run, o);
    RecordStepOrigins(s, run, o);
    if (run.runtime, run.task) in s.completions {
      assert RecordJustified(s.outcomes, run.task, s.completions[(run.runtime, run.task)]);
    }
    assert PcJustified(s.outcomes, run.task, run.pc);
    assert PcJustified(s.outcomes, run.task, e.pc);
    PlainEffectsAreSound(s, run, e.pc, if e.status.Some? then e.status.value else TaskCompletion.Pending);
  }

  predicate TouchesOwnership(pc: Pc) { pc.Claiming? || pc.Releasing? || pc.Reclaiming? }

  lemma OwnershipStepIsSound(s: State, r: RunId, o: Oracle)
    requires Inv(s) && r in s.runs && TouchesOwnership(s.runs[r].pc)
    ensures Sound(s, s.runs[r], StepDispatcher(s, s.runs[r], o))
  {
  }

  lemma DispatcherStepIsSound(s: State, r: RunId, o: Oracle)
    requires Inv(s) && r in s.runs && InDispatcher(s.runs[r].pc) && !TouchesOwnership(s.runs[r].pc)
    ensures Sound(s, s.runs[r], StepDispatcher(s, s.runs[r], o))
  {
  }

  lemma BackendStepIsSound(s: State, r: RunId, o: Oracle)
    requires Inv(s) && r in s.runs && InBackend(s.runs[r].pc)
    ensures Sound(s, s.runs[r], StepBackend(s, s.runs[r], o))
  {
  }

  lemma StepKeepsInv(s: State, a: Action)
    requires Inv(s)
    ensures Inv(Apply(s, a)) && Extends(s.outcomes, Apply(s, a).outcomes)
  {
    if a.Advance? && a.run in s.runs {
      var pc := s.runs[a.run].pc;
      if TouchesOwnership(pc) { OwnershipStepIsSound(s, a.run, a.oracle); }
      else if InDispatcher(pc) { DispatcherStepIsSound(s, a.run, a.oracle); }
      else if InBackend(pc) { BackendStepIsSound(s, a.run, a.oracle); }
      else if pc.Handling? { HandlingIsSound(s, a.run); }
      else if !pc.Selecting? && !pc.Checking? { RecordIsSound(s, a.run, a.oracle); }
      CommitKeepsInv(s, a.run, StepRun(s, s.runs[a.run], a.oracle));
    }
  }

  lemma {:induction false} InvHolds(b: seq<State>, acts: seq<Action>, i: nat)
    requires Behavior(b, acts) && i < |b|
    ensures Inv(b[i])
  {
    if i > 0 {
      InvHolds(b, acts, i - 1);
      StepKeepsInv(b[i - 1], acts[i - 1]);
      assert b[i - 1 + 1] == Apply(b[i - 1], acts[i - 1]);
    }
  }

  lemma ExtendsTransitive(k: Outcomes, k': Outcomes, k'': Outcomes)
    requires Extends(k, k') && Extends(k', k'')
    ensures Extends(k, k'')
  {
  }

  /** Published outcomes are write-once: nothing published is ever changed or withdrawn. */
  lemma {:induction false} OutcomesAreWriteOnce(b: seq<State>, acts: seq<Action>, i: nat, j: nat)
    requires Behavior(b, acts) && i <= j < |b|
    ensures Extends(b[i].outcomes, b[j].outcomes)
  {
    if i < j {
      OutcomesAreWriteOnce(b, acts, i, j - 1);
      InvHolds(b, acts, j - 1);
      StepKeepsInv(b[j - 1], acts[j - 1]);
      assert b[j - 1 + 1] == Apply(b[j - 1], acts[j - 1]);
      ExtendsTransitive(b[i].outcomes, b[j - 1].outcomes, b[j].outcomes);
    }
  }

  /** A task never has two terminal outcomes, and a stale-ownership error is never published. */
  lemma AtMostOneOutcome(b: seq<State>, acts: seq<Action>, i: nat, j: nat, t: Id)
    requires Behavior(b, acts) && i < |b| && j < |b|
    ensures !(t in b[i].outcomes.results && t in b[j].outcomes.failures)
    ensures t in b[i].outcomes.failures ==> !b[i].outcomes.failures[t].Stale?
  {
    InvHolds(b, acts, i);
    InvHolds(b, acts, j);
    if i <= j { OutcomesAreWriteOnce(b, acts, i, j); } else { OutcomesAreWriteOnce(b, acts, j, i); }
  }

  /** What a run that returned has seen is the one stored result, then and at any later time. */
  lemma ReturnedIsAuthoritative(b: seq<State>, acts: seq<Action>, i: nat, j: nat, r: RunId)
    requires Behavior(b, acts) && i <= j < |b|
    requires r in b[i].runs && b[i].runs[r].pc.Returned?
    ensures Authoritative(b[j].outcomes, b[i].runs[r].task, b[i].runs[r].pc.result)
    ensures b[i].runs[r].pc.result.selection == Some(ExplicitCluster)
  {
    InvHolds(b, acts, i);
    assert PcJustified(b[i].outcomes, b[i].runs[r].task, b[i].runs[r].pc);
    OutcomesAreWriteOnce(b, acts, i, j);
  }

  /** Any two runs that return for a task, whenever they return, return the same result. */
  lemma AllReturnsAgree(b: seq<State>, acts: seq<Action>, i: nat, j: nat, q: RunId, r: RunId)
    requires Behavior(b, acts) && i < |b| && j < |b|
    requires q in b[i].runs && b[i].runs[q].pc.Returned?
    requires r in b[j].runs && b[j].runs[r].pc.Returned?
    requires b[i].runs[q].task == b[j].runs[r].task
    ensures b[i].runs[q].pc.result == b[j].runs[r].pc.result
  {
    var last := if i <= j then j else i;
    ReturnedIsAuthoritative(b, acts, i, last, q);
    ReturnedIsAuthoritative(b, acts, j, last, r);
  }

  /** Two runtimes that both record a task as completed record the same result. */
  lemma CompletedRecordsAgree(b: seq<State>, acts: seq<Action>, i: nat, j: nat, p: RuntimeId, q: RuntimeId, t: Id)
    requires Behavior(b, acts) && i <= j < |b|
    requires (p, t) in b[i].completions && b[i].completions[(p, t)].Completed?
    requires (q, t) in b[j].completions && b[j].completions[(q, t)].Completed?
    ensures b[i].completions[(p, t)].result == b[j].completions[(q, t)].result
  {
    InvHolds(b, acts, i);
    InvHolds(b, acts, j);
    assert RecordJustified(b[i].outcomes, t, b[i].completions[(p, t)]);
    assert RecordJustified(b[j].outcomes, t, b[j].completions[(q, t)]);
    OutcomesAreWriteOnce(b, acts, i, j);
  }

  /** Once a failure is published, no run of that task has returned, is about to, or ever will. */
  lemma NoReturnAroundAFailure(b: seq<State>, acts: seq<Action>, i: nat, j: nat, r: RunId)
    requires Behavior(b, acts) && i < |b| && j < |b|
    requires r in b[j].runs && b[j].runs[r].task in b[i].outcomes.failures
    ensures !b[j].runs[r].pc.Returned? && !b[j].runs[r].pc.Completing?
  {
    InvHolds(b, acts, j);
    assert PcJustified(b[j].outcomes, b[j].runs[r].task, b[j].runs[r].pc);
    AtMostOneOutcome(b, acts, j, i, b[j].runs[r].task);
  }

  // ----- dispatch intervals ----------------------------------------------------------

  /** The ownership event a run's step performs, if any. */
  function EventOf(run: Run): Option<Own.Event> {
    match run.pc
    case Claiming(n) => Some(Own.Claim(run.task, n))
    case Releasing(n, g, _) => Some(Own.Release(run.task, n, g))
    case Reclaiming(_, _, members) => Some(Own.Reclaim(members))
    case _ => None
  }

  lemma StepPerformsItsEvent(s: State, run: Run, o: Oracle)
    ensures StepRun(s, run, o).registry
            == if EventOf(run).Some? then Own.Apply(s.registry, EventOf(run).value) else s.registry
  {
  }

  /** Seen from the ownership registry, every step is at most one ownership event. */
  lemma RegistryMovesByEvents(s: State, a: Action) returns (events: seq<Own.Event>)
    ensures Apply(s, a).registry == Own.After(s.registry, events)
  {
    events := [];
    if a.Advance? && a.run in s.runs {
      StepPerformsItsEvent(s, s.runs[a.run], a.oracle);
      if EventOf(s.runs[a.run]).Some? { events := [EventOf(s.runs[a.run]).value]; }
    }
  }

  lemma {:induction false} OwnershipHistory(b: seq<State>, acts: seq<Action>, i: nat, j: nat)
    returns (events: seq<Own.Event>)
    requires Behavior(b, acts) && i <= j < |b|
    ensures b[j].registry == Own.After(b[i].registry, events)
  {
    events := [];
    if i < j {
      var before := OwnershipHistory(b, acts, i, j - 1);
      var last := RegistryMovesByEvents(b[j - 1], acts[j - 1]);
      assert b[j - 1 + 1] == Apply(b[j - 1], acts[j - 1]);
      Own.AfterAppend(b[i].registry, before, last);
      events := before + last;
    }
  }

  /** A token current at two instants was current at every instant between them. */
  lemma CurrentBetween(b: seq<State>, acts: seq<Action>, i: nat, k: nat, j: nat, t: Id, n: Id, g: nat)
    requires Behavior(b, acts) && i <= k <= j < |b|
    requires Own.Current(b[i].registry, t, n, g) && Own.Current(b[j].registry, t, n, g)
    ensures Own.Current(b[k].registry, t, n, g)
  {
    InvHolds(b, acts, i);
    InvHolds(b, acts, k);
    var first := OwnershipHistory(b, acts, i, k);
    var second := OwnershipHistory(b, acts, k, j);
    Own.TokenLostMeansRetired(b[i].registry, first, t, n, g);
    Own.RunKeepsFence(b[k].registry, second, t, g);
  }

  /** In step i, run r's dispatch claims task t for node n with generation g. */
  ghost predicate ClaimsAt(b: seq<State>, acts: seq<Action>, i: nat, r: RunId, t: Id, n: Id, g: nat) {
    && i < |acts| && i + 1 < |b| && acts[i].Advance? && acts[i].run == r
    && r in b[i].runs && b[i].runs[r].task == t && b[i].runs[r].pc == Claiming(n)
    && r in b[i + 1].runs && b[i + 1].runs[r].pc == Claimed(n, g)
  }

  /** In step j, that dispatch hands its executor's value or own error to the backend; an own
      stale-ownership error is told apart from the one a refused release raises by its text. */
  ghost predicate DeliversAt(b: seq<State>, acts: seq<Action>, j: nat, r: RunId, t: Id, n: Id, g: nat) {
    && j < |acts| && j + 1 < |b| && acts[j].Advance? && acts[j].run == r
    && r in b[j].runs && b[j].runs[r].task == t && b[j].runs[r].pc.Releasing?
    && b[j].runs[r].pc.node == n && b[j].runs[r].pc.generation == g
    && r in b[j + 1].runs
    && match b[j].runs[r].pc.outcome
       case Value(v) => b[j + 1].runs[r].pc == Publishing(v)
       case Raise(e) =>
         if e.Stale? then e != Stale(StaleOwnership) && b[j + 1].runs[r].pc == StaleLookup(e)
         else b[j + 1].runs[r].pc == Handling(e, true)
  }

  lemma ClaimMakesCurrent(b: seq<State>, acts: seq<Action>, i: nat, r: RunId, t: Id, n: Id, g: nat)
    requires Behavior(b, acts) && ClaimsAt(b, acts, i, r, t, n, g)
    ensures Own.Current(b[i + 1].registry, t, n, g)
  {
    assert b[i + 1] == Apply(b[i], acts[i]);
  }

  lemma DeliveryNeedsCurrent(b: seq<State>, acts: seq<Action>, j: nat, r: RunId, t: Id, n: Id, g: nat)
    requires Behavior(b, acts) && DeliversAt(b, acts, j, r, t, n, g)
    ensures Own.Current(b[j].registry, t, n, g)
  {
    assert b[j + 1] == Apply(b[j], acts[j]);
  }

  lemma NoClaimWhileHeld(
    b: seq<State>, acts: seq<Action>, k: nat, t: Id, n: Id, g: nat, q: RunId, n': Id, g': nat)
    requires Behavior(b, acts) && k < |b| && Own.Current(b[k].registry, t, n, g)
    ensures !ClaimsAt(b, acts, k, q, t, n', g')
  {
    if k < |acts| { assert b[k + 1] == Apply(b[k], acts[k]); }
  }

  /** A dispatch that delivers held its generation from its claim through its release, and
      nobody else even claimed the task meanwhile. */
  lemma DeliveryMeansHeldThroughout(b: seq<State>, acts: seq<Action>, i: nat, j: nat, r: RunId, t: Id, n: Id, g: nat)
    requires Behavior(b, acts) && i < j
    requires ClaimsAt(b, acts, i, r, t, n, g) && DeliversAt(b, acts, j, r, t, n, g)
    ensures forall k :: i < k <= j ==> Own.Current(b[k].registry, t, n, g)
    ensures forall k, q, n', g' :: i < k <= j ==> !ClaimsAt(b, acts, k, q, t, n', g')
  {
    ClaimMakesCurrent(b, acts, i, r, t, n, g);
    DeliveryNeedsCurrent(b, acts, j, r, t, n, g);
    forall k | i < k <= j ensures Own.Current(b[k].registry, t, n, g) {
      CurrentBetween(b, acts, i + 1, k, j, t, n, g);
    }
    forall k, q, n', g' | i < k <= j ensures !ClaimsAt(b, acts, k, q, t, n', g') {
      NoClaimWhileHeld(b, acts, k, t, n, g, q, n', g');
    }
  }

  /** Claim-to-release intervals of delivering dispatches of one task never overlap,
      although their executor bodies may. */
  lemma DeliveringDispatchesAreDisjoint(
    b: seq<State>, acts: seq<Action>, t: Id,
    i: nat, j: nat, r: RunId, n: Id, g: nat, i': nat, j': nat, r': RunId, n': Id, g': nat)
    requires Behavior(b, acts) && i < j && i' < j' && i != i'
    requires ClaimsAt(b, acts, i, r, t, n, g) && DeliversAt(b, acts, j, r, t, n, g)
    requires ClaimsAt(b, acts, i', r', t, n', g') && DeliversAt(b, acts, j', r', t, n', g')
    ensures j < i' || j' < i
  {
    DeliveryMeansHeldThroughout(b, acts, i, j, r, t, n, g);
    DeliveryMeansHeldThroughout(b, acts, i', j', r', t, n', g');
  }

  /** One release, by what the registry says at that moment. */
  lemma ReleaseDecides(s: State, r: RunId, o: Oracle)
    requires r in s.runs && s.runs[r].pc.Releasing?
    ensures var run, s' := s.runs[r], Apply(s, Advance(r, o));
            var held := Own.Current(s.registry, run.task, run.pc.node, run.pc.generation);
            && (!held ==> s'.runs[r].pc == StaleLookup(Stale(StaleOwnership)) && s'.registry == s.registry)
            && (held ==> run.task !in s'.registry.items)
  {
  }

  /** A dispatch that lost its generation at any instant after its claim surfaces as a
      stale-ownership error when it ends, whatever its executor did, and takes nothing from the
      registry. */
  lemma SupersededSurfacesAsStale(
    b: seq<State>, acts: seq<Action>, i: nat, k: nat, j: nat, r: RunId, t: Id, n: Id, g: nat)
    requires Behavior(b, acts) && i < k <= j < |acts|
    requires ClaimsAt(b, acts, i, r, t, n, g) && !Own.Current(b[k].registry, t, n, g)
    requires acts[j].Advance? && acts[j].run == r && r in b[j].runs && b[j].runs[r].task == t
    requires b[j].runs[r].pc.Releasing? && b[j].runs[r].pc.node == n && b[j].runs[r].pc.generation == g
    ensures r in b[j + 1].runs && b[j + 1].runs[r].pc == StaleLookup(Stale(StaleOwnership))
    ensures b[j + 1].registry == b[j].registry
  {
    ClaimMakesCurrent(b, acts, i, r, t, n, g);
    assert b[j + 1] == Apply(b[j], acts[j]);
    if Own.Current(b[j].registry, t, n, g) { CurrentBetween(b, acts, i + 1, k, j, t, n, g); }
    ReleaseDecides(b[j], r, acts[j].oracle);
  }
}
