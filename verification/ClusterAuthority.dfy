/** The dispatcher's in-flight authority check (nexus/compute/dispatcher.py): `_execution_authority`
    is keyed by (task, node), so what it accepts depends on every run of the task on that node. */
module ClusterAuthority {
  import opened Basics
  import Own = TaskOwnership
  import opened ClusterExecution
  import opened ClusterSafety

  /** `assert_execution_current`: the generation comes from `_execution_authority`. */
  predicate AuthorityAccepts(s: State, t: Id, n: Id) {
    (t, n) in s.authority && Own.Check(s.registry, t, n, s.authority[(t, n)]) == None
  }

  /** Acceptance guarantees that the node owns the task, and speaks for an execution (t, n, g)
      exactly when its generation is the newest handed out for the task. */
  lemma AuthorityCheckIsPerNode(b: seq<State>, acts: seq<Action>, i: nat, t: Id, n: Id, g: nat)
    requires Behavior(b, acts) && i < |b| && AuthorityAccepts(b[i], t, n)
    ensures t in b[i].registry.items && b[i].registry.items[t].node == n
    ensures b[i].authority[(t, n)] == Own.Latest(b[i].registry, t)
    ensures Own.Current(b[i].registry, t, n, g) <==> g == Own.Latest(b[i].registry, t)
  {
    InvHolds(b, acts, i);
  }

  // ----- generations held by runs --------------------------------------------------------------

  /** The dispatch holds a claim it has not yet tried to release. */
  predicate Holds(pc: Pc) { pc.Claimed? || pc.Executing? || pc.Leaving? || pc.Releasing? }

  ghost predicate HeldAreKnown(s: State) {
    forall r :: r in s.runs && Holds(s.runs[r].pc) ==> s.runs[r].pc.generation <= Own.Latest(s.registry, s.runs[r].task)
  }

  /** No two runs of a task ever hold the same generation. */
  ghost predicate HeldApart(s: State) {
    forall q, r :: (q in s.runs && r in s.runs && q != r && s.runs[q].task == s.runs[r].task
                    && Holds(s.runs[q].pc) && Holds(s.runs[r].pc)) ==>
      s.runs[q].pc.generation != s.runs[r].pc.generation
  }

  lemma GenerationsOnlyGrow(s: State, run: Run, o: Oracle)
    requires Own.Fenced(s.registry)
    ensures forall t :: Own.Latest(s.registry, t) <= Own.Latest(StepRun(s, run, o).registry, t)
  {
    StepPerformsItsEvent(s, run, o);
    if EventOf(run).Some? {
      forall t ensures Own.Latest(s.registry, t) <= Own.Latest(StepRun(s, run, o).registry, t) {
        Own.StepKeepsFence(s.registry, EventOf(run).value, t, 0);
      }
    }
  }

  lemma OutsideHoldsNothing(s: State, run: Run, o: Oracle)
    requires !InDispatcher(run.pc)
    ensures !Holds(StepRun(s, run, o).pc)
  {
  }

  /** What a step of the dispatcher does to the generation held. */
  ghost predicate KeepsOrClaims(s: State, run: Run, e: Effect) {
    Holds(e.pc) ==>
      || (Holds(run.pc) && e.pc.generation == run.pc.generation && e.pc.node == run.pc.node)
      || (e.pc.Claimed? && e.pc.generation == Own.Latest(s.registry, run.task) + 1
          && Own.Latest(e.registry, run.task) == e.pc.generation)
  }

  lemma DispatcherKeepsOrClaims(s: State, run: Run, o: Oracle)
    requires InDispatcher(run.pc)
    ensures KeepsOrClaims(s, run, StepDispatcher(s, run, o))
  {
  }

  /** A step keeps the generation it holds, or claims the next one. */
  lemma StepKeepsGeneration(s: State, run: Run, o: Oracle)
    ensures KeepsOrClaims(s, run, StepRun(s, run, o))
  {
    if InDispatcher(run.pc) { DispatcherKeepsOrClaims(s, run, o); } else { OutsideHoldsNothing(s, run, o); }
  }

  lemma StepKeepsApart(s: State, a: Action)
    requires Inv(s) && HeldAreKnown(s) && HeldApart(s)
    ensures HeldAreKnown(Apply(s, a)) && HeldApart(Apply(s, a))
  {
    if a.Advance? && a.run in s.runs {
      GenerationsOnlyGrow(s, s.runs[a.run], a.oracle);
      StepKeepsGeneration(s, s.runs[a.run], a.oracle);
    }
  }

  lemma {:induction false} HeldApartHolds(b: seq<State>, acts: seq<Action>, i: nat)
    requires Behavior(b, acts) && i < |b|
    ensures HeldAreKnown(b[i]) && HeldApart(b[i])
  {
    if i > 0 {
      HeldApartHolds(b, acts, i - 1);
      InvHolds(b, acts, i - 1);
      StepKeepsApart(b[i - 1], acts[i - 1]);
      assert b[i - 1 + 1] == Apply(b[i - 1], acts[i - 1]);
    }
  }

  // ----- when the current owner is accepted ------------------------------------------------------

  /** The step writes or removes the authority of (t, n). */
  predicate WritesAuthority(s: State, a: Action, t: Id, n: Id) {
    && a.Advance? && a.run in s.runs && s.runs[a.run].task == t
    && (s.runs[a.run].pc.Claimed? || s.runs[a.run].pc.Leaving?) && s.runs[a.run].pc.node == n
  }

  /** In step k another run of t than r writes or removes the authority of (t, n). */
  ghost predicate OtherWritesAt(b: seq<State>, acts: seq<Action>, k: nat, r: RunId, t: Id, n: Id)
    requires k < |acts| && k < |b|
  {
    WritesAuthority(b[k], acts[k], t, n) && acts[k].run != r
  }

  /** No other run wrote the authority of (t, n) in the steps strictly between i and j. */
  ghost predicate LeftAlone(b: seq<State>, acts: seq<Action>, i: nat, j: nat, r: RunId, t: Id, n: Id)
    requires j <= |acts| && j <= |b|
  {
    forall k :: i < k < j ==> !OtherWritesAt(b, acts, k, r, t, n)
  }

  lemma LeftAloneOneMore(b: seq<State>, acts: seq<Action>, i: nat, j: nat, r: RunId, t: Id, n: Id)
    requires i < j < |acts| && j < |b|
    ensures LeftAlone(b, acts, i, j + 1, r, t, n) <==>
            LeftAlone(b, acts, i, j, r, t, n) && !OtherWritesAt(b, acts, j, r, t, n)
  {
  }

  /** In step i, r records its generation g as the authority of (t, n). */
  ghost predicate OwnWriteAt(b: seq<State>, acts: seq<Action>, i: nat, r: RunId, t: Id, n: Id, g: nat) {
    && i < |acts| && i + 1 < |b| && acts[i].Advance? && acts[i].run == r
    && r in b[i].runs && b[i].runs[r].task == t && b[i].runs[r].pc == Claimed(n, g)
  }

  /** Inside the executor, or back from it with the authority not yet dropped. */
  predicate InBody(pc: Pc, n: Id, g: nat) {
    (pc.Executing? || pc.Leaving?) && pc.node == n && pc.generation == g
  }

  ghost predicate ExecutesAt(b: seq<State>, k: nat, r: RunId, t: Id, n: Id, g: nat)
    requires k < |b|
  {
    r in b[k].runs && b[k].runs[r].task == t && InBody(b[k].runs[r].pc, n, g)
  }

  /** Once r has left its body with generation g, it is never in a body with g again. */
  ghost predicate Past(s: State, r: RunId, t: Id, g: nat) {
    && r in s.runs && s.runs[r].task == t && g <= Own.Latest(s.registry, t)
    && var pc := s.runs[r].pc;
       !((pc.Claimed? || pc.Executing? || pc.Leaving?) && pc.generation == g)
  }

  lemma StepKeepsPast(s: State, a: Action, r: RunId, t: Id, n: Id, g: nat)
    requires Inv(s) && HeldAreKnown(s)
    requires Past(s, r, t, g) || (r in s.runs && s.runs[r].task == t && InBody(s.runs[r].pc, n, g))
    ensures var s' := Apply(s, a);
            || Past(s', r, t, g)
            || (r in s'.runs && s'.runs[r].task == t && InBody(s'.runs[r].pc, n, g) && InBody(s.runs[r].pc, n, g))
  {
    if a.Advance? && a.run in s.runs {
      GenerationsOnlyGrow(s, s.runs[a.run], a.oracle);
      StepKeepsGeneration(s, s.runs[a.run], a.oracle);
    }
  }

  /** From its own write to any later instant at which r is still in its body, it was there throughout. */
  lemma {:induction false} ExecutedThroughout(
    b: seq<State>, acts: seq<Action>, i: nat, k: nat, r: RunId, t: Id, n: Id, g: nat)
    requires Behavior(b, acts) && OwnWriteAt(b, acts, i, r, t, n, g) && i < k < |b|
    ensures ExecutesAt(b, k, r, t, n, g) || Past(b[k], r, t, g)
    ensures ExecutesAt(b, k, r, t, n, g) && i + 1 < k ==> ExecutesAt(b, k - 1, r, t, n, g)
  {
    if k == i + 1 {
      assert b[i + 1] == Apply(b[i], acts[i]);
    } else {
      ExecutedThroughout(b, acts, i, k - 1, r, t, n, g);
      InvHolds(b, acts, k - 1);
      HeldApartHolds(b, acts, k - 1);
      StepKeepsPast(b[k - 1], acts[k - 1], r, t, n, g);
      assert b[k - 1 + 1] == Apply(b[k - 1], acts[k - 1]);
    }
  }

  /** What one step does to the authority of (t, n), while r stays in its body there with g. */
  lemma StepTouchesAuthority(s: State, a: Action, r: RunId, t: Id, n: Id, g: nat)
    requires HeldApart(s) && r in s.runs && s.runs[r].task == t && InBody(s.runs[r].pc, n, g)
    requires r in Apply(s, a).runs && InBody(Apply(s, a).runs[r].pc, n, g)
    ensures var s' := Apply(s, a);
            if WritesAuthority(s, a, t, n) then a.run != r && ((t, n) in s'.authority ==> s'.authority[(t, n)] != g)
            else SameAuthority(s, s', t, n)
  {
    AuthorityMovesByWrites(s, a, t, n);
  }

  ghost predicate SameAuthority(s: State, s': State, t: Id, n: Id) {
    && ((t, n) in s'.authority <==> (t, n) in s.authority)
    && ((t, n) in s.authority ==> s'.authority[(t, n)] == s.authority[(t, n)])
  }

  lemma AuthorityMovesByWrites(s: State, a: Action, t: Id, n: Id)
    ensures !WritesAuthority(s, a, t, n) ==> SameAuthority(s, Apply(s, a), t, n)
    ensures WritesAuthority(s, a, t, n) ==>
              var pc := s.runs[a.run].pc;
              if pc.Claimed?
              then Apply(s, a).authority == s.authority[(t, n) := pc.generation]
                   && Apply(s, a).runs[a.run].pc == Executing(n, pc.generation)
              else (t, n) !in Apply(s, a).authority
  {
  }

  /** While r is in its body, the authority is its own exactly as long as nobody else wrote it. */
  lemma {:induction false} AuthorityIsOwn(
    b: seq<State>, acts: seq<Action>, i: nat, j: nat, r: RunId, t: Id, n: Id, g: nat)
    requires Behavior(b, acts) && OwnWriteAt(b, acts, i, r, t, n, g) && i < j < |b| && ExecutesAt(b, j, r, t, n, g)
    ensures ((t, n) in b[j].authority && b[j].authority[(t, n)] == g) <==>
            LeftAlone(b, acts, i, j, r, t, n)
  {
    if j == i + 1 {
      assert b[i + 1] == Apply(b[i], acts[i]);
    } else {
      ExecutedThroughout(b, acts, i, j, r, t, n, g);
      AuthorityIsOwn(b, acts, i, j - 1, r, t, n, g);
      HeldApartHolds(b, acts, j - 1);
      assert b[j - 1 + 1] == Apply(b[j - 1], acts[j - 1]);
      StepTouchesAuthority(b[j - 1], acts[j - 1], r, t, n, g);
      LeftAloneOneMore(b, acts, i, j - 1, r, t, n);
    }
  }

  /** In every behavior, an execution whose token is current passes the check exactly when no other
      run of its task has written or removed the authority of that node since its own write. */
  lemma CurrentExecutionIsAcceptedExactlyWhen(
    b: seq<State>, acts: seq<Action>, i: nat, j: nat, r: RunId, t: Id, n: Id, g: nat)
    requires Behavior(b, acts) && OwnWriteAt(b, acts, i, r, t, n, g) && i < j < |b|
    requires ExecutesAt(b, j, r, t, n, g) && Own.Current(b[j].registry, t, n, g)
    ensures AuthorityAccepts(b[j], t, n) <==> LeftAlone(b, acts, i, j, r, t, n)
  {
    AuthorityIsOwn(b, acts, i, j, r, t, n, g);
  }

  // ----- when the check accepts at all -------------------------------------------------------------

  /** Run r wrote the authority of (t, n) in step i, is still in its body with that generation, and
      nobody else wrote it since. */
  ghost predicate Backs(b: seq<State>, acts: seq<Action>, i: nat, j: nat, r: RunId, t: Id, n: Id, g: nat)
    requires j < |b| && j <= |acts|
  {
    i < j && OwnWriteAt(b, acts, i, r, t, n, g) && ExecutesAt(b, j, r, t, n, g) && LeftAlone(b, acts, i, j, r, t, n)
  }

  /** A body ends its stay only by dropping the authority. */
  lemma BodyStaysUnlessItWrites(s: State, a: Action, r: RunId, t: Id, n: Id, g: nat)
    requires r in s.runs && s.runs[r].task == t && InBody(s.runs[r].pc, n, g) && !WritesAuthority(s, a, t, n)
    ensures r in Apply(s, a).runs && Apply(s, a).runs[r].task == t && InBody(Apply(s, a).runs[r].pc, n, g)
  {
  }

  /** Every recorded authority is backed by a run that is still in its body. */
  lemma {:induction false} AuthorityIsBacked(b: seq<State>, acts: seq<Action>, j: nat, t: Id, n: Id)
    returns (i: nat, r: RunId)
    requires Behavior(b, acts) && j < |b| && (t, n) in b[j].authority
    ensures Backs(b, acts, i, j, r, t, n, b[j].authority[(t, n)])
  {
    var s, a := b[j - 1], acts[j - 1];
    assert b[j - 1 + 1] == Apply(s, a);
    AuthorityMovesByWrites(s, a, t, n);
    if WritesAuthority(s, a, t, n) {
      i, r := j - 1, a.run;
    } else {
      i, r := AuthorityIsBacked(b, acts, j - 1, t, n);
      BodyStaysUnlessItWrites(s, a, r, t, n, s.authority[(t, n)]);
      LeftAloneOneMore(b, acts, i, j - 1, r, t, n);
    }
  }

  /** In every behavior the check accepts (t, n) if and only if some run of t is in its body on n
      with the current token, and was left alone since its own write. */
  lemma AcceptsExactlyWhenBacked(b: seq<State>, acts: seq<Action>, j: nat, t: Id, n: Id)
    requires Behavior(b, acts) && j < |b|
    ensures AuthorityAccepts(b[j], t, n) <==>
            exists i: nat, r: RunId, g: nat :: Backs(b, acts, i, j, r, t, n, g) && Own.Current(b[j].registry, t, n, g)
  {
    if AuthorityAccepts(b[j], t, n) {
      var i, r := AuthorityIsBacked(b, acts, j, t, n);
    }
    forall i: nat, r: RunId, g: nat | Backs(b, acts, i, j, r, t, n, g) && Own.Current(b[j].registry, t, n, g)
      ensures AuthorityAccepts(b[j], t, n)
    {
      AuthorityIsOwn(b, acts, i, j, r, t, n, g);
    }
  }

  /** A superseded execution passes exactly when another run of its task is so backed on its node. */
  lemma SupersededPassesExactlyWhen(b: seq<State>, acts: seq<Action>, j: nat, q: RunId, t: Id, n: Id, h: nat)
    requires Behavior(b, acts) && j < |b| && ExecutesAt(b, j, q, t, n, h) && !Own.Current(b[j].registry, t, n, h)
    ensures AuthorityAccepts(b[j], t, n) <==>
            exists i: nat, r: RunId, g: nat ::
              r != q && Backs(b, acts, i, j, r, t, n, g) && Own.Current(b[j].registry, t, n, g)
  {
    AcceptsExactlyWhenBacked(b, acts, j, t, n);
    forall i: nat, r: RunId, g: nat | Backs(b, acts, i, j, r, t, n, g) && Own.Current(b[j].registry, t, n, g)
      ensures r != q
    {
      assert b[j].runs[r].pc.generation == g;
    }
  }
}
