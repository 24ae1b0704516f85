/** Reachable states that show what the execution system does not rule out: the in-flight authority
    check accepting a superseded execution and refusing the current owner, a record left running
    for good, and a delivered value shut out (nexus/compute/dispatcher.py, runtime.py). */
module ClusterScenario {
  import opened Basics
  import Own = TaskOwnership
  import opened ClusterExecution
  import opened ClusterSafety
  import opened ClusterAuthority
  import TaskCompletion

  ghost predicate Reachable(s: State) {
    exists b, acts :: Behavior(b, acts) && b[|b| - 1] == s
  }

  lemma InitialIsReachable()
    ensures Reachable(INITIAL)
  {
    assert Behavior([INITIAL], []);
  }

  lemma ReachableStep(s: State, a: Action)
    requires Reachable(s)
    ensures Reachable(Apply(s, a))
  {
    var b, acts :| Behavior(b, acts) && b[|b| - 1] == s;
    var b', acts' := b + [Apply(s, a)], acts + [a];
    assert Behavior(b', acts');
    assert b'[|b'| - 1] == Apply(s, a);
  }

  const ANY := Oracle(true, true, Some("A"), Value("out"), 0.0, Foreign("e"))

  /** What a stretch of run r's steps leaves alone. */
  ghost predicate OnlyRunMoved(s: State, s': State, r: RunId, t: Id) {
    && Reachable(s') && r in s'.runs && s'.runs[r].task == t
    && (forall q :: q in s.runs && q != r ==> q in s'.runs && s'.runs[q] == s.runs[q])
    && (forall q :: q in s'.runs ==> q in s.runs || q == r)
  }

  /** A stretch that writes no record and publishes nothing. */
  ghost predicate Quiet(s: State, s': State) { s'.completions == s.completions && s'.outcomes == s.outcomes }

  /** A stretch that publishes nothing and leaves r's own record running. */
  ghost predicate Started(s: State, s': State, r: RunId, t: Id) {
    s'.completions == s.completions[(r, t) := TaskCompletion.Running] && s'.outcomes == s.outcomes
  }

  /** One step of run r that is known to lead to this counter. */
  lemma Go(s: State, r: RunId, pc: Pc) returns (s': State)
    requires Reachable(s) && r in s.runs && StepRun(s, s.runs[r], ANY).pc == pc
    ensures s' == Commit(s, r, StepRun(s, s.runs[r], ANY))
    ensures OnlyRunMoved(s, s', r, s.runs[r].task) && s'.runs[r].pc == pc
    ensures s'.runs[r].runtime == s.runs[r].runtime
  {
    ReachableStep(s, Advance(r, ANY));
    s' := Apply(s, Advance(r, ANY));
  }

  lemma NewCall(s: State, r: RunId, t: Id) returns (s': State)
    requires Reachable(s) && r !in s.runs
    ensures s' == Apply(s, Call(r, r, t, 1, false)) && OnlyRunMoved(s, s', r, t)
    ensures s'.runs[r] == Run(r, t, 1, false, 1, Lookup)
  {
    ReachableStep(s, Call(r, r, t, 1, false));
    s' := Apply(s, Call(r, r, t, 1, false));
  }

  lemma CallUpToCreating(s: State, r: RunId, t: Id) returns (s': State)
    requires Reachable(s) && r !in s.runs && (r, t) !in s.completions
    ensures OnlyRunMoved(s, s', r, t) && s'.runs[r] == Run(r, t, 1, false, 1, Creating)
    ensures s'.registry == s.registry && s'.authority == s.authority && s'.members == s.members
    ensures Quiet(s, s')
  {
    s' := NewCall(s, r, t);
    s' := Go(s', r, Creating);
  }

  lemma CallUpToStarting(s: State, r: RunId, t: Id) returns (s': State)
    requires Reachable(s) && r !in s.runs && (r, t) !in s.completions
    ensures OnlyRunMoved(s, s', r, t) && s'.runs[r] == Run(r, t, 1, false, 1, Starting)
    ensures s'.registry == s.registry && s'.authority == s.authority && s'.members == s.members
    ensures s'.completions == s.completions[(r, t) := TaskCompletion.Pending] && s'.outcomes == s.outcomes
  {
    var creating := CallUpToCreating(s, r, t);
    s' := Go(creating, r, Starting);
  }

  /** A new call on a fresh runtime gets as far as choosing its backend. */
  lemma CallUpToSelecting(s: State, r: RunId, t: Id) returns (s': State)
    requires Reachable(s) && r !in s.runs && (r, t) !in s.completions
    ensures OnlyRunMoved(s, s', r, t) && s'.runs[r] == Run(r, t, 1, false, 1, Selecting) && Started(s, s', r, t)
    ensures s'.registry == s.registry && s'.authority == s.authority && s'.members == s.members
  {
    var starting := CallUpToStarting(s, r, t);
    s' := Go(starting, r, Selecting);
  }

  lemma SelectUpToCoordinating(s: State, r: RunId, leader: Id) returns (s': State)
    requires Reachable(s) && r in s.runs && s.runs[r].pc == Selecting
    requires s.members == Members(Some(leader), {leader})
    ensures OnlyRunMoved(s, s', r, s.runs[r].task) && s'.runs[r] == s.runs[r].(pc := Coordinating(leader))
    ensures s'.registry == s.registry && s'.authority == s.authority && s'.members == s.members
    ensures Quiet(s, s')
  {
    var checking := Go(s, r, Checking);
    s' := Go(checking, r, Coordinating(leader));
  }

  lemma SelectUpToListing(s: State, r: RunId, leader: Id) returns (s': State)
    requires Reachable(s) && r in s.runs && s.runs[r].pc == Selecting
    requires s.members == Members(Some(leader), {leader})
    ensures OnlyRunMoved(s, s', r, s.runs[r].task) && s'.runs[r] == s.runs[r].(pc := Listing(leader, leader))
    ensures s'.registry == s.registry && s'.authority == s.authority && s'.members == s.members
    ensures Quiet(s, s')
  {
    var coordinating := SelectUpToCoordinating(s, r, leader);
    s' := Go(coordinating, r, Listing(leader, leader));
  }

  lemma SelectUpToResolving(s: State, r: RunId, leader: Id) returns (s': State)
    requires Reachable(s) && r in s.runs && s.runs[r].pc == Selecting
    requires s.members == Members(Some(leader), {leader})
    ensures OnlyRunMoved(s, s', r, s.runs[r].task) && s'.runs[r] == s.runs[r].(pc := Resolving(leader))
    ensures s'.registry == Own.ReclaimStep(s.registry, {leader}) && s'.authority == s.authority
    ensures Quiet(s, s')
  {
    s' := SelectUpToListing(s, r, leader);
    s' := Go(s', r, Reclaiming(leader, leader, {leader}));
    s' := Go(s', r, Resolving(leader));
  }

  /** With only `leader` online it revokes every other node's ownership; then A returns and is chosen. */
  lemma SelectUpToClaim(s: State, r: RunId, leader: Id) returns (s': State)
    requires Reachable(s) && r in s.runs && s.runs[r].pc == Selecting
    requires s.members == Members(Some(leader), {leader})
    ensures OnlyRunMoved(s, s', r, s.runs[r].task) && s'.runs[r] == s.runs[r].(pc := Claiming("A"))
    ensures s'.registry == Own.ReclaimStep(s.registry, {leader}) && s'.authority == s.authority
    ensures Quiet(s, s')
  {
    s' := SelectUpToResolving(s, r, leader);
    ReachableStep(s', Membership(Members(Some(leader), {"A", leader})));
    s' := Apply(s', Membership(Members(Some(leader), {"A", leader})));
    s' := Go(s', r, Claiming("A"));
  }

  /** Claim and authority, up to the executor's body. */
  lemma ClaimUpToExecuting(s: State, r: RunId) returns (s': State)
    requires Reachable(s) && r in s.runs && s.runs[r].pc == Claiming("A")
    requires s.runs[r].task !in s.registry.items
    ensures var t, g := s.runs[r].task, Own.Latest(s.registry, s.runs[r].task) + 1;
            && OnlyRunMoved(s, s', r, t) && s'.runs[r] == s.runs[r].(pc := Executing("A", g))
            && s'.registry == Own.ClaimStep(s.registry, t, "A").0
            && s'.authority == s.authority[(t, "A") := g]
    ensures Quiet(s, s')
  {
    s' := Go(s, r, Claimed("A", Own.Latest(s.registry, s.runs[r].task) + 1));
    s' := Go(s', r, Executing("A", Own.Latest(s.registry, s.runs[r].task) + 1));
  }

  /** A call of task "t" made while only `leader` is online, up to its claim on A. */
  lemma CallUpToClaiming(s: State, r: RunId, leader: Id) returns (s': State)
    requires Reachable(s) && r !in s.runs && (r, "t") !in s.completions
    ensures OnlyRunMoved(s, s', r, "t") && s'.runs[r] == Run(r, "t", 1, false, 1, Claiming("A"))
    ensures Started(s, s', r, "t")
    ensures s'.registry == Own.ReclaimStep(s.registry, {leader}) && s'.authority == s.authority
  {
    ReachableStep(s, Membership(Members(Some(leader), {leader})));
    s' := Apply(s, Membership(Members(Some(leader), {leader})));
    s' := CallUpToSelecting(s', r, "t");
    s' := SelectUpToClaim(s', r, leader);
  }

  /** The same, up to the executor's body on A. */
  lemma CallUpToExecuting(s: State, r: RunId, leader: Id) returns (s': State)
    requires Reachable(s) && r !in s.runs && (r, "t") !in s.completions
    requires "t" in s.registry.items ==> s.registry.items["t"].node != leader
    ensures var g := Own.Latest(s.registry, "t") + 1;
            && OnlyRunMoved(s, s', r, "t") && s'.runs[r] == Run(r, "t", 1, false, 1, Executing("A", g))
            && Own.Current(s'.registry, "t", "A", g) && Own.Latest(s'.registry, "t") == g
            && s'.authority == s.authority[("t", "A") := g]
    ensures Started(s, s', r, "t")
  {
    s' := CallUpToClaiming(s, r, leader);
    s' := ClaimUpToExecuting(s', r);
  }

  /** Two executions of "t" on A at once, the second of them current; `authority` is recorded. */
  ghost predicate BothExecuting(s: State, authority: nat) {
    && Reachable(s) && 0 in s.runs && 1 in s.runs && s.runs[0].task == s.runs[1].task == "t"
    && s.runs[0].pc == Executing("A", 1) && s.runs[1].pc == Executing("A", 2)
    && Own.Current(s.registry, "t", "A", 2)
    && ("t", "A") in s.authority && s.authority[("t", "A")] == authority
  }

  /** The first call alone, executing "t" on A. */
  lemma FirstExecution() returns (s: State)
    ensures Reachable(s) && 0 in s.runs && 1 !in s.runs && s.runs[0] == Run(0, "t", 1, false, 1, Executing("A", 1))
    ensures Own.Current(s.registry, "t", "A", 1) && Own.Latest(s.registry, "t") == 1
    ensures s.outcomes == Outcomes(map[], map[]) && s.completions == map[(0, "t") := TaskCompletion.Running]
  {
    InitialIsReachable();
    s := CallUpToExecuting(INITIAL, 0, "A");
  }

  lemma TwoExecutionsAtOnce() returns (s: State)
    ensures BothExecuting(s, 2)
  {
    var first := FirstExecution();
    s := CallUpToExecuting(first, 1, "B");
  }

  /** The first execution leaves: its authority entry is the second one's. */
  lemma FirstLeaves(s: State) returns (s': State)
    requires BothExecuting(s, 2)
    ensures Reachable(s') && 1 in s'.runs && s'.runs[1] == s.runs[1]
    ensures s'.registry == s.registry && s'.authority == s.authority - {("t", "A")}
  {
    var out := Go(s, 0, Leaving("A", 1, Value("out")));
    s' := Go(out, 0, Releasing("A", 1, Value("out")));
  }

  /** The check is keyed by (task, node): both executor bodies can run on A at once, and then the
      superseded first execution still passes it. When the first one leaves, the authority of the
      second goes with it, and the current owner is refused. */
  lemma SupersededExecutionMayPassTheCheck() returns (s: State, s': State)
    ensures Reachable(s) && 0 in s.runs && 1 in s.runs && s.runs[0].task == s.runs[1].task == "t"
    ensures s.runs[0].pc == Executing("A", 1) && s.runs[1].pc == Executing("A", 2)
    ensures AuthorityAccepts(s, "t", "A") && !Own.Current(s.registry, "t", "A", 1)
    ensures Reachable(s') && 1 in s'.runs && s'.runs[1] == s.runs[1]
    ensures !AuthorityAccepts(s', "t", "A") && Own.Current(s'.registry, "t", "A", 2)
  {
    s := TwoExecutionsAtOnce();
    s' := FirstLeaves(s);
  }

  /** The first run has claimed and not yet recorded its authority. */
  lemma CallUpToClaimed() returns (s: State)
    ensures Reachable(s) && s.runs.Keys == {0} && s.runs[0].task == "t" && s.runs[0].runtime == 0
    ensures s.runs[0].pc == Claimed("A", 1) && (1, "t") !in s.completions && s.authority == map[]
    ensures Own.Current(s.registry, "t", "A", 1) && Own.Latest(s.registry, "t") == 1
  {
    InitialIsReachable();
    var claiming := CallUpToClaiming(INITIAL, 0, "A");
    s := Go(claiming, 0, Claimed("A", 1));
  }

  /** A second call claims and executes before the first one has recorded its authority. */
  lemma OvertakenBeforeItsWrite() returns (s: State)
    ensures Reachable(s) && 0 in s.runs && 1 in s.runs && s.runs[0].task == s.runs[1].task == "t"
    ensures s.runs[0].pc == Claimed("A", 1) && s.runs[1].pc == Executing("A", 2)
    ensures Own.Current(s.registry, "t", "A", 2)
  {
    var first := CallUpToClaimed();
    s := CallUpToExecuting(first, 1, "B");
  }

  /** Claim and authority are written in two steps: a superseded run that records its generation
      late shuts out the current owner, although nobody has left yet. */
  lemma LateAuthorityRefusesTheOwner() returns (s: State)
    ensures Reachable(s) && 0 in s.runs && 1 in s.runs && s.runs[0].task == s.runs[1].task == "t"
    ensures s.runs[0].pc == Executing("A", 1) && s.runs[1].pc == Executing("A", 2)
    ensures Own.Current(s.registry, "t", "A", 2) && !AuthorityAccepts(s, "t", "A")
  {
    var overtaken := OvertakenBeforeItsWrite();
    s := Go(overtaken, 0, Executing("A", 1));
    assert BothExecuting(s, 1);
  }

  // ----- a refused claim ---------------------------------------------------------------------------

  /** Run 0 executes "t" on A with the current token; run 1, started on another runtime, was refused
      the claim, and nothing is published yet. */
  ghost predicate ClaimRefused(s: State) {
    && Reachable(s) && 0 in s.runs && 1 in s.runs
    && s.runs[0] == Run(0, "t", 1, false, 1, Executing("A", 1))
    && s.runs[1] == Run(1, "t", 1, false, 1, Handling(Other(Text.AlreadyOwned), true))
    && Own.Current(s.registry, "t", "A", 1) && s.outcomes == Outcomes(map[], map[])
    && (0, "t") in s.completions && s.completions[(0, "t")] == TaskCompletion.Running
    && (1, "t") in s.completions && s.completions[(1, "t")] == TaskCompletion.Running
  }

  lemma RefusedClaim() returns (s: State)
    ensures ClaimRefused(s)
  {
    var first := FirstExecution();
    var claiming := CallUpToClaiming(first, 1, "A");
    s := Go(claiming, 1, Handling(Other(Text.AlreadyOwned), true));
  }

  lemma OwnerReturns(s: State) returns (s': State)
    requires Reachable(s) && 0 in s.runs && s.runs[0] == Run(0, "t", 1, false, 1, Executing("A", 1))
    ensures OnlyRunMoved(s, s', 0, "t") && Quiet(s, s') && s'.registry == s.registry
    ensures s'.runs[0] == Run(0, "t", 1, false, 1, Releasing("A", 1, Value("out")))
  {
    var leaving := Go(s, 0, Leaving("A", 1, Value("out")));
    s' := Go(leaving, 0, Releasing("A", 1, Value("out")));
  }

  /** Run 0 comes back from its executor and releases its token. */
  lemma OwnerDelivers(s: State) returns (s': State)
    requires Reachable(s) && 0 in s.runs && s.runs[0] == Run(0, "t", 1, false, 1, Executing("A", 1))
    requires Own.Current(s.registry, "t", "A", 1)
    ensures OnlyRunMoved(s, s', 0, "t") && s'.runs[0] == Run(0, "t", 1, false, 1, Publishing("out")) && Quiet(s, s')
  {
    var releasing := OwnerReturns(s);
    s' := Go(releasing, 0, Publishing("out"));
  }

  const DELIVERED := ComputeResult("t", "out", 0.0, None)

  lemma OwnerPublishes(s: State) returns (s': State)
    requires Reachable(s) && 0 in s.runs && s.runs[0] == Run(0, "t", 1, false, 1, Publishing("out"))
    requires s.outcomes == Outcomes(map[], map[])
    ensures OnlyRunMoved(s, s', 0, "t") && s'.completions == s.completions && "t" in s'.outcomes.results
  {
    s' := Go(s, 0, Completing(Normalise(DELIVERED)));
  }

  /** The owner's result is published first: the refused run's failure is then refused as well, and
      its record stays running although the run has ended. */
  lemma RecordMayStayRunning() returns (s: State)
    ensures Reachable(s) && 1 in s.runs && s.runs[1].pc == Raised(Other(CompletedAuthoritatively))
    ensures (1, "t") in s.completions && s.completions[(1, "t")] == TaskCompletion.Running
    ensures "t" in s.outcomes.results
  {
    var refused := RefusedClaim();
    var publishing := OwnerDelivers(refused);
    var published := OwnerPublishes(publishing);
    s := Go(published, 1, Raised(Other(CompletedAuthoritatively)));
  }

  /** The refused run's failure is published first, while the owner still executes: the owner's
      value is then shut out, though it held its token from claim to release. */
  lemma RefusedClaimMayShutOutTheOwner() returns (s: State, s': State)
    ensures Reachable(s) && 0 in s.runs && s.runs[0].pc == Executing("A", 1) && Own.Current(s.registry, "t", "A", 1)
    ensures "t" in s.outcomes.failures && s.outcomes.failures["t"] == Other(Text.AlreadyOwned)
    ensures Reachable(s') && 0 in s'.runs && s'.runs[0].pc == Handling(Other(Text.AlreadyOwned), true)
    ensures "t" !in s'.outcomes.results
  {
    var refused := RefusedClaim();
    s := Go(refused, 1, Recording(Text.AlreadyOwned, Other(Text.AlreadyOwned)));
    var publishing := OwnerDelivers(s);
    s' := Go(publishing, 0, Handling(Other(Text.AlreadyOwned), true));
  }
}
