/** When an attempt of a clustered run fails, with which error, and what each step writes
    (nexus/compute/runtime.py, cluster.py, dispatcher.py). */
module ClusterSteps {
  import opened Basics
  import Own = TaskOwnership
  import TaskCompletion
  import opened ClusterExecution

  // ----- failing attempts ---------------------------------------------------------------

  /** No backend can be selected; the cluster is unavailable; the leader is gone or another one;
      leader or target is offline; the task is owned; the executor's own error, if the generation
      was still held; a failure was published before; or a superseded generation without a result. */
  ghost predicate FailsNow(s: State, run: Run, o: Oracle) {
    match run.pc
    case Selecting => !o.selectable
    case Checking => !o.available || s.members.leader.None?
    case Coordinating(_) => s.members.leader.None?
    case Reclaiming(leader, current, _) => leader != current
    case Resolving(leader) => leader !in s.members.online || o.target.None? || o.target.value !in s.members.online
    case Claiming(_) => run.task in s.registry.items
    case Releasing(n, g, out) => Own.Current(s.registry, run.task, n, g) && out.Raise? && out.exc.Other?
    case Publishing(_) => run.task in s.outcomes.failures && run.task !in s.outcomes.results
    case StaleFailureLookup(_) => true
    case _ => false
  }

  ghost function FailureNow(s: State, run: Run, o: Oracle): Exc {
    match run.pc
    case Checking => Other(if o.available then LeaderUnavailable else o.text)
    case Coordinating(_) => Other(LeaderUnavailable)
    case Reclaiming(_, _, _) => Other(StaleLeader)
    case Claiming(_) => Other(Text.AlreadyOwned)
    case Releasing(_, _, Raise(e)) => e
    case Publishing(_) =>
      if run.task in s.outcomes.failures then Other(s.outcomes.failures[run.task].text) else Other(o.text)
    case StaleFailureLookup(e) =>
      if run.task in s.outcomes.failures then Other(s.outcomes.failures[run.task].text) else e
    case _ => Other(o.text)
  }

  /** An attempt fails in a step exactly when one of those holds, with that error, and only a failure
      to select counts as one without a backend. */
  lemma AttemptFailsExactlyWhen(s: State, r: RunId, o: Oracle)
    requires r in s.runs && !s.runs[r].pc.Handling?
    ensures var run, next := s.runs[r], Apply(s, Advance(r, o)).runs[r].pc;
            && (next.Handling? <==> FailsNow(s, run, o))
            && (next.Handling? ==> next == Handling(FailureNow(s, run, o), !run.pc.Selecting?))
  {
  }

  /** Where a step that fails nothing leads. */
  lemma AttemptGoesOn(s: State, r: RunId, o: Oracle)
    requires r in s.runs && !FailsNow(s, s.runs[r], o)
    ensures var run, next := s.runs[r], Apply(s, Advance(r, o)).runs[r].pc;
            match run.pc
            case Selecting => next == Checking
            case Checking => s.members.leader == Some(next.leader) && next.Coordinating?
            case Coordinating(leader) =>
              next.Listing? && next.leader == leader && s.members.leader == Some(next.current)
            case Listing(leader, current) => next == Reclaiming(leader, current, s.members.online)
            case Reclaiming(leader, _, _) => next == Resolving(leader)
            case Resolving(_) => o.target == Some(next.node) && next.Claiming?
            case Claiming(n) => next == Claimed(n, Own.Latest(s.registry, run.task) + 1)
            case Claimed(n, g) => next == Executing(n, g)
            case Executing(n, g) => next == Leaving(n, g, o.outcome)
            case Leaving(n, g, out) => next == Releasing(n, g, out)
            case Releasing(n, g, out) =>
              if !Own.Current(s.registry, run.task, n, g) then next == StaleLookup(Stale(StaleOwnership))
              else if out.Value? then next == Publishing(out.output)
              else next == StaleLookup(out.exc)
            case _ => true
  {
  }

  /** A run that publishes or looks up a result completes with it, as the runtime selected it. */
  lemma ResultIsTaken(s: State, r: RunId, o: Oracle)
    requires r in s.runs && !FailsNow(s, s.runs[r], o)
    ensures var run, next := s.runs[r], Apply(s, Advance(r, o)).runs[r].pc;
            match run.pc
            case Publishing(v) =>
              next == Completing(
                if run.task in s.outcomes.results
                then s.outcomes.results[run.task].(selection := Some(ExplicitCluster))
                else ComputeResult(run.task, v, o.seconds, Some(ExplicitCluster)))
            case StaleLookup(e) =>
              if run.task in s.outcomes.results
              then next == Completing(s.outcomes.results[run.task].(selection := Some(ExplicitCluster)))
              else next == StaleFailureLookup(e)
            case _ => true
  {
  }

  // ----- what is written ------------------------------------------------------------------

  /** The registry changes in three steps only: the reclaim, even for a leader found stale, drops
      what offline nodes own; a claim adds a new generation; a release drops the current token. */
  lemma RegistryIsWritten(s: State, r: RunId, o: Oracle)
    requires r in s.runs
    ensures var run, next := s.runs[r], Apply(s, Advance(r, o)).registry;
            match run.pc
            case Reclaiming(_, _, members) =>
              && next.generations == s.registry.generations
              && next.items == map t | t in s.registry.items && s.registry.items[t].node in members
                                 :: s.registry.items[t]
            case Claiming(n) =>
              next == if run.task in s.registry.items then s.registry
                      else var g := Own.Latest(s.registry, run.task) + 1;
                           Own.Registry(s.registry.items[run.task := Own.Ownership(n, g)],
                                        s.registry.generations[run.task := g])
            case Releasing(n, g, _) =>
              next == if Own.Current(s.registry, run.task, n, g)
                      then s.registry.(items := s.registry.items - {run.task}) else s.registry
            case _ => next == s.registry
  {
  }

  /** The authority is written after the claim and removed before the release; nothing else
      touches it. */
  lemma AuthorityIsWritten(s: State, r: RunId, o: Oracle)
    requires r in s.runs
    ensures var run, next := s.runs[r], Apply(s, Advance(r, o)).authority;
            match run.pc
            case Claimed(n, g) => next == s.authority[(run.task, n) := g]
            case Leaving(n, _, _) => next == s.authority - {(run.task, n)}
            case _ => next == s.authority
  {
  }

  /** A first result is stored unless a failure is, a first failure unless a result is; only a last
      failure that is not stale, of an attempt that had a backend, is published. */
  lemma OutcomesAreWritten(s: State, r: RunId, o: Oracle)
    requires r in s.runs
    ensures var run, next := s.runs[r], Apply(s, Advance(r, o)).outcomes;
            var settled := run.task in s.outcomes.results || run.task in s.outcomes.failures;
            match run.pc
            case Publishing(v) =>
              next == if settled then s.outcomes
                      else s.outcomes.(results :=
                             s.outcomes.results[run.task := ComputeResult(run.task, v, o.seconds, None)])
            case Handling(e, selected) =>
              next == if settled || !selected || e.Stale? || run.attempt < run.maxAttempts then s.outcomes
                      else s.outcomes.(failures := s.outcomes.failures[run.task := e])
            case _ => next == s.outcomes
  {
  }

  /** What actions from outside a run do to the records, and that they do nothing else. */
  lemma OthersWriteRecords(s: State, a: Action)
    requires !a.Advance?
    ensures var s' := Apply(s, a);
            && s'.registry == s.registry && s'.authority == s.authority && s'.outcomes == s.outcomes
            && s'.members == (if a.Membership? then a.members else s.members)
            && (a.CancelTask? || a.Forget? ==>
                  var key := (a.runtime, a.task);
                  var live := key in s.completions && (s.completions[key].Pending? || s.completions[key].Running?);
                  var ended := key in s.completions && !live;
                  s'.completions ==
                  if a.CancelTask? && live then s.completions[key := TaskCompletion.Cancelled]
                  else if a.Forget? && ended then s.completions - {key}
                  else s.completions)
            && (a.Membership? || a.Call? ==> s'.completions == s.completions)
            && (a.Call? && a.run !in s.runs ==>
                  s'.runs == s.runs[a.run := Run(a.runtime, a.task, a.maxAttempts, a.idempotent, 1, Lookup)])
            && (!a.Call? || a.run in s.runs ==> s'.runs == s.runs)
  {
  }
}
