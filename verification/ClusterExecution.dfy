/** Runtimes, one cluster backend and one dispatcher as an interleaved step system
    (nexus/compute/runtime.py, cluster.py, dispatcher.py).

    Every `run` call is a process with its own program counter; one step is one
    lock-protected method or one read of shared state. Membership and leadership change
    between any two steps. Executor bodies overlap freely. */
module ClusterExecution {
  import opened Basics
  import opened TaskOwnership
  import TaskCompletion

  /** Error texts: the ones this code writes itself, and those it passes on. */
  datatype Text =
    | Foreign(text: string)
    | LeaderUnavailable | StaleLeader | AlreadyOwned | StaleOwnership | CompletedAuthoritatively
    | RecordExists | RecordCannotStart | RecordTerminal
  {
    predicate IsBlank() { Foreign? && Strip(text) == [] }
  }

  /** Exceptions, told apart only as far as the source's `except` clauses do. */
  datatype Exc = Stale(text: Text) | Other(text: Text)

  /** Which backend the runtime asked for and why the scheduler chose it. */
  datatype Selection = ExplicitCluster

  datatype ComputeResult = ComputeResult(task: Id, output: string, duration: real, selection: Option<Selection>)

  /** `dataclasses.replace` with the selection the runtime made. */
  function Normalise(r: ComputeResult): ComputeResult { r.(selection := Some(ExplicitCluster)) }

  predicate SameExecution(a: ComputeResult, b: ComputeResult) {
    a.task == b.task && a.output == b.output && a.duration == b.duration
  }

  datatype Outcome = Value(output: string) | Raise(exc: Exc)

  type Status = TaskCompletion.StatusOf<ComputeResult, Text>
  type RunId = nat
  type RuntimeId = nat

  datatype Pc =
    // ComputeRuntime.run
    | Lookup | Creating | Starting | Selecting
    // ClusterBackend.run, before the dispatcher
    | Checking
    // ClusterDispatcher.__call__: the leader, then the online nodes
    | Coordinating(leader: Id)
    | Listing(leader: Id, current: Id)
    | Reclaiming(leader: Id, current: Id, members: set<Id>)
    | Resolving(leader: Id)
    // ClusterDispatcher._execute_owned
    | Claiming(node: Id)
    | Claimed(node: Id, generation: nat)
    | Executing(node: Id, generation: nat)
    | Leaving(node: Id, generation: nat, outcome: Outcome)
    | Releasing(node: Id, generation: nat, outcome: Outcome)
    // ClusterBackend.run
    | Publishing(output: string)
    | StaleLookup(exc: Exc)
    | StaleFailureLookup(exc: Exc)
    // ComputeRuntime.run, after the backend
    | Handling(exc: Exc, selected: bool)
    | Recording(error: Text, exc: Exc)
    | Completing(result: ComputeResult)
    | Returned(result: ComputeResult)
    | Raised(exc: Exc)

  datatype Run = Run(runtime: RuntimeId, task: Id, maxAttempts: nat, idempotent: bool, attempt: nat, pc: Pc)

  datatype Members = Members(leader: Option<Id>, online: set<Id>)

  /** `_terminal_results` and `_terminal_failures`; the source keeps a failure's `str(error)`. */
  datatype Outcomes = Outcomes(results: map<Id, ComputeResult>, failures: map<Id, Exc>)

  datatype State = State(
    members: Members,
    registry: Registry,
    authority: map<(Id, Id), nat>,
    outcomes: Outcomes,
    completions: map<(RuntimeId, Id), Status>,
    runs: map<RunId, Run>)

  /** Everything a step takes from code outside the model. */
  datatype Oracle = Oracle(
    selectable: bool, available: bool, target: Option<Id>, outcome: Outcome, seconds: real, text: Text)

  datatype Action =
    | Membership(members: Members)
    | Call(run: RunId, runtime: RuntimeId, task: Id, maxAttempts: nat, idempotent: bool)
    | Advance(run: RunId, oracle: Oracle)
    | CancelTask(runtime: RuntimeId, task: Id)
    | Forget(runtime: RuntimeId, task: Id)      // `cleanup` dropping a terminal record

  const INITIAL := State(Members(None, {}), EMPTY, map[], Outcomes(map[], map[]), map[], map[])

  // ----- ClusterBackend's terminal outcomes ----------------------------------------

  /** `_publish_terminal_result`: the first result wins, a failure shuts it out. */
  function PublishResult(k: Outcomes, r: ComputeResult): (Outcomes, Result<ComputeResult, Exc>) {
    if r.task in k.results then (k, Ok(k.results[r.task]))
    else if r.task in k.failures then (k, Err(Other(k.failures[r.task].text)))
    else (k.(results := k.results[r.task := r]), Ok(r))
  }

  /** `publish_terminal_failure`: refused after a result, otherwise the first failure wins. */
  function PublishFailure(k: Outcomes, t: Id, e: Exc): (Outcomes, Result<Text, Exc>) {
    if t in k.results then (k, Err(Other(CompletedAuthoritatively)))
    else if t in k.failures then (k, Ok(k.failures[t].text))
    else (k.(failures := k.failures[t := e]), Ok(e.text))
  }

  // ----- one step of one run ---------------------------------------------------------

  /** What one step of a run writes: its own counter, the shared stores, and possibly its
      completion record. */
  datatype Effect = Effect(
    pc: Pc, attempt: nat, registry: Registry, authority: map<(Id, Id), nat>, outcomes: Outcomes,
    status: Option<Status>)

  function Goto(s: State, run: Run, pc: Pc): Effect {
    Effect(pc, run.attempt, s.registry, s.authority, s.outcomes, None)
  }

  function Fails(s: State, run: Run, text: Text): Effect {
    Goto(s, run, Handling(Other(text), true))
  }

  function Commit(s: State, r: RunId, e: Effect): State
    requires r in s.runs
  {
    var run := s.runs[r];
    State(s.members, e.registry, e.authority, e.outcomes,
          if e.status.Some? then s.completions[(run.runtime, run.task) := e.status.value] else s.completions,
          s.runs[r := run.(pc := e.pc, attempt := e.attempt)])
  }

  /** The attempt loop's `except Exception`. */
  function Handle(s: State, run: Run, e: Exc, selected: bool): Effect {
    if run.attempt < run.maxAttempts then Goto(s, run, Selecting).(attempt := run.attempt + 1)
    else if selected && !e.Stale? then
      var (outcomes, published) := PublishFailure(s.outcomes, run.task, e);
      Goto(s, run, if published.Ok? then Recording(published.value, e) else Raised(published.error))
        .(outcomes := outcomes)
    else Goto(s, run, Recording(e.text, e))
  }

  /** A step that also rewrites the run's completion record. */
  function Record(s: State, run: Run, pc: Pc, status: Status): Effect {
    Effect(pc, run.attempt, s.registry, s.authority, s.outcomes, Some(status))
  }

  predicate Recordable(s: State, run: Run) {
    (run.runtime, run.task) in s.completions && !s.completions[(run.runtime, run.task)].Terminal()
  }

  /** Steps of the runtime that read or write the completion record. */
  function StepRecord(s: State, run: Run, o: Oracle): Effect {
    var key := (run.runtime, run.task);
    match run.pc
    case Lookup =>
      if key !in s.completions then Goto(s, run, Creating)
      else if run.idempotent && s.completions[key].Completed?
      then Goto(s, run, Returned(s.completions[key].result))
      else Goto(s, run, Raised(Other(o.text)))
    case Creating =>
      if key in s.completions then Goto(s, run, Raised(Other(RecordExists)))
      else Record(s, run, Starting, TaskCompletion.Pending)
    case Starting =>
      if key in s.completions && s.completions[key].Pending?
      then Record(s, run, Selecting, TaskCompletion.Running)
      else Goto(s, run, Raised(Other(RecordCannotStart)))
    case Recording(error, e) =>
      if Recordable(s, run) && !error.IsBlank() then Record(s, run, Raised(e), TaskCompletion.Failed(error))
      else Goto(s, run, Raised(Other(RecordTerminal)))
    case Completing(result) =>
      if Recordable(s, run) then Record(s, run, Returned(result), TaskCompletion.Completed(result))
      else Goto(s, run, Raised(Other(RecordTerminal)))
    case _ => Goto(s, run, run.pc)
  }

  /** Selecting the backend. Its health check reads leader and members at several moments, so any
      answer is possible; then it reads the leader. */
  function StepSelect(s: State, run: Run, o: Oracle): Effect {
    if run.pc.Selecting? then
      if o.selectable then Goto(s, run, Checking) else Goto(s, run, Handling(Other(o.text), false))
    else if !o.available then Fails(s, run, o.text)
    else if s.members.leader == None then Fails(s, run, LeaderUnavailable)
    else Goto(s, run, Coordinating(s.members.leader.value))
  }

  function StepDispatcher(s: State, run: Run, o: Oracle): Effect {
    var t := run.task;
    match run.pc
    case Coordinating(leader) =>
      if s.members.leader == None then Fails(s, run, LeaderUnavailable)
      else Goto(s, run, Listing(leader, s.members.leader.value))
    case Listing(leader, current) => Goto(s, run, Reclaiming(leader, current, s.members.online))
    case Reclaiming(leader, current, members) =>
      (if leader != current then Fails(s, run, StaleLeader) else Goto(s, run, Resolving(leader)))
        .(registry := ReclaimStep(s.registry, members))
    case Resolving(leader) =>
      if leader in s.members.online && o.target.Some? && o.target.value in s.members.online
      then Goto(s, run, Claiming(o.target.value))
      else Fails(s, run, o.text)
    case Claiming(n) =>
      var (registry, claimed) := ClaimStep(s.registry, t, n);
      if claimed.Err? then Fails(s, run, Text.AlreadyOwned)
      else Goto(s, run, Claimed(n, claimed.value)).(registry := registry)
    case Claimed(n, g) => Goto(s, run, Executing(n, g)).(authority := s.authority[(t, n) := g])
    case Executing(n, g) => Goto(s, run, Leaving(n, g, o.outcome))
    case Leaving(n, g, out) => Goto(s, run, Releasing(n, g, out)).(authority := s.authority - {(t, n)})
    case Releasing(n, g, out) =>
      var (registry, refused) := ReleaseStep(s.registry, t, n, g);
      Goto(s, run, if refused.Some? then StaleLookup(Stale(StaleOwnership))
                   else if out.Value? then Publishing(out.output)
                   else if out.exc.Stale? then StaleLookup(out.exc)
                   else Handling(out.exc, true)).(registry := registry)
    case _ => Goto(s, run, run.pc)
  }

  function StepBackend(s: State, run: Run, o: Oracle): Effect {
    var t := run.task;
    match run.pc
    case Publishing(v) =>
      var (outcomes, published) := PublishResult(s.outcomes, ComputeResult(t, v, o.seconds, None));
      Goto(s, run, if published.Ok? then Completing(Normalise(published.value))
                   else Handling(published.error, true)).(outcomes := outcomes)
    case StaleLookup(e) =>
      Goto(s, run, if t in s.outcomes.results then Completing(Normalise(s.outcomes.results[t]))
                   else StaleFailureLookup(e))
    case StaleFailureLookup(e) =>
      Goto(s, run, Handling(if t in s.outcomes.failures then Other(s.outcomes.failures[t].text) else e, true))
    case _ => Goto(s, run, run.pc)
  }

  predicate InDispatcher(pc: Pc) {
    pc.Coordinating? || pc.Listing? || pc.Reclaiming? || pc.Resolving? || pc.Claiming? || pc.Claimed? || pc.Executing?
    || pc.Leaving? || pc.Releasing?
  }

  predicate InBackend(pc: Pc) { pc.Publishing? || pc.StaleLookup? || pc.StaleFailureLookup? }

  function StepRun(s: State, run: Run, o: Oracle): Effect {
    if InDispatcher(run.pc) then StepDispatcher(s, run, o)
    else if InBackend(run.pc) then StepBackend(s, run, o)
    else if run.pc.Selecting? || run.pc.Checking? then StepSelect(s, run, o)
    else if run.pc.Handling? then Handle(s, run, run.pc.exc, run.pc.selected)
    else StepRecord(s, run, o)
  }

  function Apply(s: State, a: Action): State {
    match a
    case Membership(members) => s.(members := members)
    case Call(r, runtime, task, attempts, idempotent) =>
      if r in s.runs then s
      else s.(runs := s.runs[r := Run(runtime, task, attempts, idempotent, 1, Lookup)])
    case CancelTask(runtime, task) =>
      if (runtime, task) in s.completions && !s.completions[(runtime, task)].Terminal()
      then s.(completions := s.completions[(runtime, task) := TaskCompletion.Cancelled]) else s
    case Forget(runtime, task) =>
      if (runtime, task) in s.completions && s.completions[(runtime, task)].Terminal()
      then s.(completions := s.completions - {(runtime, task)}) else s
    case Advance(r, o) => if r in s.runs then Commit(s, r, StepRun(s, s.runs[r], o)) else s
  }

  /** A run of the whole system: states b[0], b[1], ... joined by actions. */
  ghost predicate Behavior(b: seq<State>, acts: seq<Action>) {
    && |b| == |acts| + 1
    && b[0] == INITIAL
    && forall i {:trigger acts[i]} :: 0 <= i < |acts| ==> b[i + 1] == Apply(b[i], acts[i])
  }
}
