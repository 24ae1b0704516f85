/** The cluster backend and dispatcher as the objects they are: their locked methods update
    fields in place and compute the effects the step system composes
    (nexus/compute/cluster.py, nexus/compute/dispatcher.py). */
module ClusterObjects {
  import opened Basics
  import Own = TaskOwnership
  import opened ClusterExecution
  import opened ClusterSafety

  class ClusterBackend {
    var terminalResults: map<Id, ComputeResult>
    var terminalFailures: map<Id, Exc>
    var completedRuns: nat
    var failedRuns: nat
    var activeRuns: nat

    ghost function Stored(): Outcomes reads this { Outcomes(terminalResults, terminalFailures) }

    ghost predicate Valid() reads this { Filed(Stored()) }

    constructor ()
      ensures Stored() == Outcomes(map[], map[]) && Valid() && activeRuns == 0
    {
      terminalResults, terminalFailures := map[], map[];
      completedRuns, failedRuns, activeRuns := 0, 0, 0;
    }

    method PublishTerminalResult(result: ComputeResult) returns (r: Result<ComputeResult, Exc>)
      requires Valid()
      modifies this`terminalResults
      ensures (Stored(), r) == PublishResult(old(Stored()), result)
      ensures Valid() && Extends(old(Stored()), Stored())
      ensures r.Ok? <==> result.task !in terminalFailures
      ensures terminalResults == if result.task in old(terminalResults) || result.task in terminalFailures
                                 then old(terminalResults) else old(terminalResults)[result.task := result]
      ensures r.Ok? ==> result.task in terminalResults && r.value == terminalResults[result.task]
    {
      var key := result.task;
      if key in terminalResults { return Ok(terminalResults[key]); }
      if key in terminalFailures { return Err(Other(terminalFailures[key].text)); }
      terminalResults := terminalResults[key := result];
      return Ok(result);
    }

    /** Stores any error; a stale-ownership error is kept out by the caller. */
    method PublishTerminalFailure(task: Id, error: Exc) returns (r: Result<Text, Exc>)
      requires Valid()
      modifies this`terminalFailures
      ensures old(NoStaleFailure(Stored())) && !error.Stale? ==> NoStaleFailure(Stored())
      ensures (Stored(), r) == PublishFailure(old(Stored()), task, error)
      ensures Valid() && Extends(old(Stored()), Stored())
      ensures r.Ok? <==> task !in terminalResults
      ensures terminalFailures == if task in terminalResults || task in old(terminalFailures)
                                  then old(terminalFailures) else old(terminalFailures)[task := error]
      ensures r.Ok? ==> task in terminalFailures && r.value == terminalFailures[task].text
    {
      if task in terminalResults { return Err(Other(CompletedAuthoritatively)); }
      if task in terminalFailures { return Ok(terminalFailures[task].text); }
      terminalFailures := terminalFailures[task := error];
      return Ok(error.text);
    }

    /** `run` with nothing else interleaved; `dispatched` is what the dispatcher gives back. */
    method Run(task: Id, available: bool, dispatched: Outcome, seconds: real) returns (r: Result<ComputeResult, Exc>)
      requires Valid()
      modifies this
      ensures Valid() && Extends(old(Stored()), Stored())
      ensures terminalFailures == old(terminalFailures)
      ensures !available ==> r == Err(Other(LeaderUnavailable)) && Stored() == old(Stored())
      ensures r.Ok? ==> task in terminalResults && r.value == terminalResults[task]
      ensures r.Ok? <==> available && (dispatched.Value? || dispatched.exc.Stale?)
                         && task !in terminalFailures
                         && (dispatched.Value? || task in old(terminalResults))
      ensures r.Err? && available ==>
                r.error == (if dispatched.Raise? && !dispatched.exc.Stale? then dispatched.exc
                            else if task in terminalFailures then Other(terminalFailures[task].text)
                            else dispatched.exc)
      ensures Stored() != old(Stored()) ==>
                && task !in old(terminalResults) && dispatched.Value?
                && terminalResults
                   == old(terminalResults)[task := ComputeResult(task, dispatched.output, seconds, None)]
      ensures activeRuns == old(activeRuns)
      ensures completedRuns == old(completedRuns) + (if r.Ok? then 1 else 0)
      ensures failedRuns == old(failedRuns) + (if available && r.Err? then 1 else 0)
    {
      if !available { return Err(Other(LeaderUnavailable)); }
      activeRuns := activeRuns + 1;
      match dispatched {
        case Value(output) =>
          r := PublishTerminalResult(ComputeResult(task, output, seconds, None));
        case Raise(e) =>
          if e.Stale? && task in terminalResults {
            r := Ok(terminalResults[task]);
          } else if e.Stale? && task in terminalFailures {
            r := Err(Other(terminalFailures[task].text));
          } else {
            r := Err(e);
          }
      }
      if r.Ok? { completedRuns := completedRuns + 1; } else { failedRuns := failedRuns + 1; }
      activeRuns := activeRuns - 1;
    }
  }

  class ClusterDispatcher {
    const ownership: Own.TaskOwnershipRegistry
    var executionAuthority: map<(Id, Id), nat>

    constructor (ownership: Own.TaskOwnershipRegistry)
      ensures this.ownership == ownership && executionAuthority == map[]
    {
      this.ownership := ownership;
      executionAuthority := map[];
    }

    /** The entry of `_execute_owned`: claim, then record the generation as the authority. */
    method Enter(task: Id, target: Id) returns (r: Result<nat, Own.Error>)
      requires Strip(task) == task != [] && Strip(target) == target != []
      modifies this, ownership
      ensures (ownership.State(), r) == Own.ClaimStep(old(ownership.State()), task, target)
      ensures executionAuthority
              == if r.Ok? then old(executionAuthority)[(task, target) := r.value] else old(executionAuthority)
      ensures r.Ok? ==> Own.Current(ownership.State(), task, target, r.value)
    {
      r := ownership.Claim(task, target);
      if r.Ok? { executionAuthority := executionAuthority[(task, target) := r.value]; }
    }

    /** Its `finally` block: drop the authority, then release; a refused release replaces
        whatever the executor returned or raised. */
    method Leave(task: Id, target: Id, generation: nat, outcome: Outcome) returns (r: Outcome)
      requires Strip(task) == task != [] && Strip(target) == target != [] && generation >= 1
      modifies this, ownership
      ensures executionAuthority == old(executionAuthority) - {(task, target)}
      ensures ownership.State() == Own.ReleaseStep(old(ownership.State()), task, target, generation).0
      ensures r == if Own.Current(old(ownership.State()), task, target, generation) then outcome
                   else Raise(Stale(StaleOwnership))
    {
      executionAuthority := executionAuthority - {(task, target)};
      var refused := ownership.Release(task, target, generation);
      r := if refused == None then outcome else Raise(Stale(StaleOwnership));
    }

    /** Accepts only while that node is the registry's current owner of the task. */
    method AssertExecutionCurrent(taskId: string, nodeId: string) returns (accepted: bool)
      ensures accepted ==> Strip(taskId) in ownership.items && ownership.items[Strip(taskId)].node == Strip(nodeId)
      ensures accepted <==>
                var key := (Strip(taskId), Strip(nodeId));
                && key in executionAuthority && executionAuthority[key] >= 1 && key.0 != [] && key.1 != []
                && Own.Current(ownership.State(), key.0, key.1, executionAuthority[key])
    {
      var key := (Strip(taskId), Strip(nodeId));
      if key !in executionAuthority { return false; }
      StripTwice(taskId);
      StripTwice(nodeId);
      var e := ownership.AssertCurrent(key.0, key.1, executionAuthority[key]);
      return e == None;
    }
  }
}
