/** Queue consumption against the completion state machine (nexus/compute/task_worker.py). */
module TaskWorker {
  import opened Basics
  import opened TaskCompletion

  type WorkerId = nat

  datatype HandlerOutcome<+R> = Value(result: R) | Raise(error: string)

  /** Where a worker is inside `run_once`. */
  datatype Pc<+R> =
    | Idle
    | Dequeued(task: Id)                              // before completions.get
    | Known(task: Id)                                 // the lookup found a record; before start
    | Handling(task: Id)                              // inside the handler
    | Handled(task: Id, outcome: HandlerOutcome<R>)   // before the second lookup
    | Finishing(task: Id, outcome: HandlerOutcome<R>) // before complete or fail

  datatype State<+R> = State(records: Records<R>, queue: seq<Id>, workers: map<WorkerId, Pc<R>>)

  /** Other threads operate on the registry and the queue; a worker advances by one locked call. */
  datatype Action<+R> =
    | Operate(op: Op<R>)
    | Enqueue(task: Id)
    | Work(worker: WorkerId, outcome: HandlerOutcome<R>, at: real)

  function PcOf<R>(s: State<R>, w: WorkerId): Pc<R> {
    if w in s.workers then s.workers[w] else Idle
  }

  function SetPc<R>(s: State<R>, w: WorkerId, pc: Pc<R>): State<R> {
    s.(workers := s.workers[w := pc])
  }

  /** How the worker records an outcome. */
  function Report<R>(t: Id, outcome: HandlerOutcome<R>, at: real): Op<R> {
    match outcome
    case Value(v) => Complete(t, v, at)
    case Raise(e) => Fail(t, e, at)
  }

  function WorkStep<R>(s: State<R>, w: WorkerId, outcome: HandlerOutcome<R>, at: real): State<R> {
    match PcOf(s, w)
    case Idle =>
      if s.queue == [] then s
      else SetPc(s.(queue := s.queue[1..]), w, Dequeued(s.queue[0]))
    case Dequeued(t) => SetPc(s, w, if t in s.records.items then Known(t) else Handling(t))
    case Known(t) =>
      var (records, refused) := Step(s.records, Start(t, at));
      SetPc(s.(records := records), w, if refused == None then Handling(t) else Idle)
    case Handling(t) => SetPc(s, w, Handled(t, outcome))
    case Handled(t, out) =>
      SetPc(s, w, if t in s.records.items && !s.records.items[t].Cancelled? then Finishing(t, out) else Idle)
    case Finishing(t, out) =>
      SetPc(s.(records := Step(s.records, Report(t, out, at)).0), w, Idle)
  }

  function Apply<R>(s: State<R>, a: Action<R>): State<R> {
    match a
    case Operate(op) => s.(records := Step(s.records, op).0)
    case Enqueue(t) => s.(queue := s.queue + [t])
    case Work(w, outcome, at) => WorkStep(s, w, outcome, at)
  }

  ghost predicate Behavior<R(!new)>(b: seq<State<R>>, acts: seq<Action<R>>) {
    && |b| == |acts| + 1
    && b[0] == State(NoRecords(), [], map[])
    && forall i {:trigger acts[i]} :: 0 <= i < |acts| ==> b[i + 1] == Apply(b[i], acts[i])
  }

  /** The registry operation one action performs, if any. */
  function Effect<R>(s: State<R>, a: Action<R>): seq<Op<R>> {
    match a
    case Operate(op) => [op]
    case Enqueue(_) => []
    case Work(w, _, at) =>
      (match PcOf(s, w)
       case Known(t) => [Start(t, at)]
       case Finishing(t, out) => [Report(t, out, at)]
       case _ => [])
  }

  lemma ActionsAreOperations<R>(s: State<R>, a: Action<R>)
    ensures Apply(s, a).records == After(s.records, Effect(s, a))
  {
    assert Effect(s, a) != [] ==> After(s.records, Effect(s, a)) == Step(s.records, Effect(s, a)[0]).0;
  }

  /** With any number of workers, every record keeps its timestamps: finish times exactly for
      terminal records and start times for every running one. */
  lemma {:induction false} WorkersKeepRecordsTimed<R(!new)>(b: seq<State<R>>, acts: seq<Action<R>>, i: nat)
    requires Behavior(b, acts) && i < |b|
    ensures Timed(b[i].records)
  {
    if i > 0 {
      WorkersKeepRecordsTimed(b, acts, i - 1);
      ActionsAreOperations(b[i - 1], acts[i - 1]);
      RunsStayTimed(b[i - 1].records, Effect(b[i - 1], acts[i - 1]));
      assert b[i - 1 + 1] == Apply(b[i - 1], acts[i - 1]);
    }
  }

  /** The record of t exists in every state from i to j. */
  ghost predicate KeptBetween<R(!new)>(b: seq<State<R>>, i: nat, j: nat, t: Id)
    requires j < |b|
  {
    forall k :: i <= k <= j ==> t in b[k].records.items
  }

  /** With workers and other threads interleaved, a kept record only advances:
      pending, perhaps running, then one terminal state for good. */
  lemma {:induction false} KeptRecordsOnlyAdvance<R(!new)>(
    b: seq<State<R>>, acts: seq<Action<R>>, i: nat, j: nat, t: Id)
    requires Behavior(b, acts) && i <= j < |b| && KeptBetween(b, i, j, t)
    ensures b[i].records.items[t].Rank() <= b[j].records.items[t].Rank()
    ensures b[i].records.items[t].Terminal() ==> b[j].records.items[t] == b[i].records.items[t]
  {
    if i < j {
      assert KeptBetween(b, i, j - 1, t);
      KeptRecordsOnlyAdvance(b, acts, i, j - 1, t);
      assert b[j - 1 + 1] == Apply(b[j - 1], acts[j - 1]);
      ActionOnlyAdvances(b[j - 1], acts[j - 1], t);
    }
  }

  lemma ActionOnlyAdvances<R>(s: State<R>, a: Action<R>, t: Id)
    requires t in s.records.items && t in Apply(s, a).records.items
    ensures s.records.items[t].Rank() <= Apply(s, a).records.items[t].Rank()
    ensures s.records.items[t].Terminal() ==> Apply(s, a).records.items[t] == s.records.items[t]
  {
    ActionsAreOperations(s, a);
    StatusOnlyAdvances(s.records, Effect(s, a), t);
  }

  /** While a task's record is kept, nobody enters its handler after the task was cancelled:
      wherever each worker stands at the cancellation, between the lookup and the start call
      included, only one that is already inside the handler is ever found there later. */
  lemma {:induction false} CancelledTaskNeverReachesItsHandler<R(!new)>(
    b: seq<State<R>>, acts: seq<Action<R>>, c: nat, h: nat, w: WorkerId, t: Id)
    requires Behavior(b, acts) && c <= h < |b|
    requires t in b[c].records.items && b[c].records.items[t].Cancelled? && KeptBetween(b, c, h, t)
    requires PcOf(b[c], w) != Handling(t)
    ensures PcOf(b[h], w) != Handling(t) && b[h].records.items[t].Cancelled?
  {
    if c < h {
      assert KeptBetween(b, c, h - 1, t);
      CancelledTaskNeverReachesItsHandler(b, acts, c, h - 1, w, t);
      assert b[h - 1 + 1] == Apply(b[h - 1], acts[h - 1]);
      ActionOnlyAdvances(b[h - 1], acts[h - 1], t);
    }
  }

  /** Exactly when a worker enters a handler: it found no record at its lookup, or the record
      was pending at its start call, which marks it running. */
  lemma HandlerEntry<R(!new)>(s: State<R>, w: WorkerId, outcome: HandlerOutcome<R>, at: real)
    requires PcOf(s, w).Dequeued? || PcOf(s, w).Known?
    ensures var t, s' := PcOf(s, w).task, WorkStep(s, w, outcome, at);
            && (PcOf(s', w) == Handling(t) <==>
                  if PcOf(s, w).Dequeued? then t !in s.records.items
                  else t in s.records.items && s.records.items[t].Pending?)
            && (PcOf(s, w).Known? && PcOf(s', w).Handling? ==> s'.records.items[t].Running?)
  {
  }

  /** The lookup matters: a record created and cancelled after a worker looked and found none
      does not stop that worker. */
  lemma LateCancellationDoesNotStopTheHandler() returns (b: seq<State<string>>, acts: seq<Action<string>>)
    ensures Behavior(b, acts)
    ensures var s := b[|b| - 1];
            && "t" in s.records.items && s.records.items["t"].Cancelled? && "t" !in s.records.started
            && PcOf(s, 0) == Handling("t")
  {
    var out: HandlerOutcome<string> := Value("v");
    acts := [Enqueue("t"), Work(0, out, 0.0), Work(0, out, 0.0), Operate(Create("t")), Operate(Cancel("t", 0.0))];
    var s0: State<string> := State(NoRecords(), [], map[]);
    var s1 := Apply(s0, acts[0]);
    var s2 := Apply(s1, acts[1]);
    var s3 := Apply(s2, acts[2]);
    var s4 := Apply(s3, acts[3]);
    var s5 := Apply(s4, acts[4]);
    b := [s0, s1, s2, s3, s4, s5];
  }

  // ----- the worker object -------------------------------------------------------------

  datatype Consumed<+R> =
    | Empty                         // nothing was queued
    | Refused(task: Id)             // `start` raised; the handler never ran
    | Returned(task: Id, result: R)
    | HandlerRaised(task: Id)
    | ReportRefused(task: Id)       // the handler ran, `complete` or `fail` raised

  function Answer<R>(t: Id, outcome: HandlerOutcome<R>): Consumed<R> {
    match outcome
    case Value(v) => Returned(t, v)
    case Raise(_) => HandlerRaised(t)
  }

  /** One dequeued task with nothing interleaved: what is recorded and what the caller sees. */
  function Consume<R>(r: Records<R>, t: Id, outcome: HandlerOutcome<R>, at: real): (Records<R>, Consumed<R>) {
    if t !in r.items then (r, Answer(t, outcome))
    else
      var (started, refused) := Step(r, Start(t, at));
      if refused.Some? then (r, Refused(t))
      else
        var (reported, unreported) := Step(started, Report(t, outcome, at));
        (reported, if unreported.Some? then ReportRefused(t) else Answer(t, outcome))
  }

  /** The record ends as the handler's outcome; a task that is not pending is left untouched;
      only an empty error text leaves a record running. */
  lemma ConsumeSettlesTheRecord<R>(r: Records<R>, t: Id, outcome: HandlerOutcome<R>, at: real)
    ensures var (r', c) := Consume(r, t, outcome, at);
            && (c.Refused? <==> t in r.items && !r.items[t].Pending?)
            && (c.Refused? || t !in r.items ==> r' == r)
            && (c.Returned? ==> outcome == Value(c.result))
            && (t in r.items && r.items[t].Pending? ==>
                  && r'.items == r.items[t := if outcome.Value? then Completed(outcome.result)
                                              else if Strip(outcome.error) == [] then Running
                                              else Failed(outcome.error)]
                  && (c.ReportRefused? <==> r'.items[t].Running?))
  {
  }

  /** When the handler has ended, its outcome is reported exactly if the record is still there and
      was not cancelled meanwhile. */
  lemma HandlerExit<R(!new)>(s: State<R>, w: WorkerId, outcome: HandlerOutcome<R>, at: real)
    requires PcOf(s, w).Handled?
    ensures var t, out, s' := PcOf(s, w).task, PcOf(s, w).outcome, WorkStep(s, w, outcome, at);
            && s'.records == s.records && s'.queue == s.queue
            && PcOf(s', w) == if t in s.records.items && s.records.items[t] != Cancelled
                              then Finishing(t, out) else Idle
  {
  }

  /** A worker's next n steps with nothing in between. */
  ghost function Alone<R(!new)>(
    s: State<R>, w: WorkerId, outcome: HandlerOutcome<R>, at: real, n: nat): State<R>
    decreases n
  {
    if n == 0 then s else Alone(WorkStep(s, w, outcome, at), w, outcome, at, n - 1)
  }

  lemma AloneTwice<R(!new)>(s: State<R>, w: WorkerId, outcome: HandlerOutcome<R>, at: real, n: nat)
    ensures var s2 := WorkStep(WorkStep(s, w, outcome, at), w, outcome, at);
            Alone(s, w, outcome, at, n + 2) == Alone(s2, w, outcome, at, n)
  {
    var s1 := WorkStep(s, w, outcome, at);
    assert Alone(s, w, outcome, at, n + 2) == Alone(s1, w, outcome, at, n + 1);
  }

  /** How many steps consume t: the lookup decides whether start and report take part. */
  function StepsFor<R>(r: Records<R>, t: Id): nat {
    if t !in r.items then 4 else if r.items[t].Pending? then 6 else 3
  }

  /** An idle worker that is left alone takes the head of the queue and consumes it as one
      `run_once` does. */
  lemma StepsAloneConsume<R(!new)>(s: State<R>, w: WorkerId, outcome: HandlerOutcome<R>, at: real)
    requires PcOf(s, w).Idle? && s.queue != []
    ensures var t := s.queue[0];
            var s' := Alone(s, w, outcome, at, StepsFor(s.records, t));
            && s'.queue == s.queue[1..] && s'.records == Consume(s.records, t, outcome, at).0
            && PcOf(s', w).Idle? && forall v :: v != w ==> PcOf(s', v) == PcOf(s, v)
  {
    var t := s.queue[0];
    var s2 := WorkStep(WorkStep(s, w, outcome, at), w, outcome, at);
    AloneTwice(s, w, outcome, at, StepsFor(s.records, t) - 2);
    if t !in s.records.items {
      assert PcOf(s2, w) == Handling(t);
      AloneTwice(s2, w, outcome, at, 0);
    } else {
      assert PcOf(s2, w) == Known(t);
      var s3 := WorkStep(s2, w, outcome, at);
      assert forall n: nat :: Alone(s2, w, outcome, at, n + 1) == Alone(s3, w, outcome, at, n);
      if s.records.items[t].Pending? { HandlingAlone(s3, w, t, outcome, at); }
    }
  }

  lemma HandlingAlone<R(!new)>(s: State<R>, w: WorkerId, t: Id, outcome: HandlerOutcome<R>, at: real)
    requires PcOf(s, w) == Handling(t) && t in s.records.items && s.records.items[t].Running?
    ensures var s' := Alone(s, w, outcome, at, 3);
            && s'.queue == s.queue && s'.records == Step(s.records, Report(t, outcome, at)).0
            && PcOf(s', w).Idle? && forall v :: v != w ==> PcOf(s', v) == PcOf(s, v)
  {
    var s2 := WorkStep(WorkStep(s, w, outcome, at), w, outcome, at);
    AloneTwice(s, w, outcome, at, 1);
    assert PcOf(s2, w) == Finishing(t, outcome);
    var s3 := WorkStep(s2, w, outcome, at);
    assert Alone(s2, w, outcome, at, 1) == Alone(s3, w, outcome, at, 0) == s3;
  }

  /** Tasks consumed one after the other, up to the first that raises: the records left, the
      results so far, and what was raised. */
  function ConsumeAll<R>(r: Records<R>, tasks: seq<Id>, handler: Id -> HandlerOutcome<R>, at: real)
    : (Records<R>, seq<R>, Option<Consumed<R>>)
    decreases |tasks|
  {
    if tasks == [] then (r, [], None)
    else
      var (records, c) := Consume(r, tasks[0], handler(tasks[0]), at);
      if !c.Returned? then (records, [], Some(c))
      else
        var (last, results, raised) := ConsumeAll(records, tasks[1..], handler, at);
        (last, [c.result] + results, raised)
  }

  /** The results are the handlers' values in order; what was raised belongs to the next task, and
      nothing is left out when nothing was raised. */
  lemma {:induction false} ConsumeAllFollowsTheQueue<R>(
    r: Records<R>, tasks: seq<Id>, handler: Id -> HandlerOutcome<R>, at: real)
    ensures var (_, results, raised) := ConsumeAll(r, tasks, handler, at);
            && |results| + (if raised.Some? then 1 else 0) <= |tasks|
            && (forall i :: 0 <= i < |results| ==> handler(tasks[i]) == Value(results[i]))
            && (raised.None? ==> |results| == |tasks|)
            && (raised.Some? ==>
                  !raised.value.Returned? && !raised.value.Empty? && raised.value.task == tasks[|results|])
    decreases |tasks|
  {
    if tasks != [] {
      var (records, c) := Consume(r, tasks[0], handler(tasks[0]), at);
      ConsumeAllFollowsTheQueue(records, tasks[1..], handler, at);
    }
  }

  /** The whole is what was done so far followed by the rest. */
  ghost predicate Continues<R>(whole: (Records<R>, seq<R>, Option<Consumed<R>>), done: seq<R>,
                               rest: (Records<R>, seq<R>, Option<Consumed<R>>)) {
    whole == (rest.0, done + rest.1, rest.2)
  }

  lemma ContinuesOneMore<R>(
    whole: (Records<R>, seq<R>, Option<Consumed<R>>), done: seq<R>,
    r: Records<R>, tasks: seq<Id>, handler: Id -> HandlerOutcome<R>, at: real)
    requires tasks != [] && Continues(whole, done, ConsumeAll(r, tasks, handler, at))
    ensures var (records, c) := Consume(r, tasks[0], handler(tasks[0]), at);
            if c.Returned? then Continues(whole, done + [c.result], ConsumeAll(records, tasks[1..], handler, at))
            else whole == (records, done, Some(c))
  {
    var (records, c) := Consume(r, tasks[0], handler(tasks[0]), at);
    if c.Returned? {
      var rest := ConsumeAll(records, tasks[1..], handler, at);
      assert done + ([c.result] + rest.1) == done + [c.result] + rest.1;
    } else {
      assert done + [] == done;
    }
  }

  /** A worker running alone; `handler` is what the handler registry would do with each task. */
  class TaskWorker<R(!new)> {
    var queue: seq<Id>
    const completions: TaskCompletionRegistry<R>
    const handler: Id -> HandlerOutcome<R>
    ghost var invoked: seq<Id>

    constructor (completions: TaskCompletionRegistry<R>, handler: Id -> HandlerOutcome<R>, queue: seq<Id>)
      ensures this.completions == completions && this.handler == handler
      ensures this.queue == queue && invoked == []
    {
      this.completions, this.handler, this.queue, this.invoked := completions, handler, queue, [];
    }

    /** Identifiers in the queue are already stripped. */
    ghost predicate Normal() reads this { forall i :: 0 <= i < |queue| ==> Strip(queue[i]) == queue[i] }

    method RunOnce(now: real) returns (c: Consumed<R>)
      requires completions.Valid() && Normal()
      modifies this, completions
      ensures completions.Valid()
      ensures old(queue) == [] ==>
                c == Empty && queue == [] && completions.State() == old(completions.State()) && invoked == old(invoked)
      ensures old(queue) != [] ==>
                && queue == old(queue)[1..] && !c.Empty? && c.task == old(queue)[0]
                && (completions.State(), c)
                   == Consume(old(completions.State()), old(queue)[0], handler(old(queue)[0]), now)
                && invoked == (if c.Refused? then old(invoked) else old(invoked) + [old(queue)[0]])
    {
      if queue == [] { return Empty; }
      var t := queue[0];
      queue := queue[1..];
      var record := completions.Get(t);
      if record.Some? {
        var refused := completions.Start(t, now);
        if refused.Some? { return Refused(t); }
      }
      invoked := invoked + [t];
      var outcome := handler(t);
      record := completions.Get(t);
      if record.Some? && !record.value.Cancelled? {
        var unreported: Option<Refusal>;
        match outcome {
          case Value(v) => unreported := completions.Complete(t, v, now);
          case Raise(e) => unreported := completions.Fail(t, e, now);
        }
        if unreported.Some? { return ReportRefused(t); }
      }
      return Answer(t, outcome);
    }

    /** Consumes in queue order and stops at the first task that raises. */
    method RunUntilEmpty(now: real) returns (results: seq<R>, raised: Option<Consumed<R>>)
      requires completions.Valid() && Normal()
      modifies this, completions
      ensures completions.Valid()
      ensures (completions.State(), results, raised) == ConsumeAll(old(completions.State()), old(queue), handler, now)
      ensures |results| + (if raised.Some? then 1 else 0) + |queue| == old(|queue|)
      ensures queue == old(queue)[|old(queue)| - |queue|..]
      ensures raised.None? ==> queue == []
      ensures forall i :: 0 <= i < |results| ==> handler(old(queue)[i]) == Value(results[i])
      ensures raised.Some? ==> !raised.value.Returned? && !raised.value.Empty?
                               && raised.value.task == old(queue)[|results|]
    {
      results := [];
      ghost var whole := ConsumeAll(completions.State(), queue, handler, now);
      ConsumeAllFollowsTheQueue(completions.State(), queue, handler, now);
      assert [] + whole.1 == whole.1;
      while queue != []
        invariant completions.Valid()
        invariant |results| <= |old(queue)| && queue == old(queue)[|results|..]
        invariant Continues(whole, results, ConsumeAll(completions.State(), queue, handler, now))
        decreases |queue|
      {
        ContinuesOneMore(whole, results, completions.State(), queue, handler, now);
        var c := RunOnce(now);
        if !c.Returned? { return results, Some(c); }
        results := results + [c.result];
      }
      assert results + [] == results;
      return results, None;
    }
  }
}
