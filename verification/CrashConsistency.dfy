/** ComputeRuntime with a completion store under crashes at any point
    (nexus/compute/runtime.py, nexus/compute/completion_store.py).

    `save` is one atomic replacement of the durable file; it may also fail, leaving the file
    as it was. Runs, cancellations and explicit `persist` calls interleave freely, and a crash
    may strike between any two steps, after which the runtime is rebuilt from the store. */
module CrashConsistency {
  import opened Basics
  import opened TaskCompletion

  /** A result as the runtime made it, or as plain data read back from JSON. */
  datatype Stored = Live(output: string) | Reloaded(output: string)

  type Record = Status<Stored>
  type Records = map<Id, Record>
  type CallId = nat

  /** `asdict` and JSON: a ComputeResult comes back as a mapping. */
  function Flat(s: Record): Record {
    if s.Completed? then Completed(Reloaded(s.result.output)) else s
  }

  function Flatten(m: Records): Records { map t | t in m :: Flat(m[t]) }

  /** `TaskCompletionStore.load`: an absent file is an empty registry. */
  function Recover(disk: Option<Records>): Records {
    if disk.None? then map[] else RecoverAll(disk.value)
  }

  datatype Pc =
    | Lookup | Creating | SavingPending | Starting | SavingRunning
    | Attempting(n: nat)        // before selecting a backend for attempt n
    | InBackend(n: nat)
    | Recording(error: string)
    | Completing(output: string)
    | SavingTerminal
    | Returned
    | Raised

  datatype Call = Call(task: Id, maxAttempts: nat, idempotent: bool, pc: Pc)

  /** What actually happened, whether or not anything remembers it. */
  datatype History = History(
    entries: map<Id, nat>,            // how often the backend was entered for an id
    entrants: map<Id, set<CallId>>,   // by which `run` calls
    creators: map<Id, (CallId, nat)>, // the call that last created a record, and its attempt limit
    yielded: set<(Id, string)>,       // what the backend returned, by id
    acknowledged: set<(Id, string)>,  // what `run` calls computed and returned, by id
    used: set<CallId>)

  datatype State = State(mem: Records, disk: Option<Records>, calls: map<CallId, Call>, past: History)

  datatype Oracle = Oracle(saves: bool, selects: bool, succeeds: bool, publishes: bool, output: string, error: string)

  datatype Action =
    | Run(call: CallId, task: Id, maxAttempts: nat, idempotent: bool)
    | Advance(call: CallId, oracle: Oracle)
    | Cancel(task: Id)
    | Persist(saves: bool)
    | Crash

  const FRESH := State(map[], None, map[], History(map[], map[], map[], {}, {}, {}))

  function Entries(h: History, t: Id): nat { if t in h.entries then h.entries[t] else 0 }
  function Entrants(h: History, t: Id): set<CallId> { if t in h.entrants then h.entrants[t] else {} }

  /** What one step of a call writes. */
  datatype Effect = Effect(pc: Pc, mem: Records, disk: Option<Records>, past: History)

  function Goto(s: State, pc: Pc): Effect { Effect(pc, s.mem, s.disk, s.past) }

  function Commit(s: State, c: CallId, e: Effect): State
    requires c in s.calls
  {
    State(e.mem, e.disk, s.calls[c := s.calls[c].(pc := e.pc)], e.past)
  }

  function Saved(s: State, ok: bool): Option<Records> { if ok then Some(Flatten(s.mem)) else s.disk }

  function SaveThen(s: State, ok: bool, next: Pc): Effect {
    Effect(if ok then next else Raised, s.mem, Saved(s, ok), s.past)
  }

  function Rewrite(s: State, t: Id, status: Record, next: Pc): Effect {
    Effect(next, s.mem[t := status], s.disk, s.past)
  }

  function Terminate(s: State, t: Id, status: Record): Effect {
    if t in s.mem && !s.mem[t].Terminal() && Admissible(status) then Rewrite(s, t, status, SavingTerminal)
    else Goto(s, Raised)
  }

  /** The attempt loop's exception handler; `publishes` is false when publishing the failure itself raises. */
  function AttemptFails(s: State, k: Call, n: nat, o: Oracle): Effect {
    Goto(s, if n < k.maxAttempts then Attempting(n + 1)
            else if o.publishes then Recording(o.error) else Raised)
  }

  function Create(s: State, c: CallId, k: Call): Effect {
    Effect(SavingPending, s.mem[k.task := Pending], s.disk,
           s.past.(creators := s.past.creators[k.task := (c, k.maxAttempts)]))
  }

  function Enter(s: State, c: CallId, t: Id, n: nat): Effect {
    Effect(InBackend(n), s.mem, s.disk,
           s.past.(entries := s.past.entries[t := Entries(s.past, t) + 1],
                   entrants := s.past.entrants[t := Entrants(s.past, t) + {c}]))
  }

  function Succeed(s: State, t: Id, output: string): Effect {
    Effect(Completing(output), s.mem, s.disk, s.past.(yielded := s.past.yielded + {(t, output)}))
  }

  /** The last save; a call that completed its task then returns its result. */
  function Finish(s: State, t: Id, ok: bool): Effect {
    if ok && t in s.mem && s.mem[t].Completed?
    then Effect(Returned, s.mem, Saved(s, true),
                s.past.(acknowledged := s.past.acknowledged + {(t, s.mem[t].result.output)}))
    else SaveThen(s, ok, Raised)
  }

  function CallStep(s: State, c: CallId, k: Call, o: Oracle): Effect {
    var t := k.task;
    match k.pc
    case Lookup =>
      if t !in s.mem then Goto(s, Creating)
      else if k.idempotent && s.mem[t].Completed? && s.mem[t].result.Live? then Goto(s, Returned)
      else Goto(s, Raised)
    case Creating => if t in s.mem then Goto(s, Raised) else Create(s, c, k)
    case SavingPending => SaveThen(s, o.saves, Starting)
    case Starting =>
      if t in s.mem && s.mem[t].Pending? then Rewrite(s, t, Running, SavingRunning) else Goto(s, Raised)
    case SavingRunning => SaveThen(s, o.saves, Attempting(1))
    case Attempting(n) =>
      if n > k.maxAttempts then Goto(s, Raised)
      else if o.selects then Enter(s, c, t, n)
      else AttemptFails(s, k, n, o)
    case InBackend(n) => if o.succeeds then Succeed(s, t, o.output) else AttemptFails(s, k, n, o)
    case Recording(e) => Terminate(s, t, Failed(e))
    case Completing(v) => Terminate(s, t, Completed(Live(v)))
    case SavingTerminal => Finish(s, t, o.saves)
    case Returned => Goto(s, Returned)
    case Raised => Goto(s, Raised)
  }

  function Apply(s: State, a: Action): State {
    match a
    case Run(c, t, max, idempotent) =>
      if c in s.past.used then s
      else s.(calls := s.calls[c := Call(t, max, idempotent, Lookup)], past := s.past.(used := s.past.used + {c}))
    case Advance(c, o) => if c in s.calls then Commit(s, c, CallStep(s, c, s.calls[c], o)) else s
    case Cancel(t) => if t in s.mem && !s.mem[t].Terminal() then s.(mem := s.mem[t := Cancelled]) else s
    case Persist(ok) => s.(disk := Saved(s, ok))
    case Crash => s.(mem := Recover(s.disk), calls := map[])
  }

  function RunAll(s: State, acts: seq<Action>): State
    decreases |acts|
  {
    if acts == [] then s else Apply(RunAll(s, acts[..|acts| - 1]), acts[|acts| - 1])
  }

  // ----- the invariant --------------------------------------------------------------

  ghost predicate Settled(m: Records, t: Id) { t in m && !m[t].Pending? }

  ghost predicate Durable(mem: Records, disk: Option<Records>, t: Id) {
    Settled(mem, t) && disk.Some? && Settled(disk.value, t)
  }

  /** Every entered id is known, in memory and durably, in a state past pending. */
  ghost predicate WriteAhead(mem: Records, disk: Option<Records>, past: History) {
    forall t :: t in past.entries ==> Durable(mem, disk, t)
  }

  /** Nothing is recorded as completed but with what the backend returned for it. */
  ghost predicate Truthful(m: Records, past: History) {
    forall t :: t in m && m[t].Completed? ==> (t, m[t].result.output) in past.yielded
  }

  /** Whatever a call acknowledged is completed, with that output. */
  ghost predicate Honours(m: Records, past: History) {
    forall a :: a in past.acknowledged ==> a.0 in m && m[a.0].Completed? && m[a.0].result.output == a.1
  }

  /** The entries of an id belong to the call that created its record, within its attempts. */
  ghost predicate Budgeted(past: History) {
    && (forall t :: t in past.entrants ==> t in past.entries)
    && forall t :: t in past.entries ==>
         && t in past.creators && t in past.entrants
         && past.entrants[t] <= {past.creators[t].0}
         && past.entries[t] <= past.creators[t].1
  }

  predicate Owns(pc: Pc) { !pc.Lookup? && !pc.Creating? && !pc.Returned? && !pc.Raised? }

  predicate BeforeEntry(pc: Pc) { pc.SavingPending? || pc.Starting? || pc.SavingRunning? || pc == Attempting(1) }

  /** What a call with this counter may rely on. */
  ghost predicate CallInv(c: CallId, k: Call, mem: Records, disk: Option<Records>, past: History) {
    var t, pc := k.task, k.pc;
    && (Owns(pc) ==> t in mem && t in past.creators && past.creators[t] == (c, k.maxAttempts))
    && (BeforeEntry(pc) ==> t !in past.entries)
    && (pc.SavingRunning? ==> Settled(mem, t))
    && (pc.Attempting? || pc.InBackend? ==> Durable(mem, disk, t))
    && (pc.Attempting? ==> Entries(past, t) < pc.n)
    && (pc.InBackend? ==> 1 <= pc.n && Entries(past, t) <= pc.n <= k.maxAttempts)
    && (pc.Completing? ==> (t, pc.output) in past.yielded)
  }

  ghost predicate StoresInv(mem: Records, disk: Option<Records>, past: History) {
    && WriteAhead(mem, disk, past) && Budgeted(past)
    && Truthful(mem, past) && Honours(mem, past)
    && (disk.Some? ==> Truthful(disk.value, past) && Honours(disk.value, past))
    && (disk.None? ==> past.acknowledged == {})
  }

  ghost predicate Inv(s: State) {
    && StoresInv(s.mem, s.disk, s.past)
    && s.calls.Keys <= s.past.used
    && forall c :: c in s.calls ==> CallInv(c, s.calls[c], s.mem, s.disk, s.past)
  }

  /** Records are never lost or made pending again, creators of kept records never change, and
      only t's entries may. */
  ghost predicate Steady(s: State, e: Effect, t: Id) {
    && e.past.used == s.past.used
    && (forall u :: u in s.mem ==> u in e.mem && (u in s.past.creators ==>
          u in e.past.creators && e.past.creators[u] == s.past.creators[u]))
    && (forall u :: Settled(s.mem, u) ==> Settled(e.mem, u))
    && (s.disk.Some? ==> e.disk.Some?)
    && (forall u :: Durable(s.mem, s.disk, u) ==> Durable(e.mem, e.disk, u))
    && (forall u :: u != t ==>
          Entries(e.past, u) == Entries(s.past, u) && (u in e.past.entries <==> u in s.past.entries))
    && s.past.yielded <= e.past.yielded
  }

  lemma OtherCallsUnaffected(s: State, c: CallId, e: Effect, d: CallId)
    requires Inv(s) && c in s.calls && d in s.calls && d != c && Steady(s, e, s.calls[c].task)
    requires Owns(s.calls[c].pc) || e.past.entries == s.past.entries
    ensures CallInv(d, s.calls[d], e.mem, e.disk, e.past)
  {
    var k := s.calls[d];
    assert CallInv(c, s.calls[c], s.mem, s.disk, s.past);
    assert CallInv(d, k, s.mem, s.disk, s.past);
    if Owns(k.pc) && Owns(s.calls[c].pc) { assert k.task != s.calls[c].task; }
  }

  /** An effect call c may commit. */
  ghost predicate Safe(s: State, c: CallId, e: Effect)
    requires c in s.calls
  {
    && Steady(s, e, s.calls[c].task)
    && (Owns(s.calls[c].pc) || e.past.entries == s.past.entries)
    && StoresInv(e.mem, e.disk, e.past)
    && CallInv(c, s.calls[c].(pc := e.pc), e.mem, e.disk, e.past)
  }

  lemma CommitKeepsInv(s: State, c: CallId, e: Effect)
    requires Inv(s) && c in s.calls && Safe(s, c, e)
    ensures Inv(Commit(s, c, e))
  {
    forall d | d in Commit(s, c, e).calls && d != c
      ensures CallInv(d, Commit(s, c, e).calls[d], e.mem, e.disk, e.past)
    {
      OtherCallsUnaffected(s, c, e, d);
    }
  }

  // ----- each kind of effect ----------------------------------------------------------

  /** Saving copies memory to disk, so nothing durable is lost. */
  lemma SaveIsSafe(s: State, ok: bool)
    requires Inv(s)
    ensures StoresInv(s.mem, Saved(s, ok), s.past)
    ensures forall u :: Durable(s.mem, s.disk, u) ==> Durable(s.mem, Saved(s, ok), u)
    ensures ok ==> forall u :: Settled(s.mem, u) ==> Durable(s.mem, Saved(s, ok), u)
  {
    var f := Flatten(s.mem);
    assert forall u :: u in f <==> u in s.mem;
    assert forall u :: u in f ==> f[u] == Flat(s.mem[u]);
  }

  /** Moving a live record on: to running, or to a terminal state the history bears out. */
  lemma RewriteIsSafe(s: State, t: Id, status: Record, next: Pc)
    requires Inv(s) && t in s.mem && !s.mem[t].Terminal() && !status.Pending?
    requires status.Completed? ==> (t, status.result.output) in s.past.yielded
    ensures var e := Rewrite(s, t, status, next);
            StoresInv(e.mem, e.disk, e.past) && Steady(s, e, t) && Settled(e.mem, t)
  {
    var e := Rewrite(s, t, status, next);
    assert forall u :: Durable(s.mem, s.disk, u) ==> Durable(e.mem, e.disk, u);
    assert forall a :: a in s.past.acknowledged ==> a.0 != t;
  }

  lemma CreateIsSafe(s: State, c: CallId, k: Call)
    requires Inv(s) && k.task !in s.mem
    ensures var e := Create(s, c, k);
            StoresInv(e.mem, e.disk, e.past) && Steady(s, e, k.task) && k.task !in e.past.entries
  {
    var e := Create(s, c, k);
    assert forall u :: u in s.past.entries ==> Durable(s.mem, s.disk, u);
    assert k.task !in s.past.entries;
    assert forall u :: Durable(s.mem, s.disk, u) ==> Durable(e.mem, e.disk, u);
  }

  lemma GotoIsSafe(s: State, c: CallId, pc: Pc)
    requires Inv(s) && c in s.calls && CallInv(c, s.calls[c].(pc := pc), s.mem, s.disk, s.past)
    ensures Safe(s, c, Goto(s, pc))
  {
  }

  lemma EnterIsSafe(s: State, c: CallId, n: nat)
    requires Inv(s) && c in s.calls && s.calls[c].pc == Attempting(n) && n <= s.calls[c].maxAttempts
    ensures Safe(s, c, Enter(s, c, s.calls[c].task, n))
  {
    assert CallInv(c, s.calls[c], s.mem, s.disk, s.past);
  }

  lemma SavingIsSafe(s: State, c: CallId, o: Oracle)
    requires Inv(s) && c in s.calls
    requires s.calls[c].pc.SavingPending? || s.calls[c].pc.SavingRunning? || s.calls[c].pc.SavingTerminal?
    ensures Safe(s, c, CallStep(s, c, s.calls[c], o))
  {
    assert CallInv(c, s.calls[c], s.mem, s.disk, s.past);
    SaveIsSafe(s, o.saves);
    SaveIsSafe(s, true);
  }

  lemma WritingIsSafe(s: State, c: CallId, o: Oracle)
    requires Inv(s) && c in s.calls
    requires s.calls[c].pc.Starting? || s.calls[c].pc.Recording? || s.calls[c].pc.Completing?
    ensures Safe(s, c, CallStep(s, c, s.calls[c], o))
  {
    var k := s.calls[c];
    var e := CallStep(s, c, k, o);
    assert CallInv(c, k, s.mem, s.disk, s.past);
    GotoIsSafe(s, c, Raised);
    if k.task in s.mem && !s.mem[k.task].Terminal() && e.mem != s.mem {
      RewriteIsSafe(s, k.task, e.mem[k.task], e.pc);
    }
  }

  lemma AttemptingIsSafe(s: State, c: CallId, o: Oracle)
    requires Inv(s) && c in s.calls && s.calls[c].pc.Attempting?
    ensures Safe(s, c, CallStep(s, c, s.calls[c], o))
  {
    var k := s.calls[c];
    assert CallInv(c, k, s.mem, s.disk, s.past);
    if o.selects && k.pc.n <= k.maxAttempts { EnterIsSafe(s, c, k.pc.n); }
    else { GotoIsSafe(s, c, CallStep(s, c, k, o).pc); }
  }

  lemma LeavingBackendIsSafe(s: State, c: CallId, o: Oracle)
    requires Inv(s) && c in s.calls && s.calls[c].pc.InBackend?
    ensures Safe(s, c, CallStep(s, c, s.calls[c], o))
  {
    var k := s.calls[c];
    assert CallInv(c, k, s.mem, s.disk, s.past);
    if !o.succeeds { GotoIsSafe(s, c, CallStep(s, c, k, o).pc); }
  }

  lemma LookingUpIsSafe(s: State, c: CallId, o: Oracle)
    requires Inv(s) && c in s.calls
    requires s.calls[c].pc.Lookup? || s.calls[c].pc.Creating? || s.calls[c].pc.Returned? || s.calls[c].pc.Raised?
    ensures Safe(s, c, CallStep(s, c, s.calls[c], o))
  {
    var k := s.calls[c];
    if k.pc.Creating? && k.task !in s.mem {
      CreateIsSafe(s, c, k);
    } else {
      GotoIsSafe(s, c, CallStep(s, c, k, o).pc);
    }
  }

  lemma StepKeepsInv(s: State, c: CallId, o: Oracle)
    requires Inv(s) && c in s.calls
    ensures Inv(Commit(s, c, CallStep(s, c, s.calls[c], o)))
  {
    match s.calls[c].pc {
      case SavingPending => SavingIsSafe(s, c, o);
      case SavingRunning => SavingIsSafe(s, c, o);
      case SavingTerminal => SavingIsSafe(s, c, o);
      case Starting => WritingIsSafe(s, c, o);
      case Recording(_) => WritingIsSafe(s, c, o);
      case Completing(_) => WritingIsSafe(s, c, o);
      case Attempting(_) => AttemptingIsSafe(s, c, o);
      case InBackend(_) => LeavingBackendIsSafe(s, c, o);
      case _ => LookingUpIsSafe(s, c, o);
    }
    CommitKeepsInv(s, c, CallStep(s, c, s.calls[c], o));
  }

  /** A record rewritten by someone other than a call. */
  lemma CancelKeepsInv(s: State, t: Id)
    requires Inv(s) && t in s.mem && !s.mem[t].Terminal()
    ensures Inv(s.(mem := s.mem[t := Cancelled]))
  {
    RewriteIsSafe(s, t, Cancelled, Raised);
    forall c | c in s.calls ensures CallInv(c, s.calls[c], s.mem[t := Cancelled], s.disk, s.past) {
      assert CallInv(c, s.calls[c], s.mem, s.disk, s.past);
    }
  }

  lemma PersistKeepsInv(s: State, ok: bool)
    requires Inv(s)
    ensures Inv(s.(disk := Saved(s, ok)))
  {
    SaveIsSafe(s, ok);
    forall c | c in s.calls ensures CallInv(c, s.calls[c], s.mem, Saved(s, ok), s.past) {
      assert CallInv(c, s.calls[c], s.mem, s.disk, s.past);
    }
  }

  /** Recovery keeps every durable fact. */
  lemma CrashKeepsInv(s: State)
    requires Inv(s)
    ensures Inv(Apply(s, Crash))
  {
    var m := Recover(s.disk);
    if s.disk.Some? {
      assert forall t :: t in m <==> t in s.disk.value;
      assert forall t :: t in m ==> m[t] == Recovered(s.disk.value[t]);
    }
  }

  lemma {:induction false} InvHolds(acts: seq<Action>)
    ensures Inv(RunAll(FRESH, acts))
    decreases |acts|
  {
    if acts != [] {
      InvHolds(acts[..|acts| - 1]);
      var s, a := RunAll(FRESH, acts[..|acts| - 1]), acts[|acts| - 1];
      match a {
        case Advance(c, o) => if c in s.calls { StepKeepsInv(s, c, o); }
        case Cancel(t) => if t in s.mem && !s.mem[t].Terminal() { CancelKeepsInv(s, t); }
        case Persist(ok) => PersistKeepsInv(s, ok);
        case Crash => CrashKeepsInv(s);
        case Run(_, _, _, _) =>
      }
    }
  }

  // ----- crash consistency -------------------------------------------------------------

  /** After any actions, including any crashes and restarts, a crash right now recovers:
      every id whose backend was ever entered, and never as pending or running;
      as completed only what the backend returned, with that output, and everything a call
      acknowledged, with the output it answered. */
  lemma CrashConsistency(acts: seq<Action>, t: Id)
    ensures var s := RunAll(FRESH, acts);
            var recovered := Recover(s.disk);
            && (t in s.past.entries ==> t in recovered && !recovered[t].Pending?)
            && (t in recovered ==> !recovered[t].Running?)
            && (t in recovered && recovered[t].Completed? ==> (t, recovered[t].result.output) in s.past.yielded)
            && (forall v :: (t, v) in s.past.acknowledged ==>
                  t in recovered && recovered[t].Completed? && recovered[t].result.output == v)
  {
    InvHolds(acts);
  }

  /** A crash recovers exactly the ids of the durable file, each with its durable status unless that
      is running, which comes back as failed. */
  lemma RecoversTheFile(disk: Option<Records>)
    ensures Recover(disk).Keys == if disk.None? then {} else disk.value.Keys
    ensures forall t :: t in Recover(disk) ==>
              Recover(disk)[t] ==
              if disk.value[t].Running? then Failed("task interrupted by runtime restart") else disk.value[t]
  {
  }

  /** After any actions, a save that succeeds and a crash bring back every record there was, with
      its status, output and error; only a running one comes back as failed. */
  lemma SavedComesBack(acts: seq<Action>)
    ensures var before, after := RunAll(FRESH, acts).mem, RunAll(FRESH, acts + [Persist(true), Crash]).mem;
            && after.Keys == before.Keys
            && forall t :: t in before ==>
                 match before[t]
                 case Pending => after[t] == Pending
                 case Running => after[t] == Failed("task interrupted by runtime restart")
                 case Completed(x) => after[t] == Completed(Reloaded(x.output))
                 case Failed(e) => after[t] == Failed(e)
                 case Cancelled => after[t] == Cancelled
  {
    assert (acts + [Persist(true), Crash])[..|acts| + 1] == acts + [Persist(true)];
    assert (acts + [Persist(true)])[..|acts|] == acts;
  }

  /** Across all restarts at most one `run` call ever enters the backend for an id, and at most
      as often as its attempt limit allows. */
  lemma AtMostOneCallEnters(acts: seq<Action>, t: Id)
    ensures var s := RunAll(FRESH, acts);
            && |Entrants(s.past, t)| <= 1
            && (t in s.past.entries ==>
                  && t in s.past.creators && s.past.creators[t].0 in s.past.used
                  && s.past.entries[t] <= s.past.creators[t].1)
  {
    InvHolds(acts);
    CreatorsAreUsed(acts);
    var past := RunAll(FRESH, acts).past;
    if t in past.entrants {
      SubsetIsSmaller(past.entrants[t], {past.creators[t].0});
    }
  }

  lemma {:induction false} CreatorsAreUsed(acts: seq<Action>)
    ensures var s := RunAll(FRESH, acts);
            s.calls.Keys <= s.past.used && forall t :: t in s.past.creators ==> s.past.creators[t].0 in s.past.used
    decreases |acts|
  {
    if acts != [] {
      CreatorsAreUsed(acts[..|acts| - 1]);
      var s, a := RunAll(FRESH, acts[..|acts| - 1]), acts[|acts| - 1];
      if a.Advance? && a.call in s.calls { StepFootprint(s, a.call, s.calls[a.call], a.oracle); }
    }
  }

  /** The only things a step can do to the durable file and to the record of creators. */
  lemma StepFootprint(s: State, c: CallId, k: Call, o: Oracle)
    ensures var e := CallStep(s, c, k, o);
            && (e.disk == s.disk || e.disk == Some(Flatten(s.mem)))
            && e.past.used == s.past.used
            && (e.past.creators == s.past.creators
                || e.past.creators == s.past.creators[k.task := (c, k.maxAttempts)])
  {
  }

  /** What is recovered from the file a recovered runtime would write is the same again. */
  lemma RecoveryIsStable(acts: seq<Action>)
    ensures Recover(RunAll(FRESH, acts + [Crash, Persist(true)]).disk) == Recover(RunAll(FRESH, acts).disk)
  {
    assert (acts + [Crash, Persist(true)])[..|acts| + 1] == acts + [Crash];
    assert (acts + [Crash])[..|acts|] == acts;
    DiskIsFlat(acts);
    var m := Recover(RunAll(FRESH, acts).disk);
    forall t | t in m ensures t in Flatten(m) && Recovered(Flatten(m)[t]) == m[t] {
      assert RunAll(FRESH, acts).disk.Some? && t in RunAll(FRESH, acts).disk.value;
    }
    assert RecoverAll(Flatten(m)) == m;
  }

  lemma FlatTwice(m: Records)
    ensures forall t :: t in Flatten(m) ==> Flat(Flatten(m)[t]) == Flatten(m)[t]
  {
  }

  lemma {:induction false} DiskIsFlat(acts: seq<Action>)
    ensures var d := RunAll(FRESH, acts).disk; d.Some? ==> forall t :: t in d.value ==> Flat(d.value[t]) == d.value[t]
    decreases |acts|
  {
    if acts != [] {
      DiskIsFlat(acts[..|acts| - 1]);
      var s, a := RunAll(FRESH, acts[..|acts| - 1]), acts[|acts| - 1];
      FlatTwice(s.mem);
      if a.Advance? && a.call in s.calls { StepFootprint(s, a.call, s.calls[a.call], a.oracle); }
    }
  }

  // ----- reached states --------------------------------------------------------------------

  /** Some sequence of actions leads from the fresh state to s. */
  ghost predicate Reached(s: State) {
    exists acts: seq<Action> :: s == RunAll(FRESH, acts)
  }

  lemma FreshIsReached()
    ensures Reached(FRESH)
  {
    assert FRESH == RunAll(FRESH, []);
  }

  lemma ReachedStep(s: State, a: Action)
    requires Reached(s)
    ensures Reached(Apply(s, a))
  {
    var acts: seq<Action> :| s == RunAll(FRESH, acts);
    assert (acts + [a])[..|acts|] == acts;
    assert Apply(s, a) == RunAll(FRESH, acts + [a]);
  }

  /** Everything proved of action sequences, of a reached state. */
  lemma ReachedIsConsistent(s: State, t: Id)
    requires Reached(s)
    ensures Inv(s)
    ensures var recovered := Recover(s.disk);
            && (t in s.past.entries ==> t in recovered && !recovered[t].Pending?)
            && (t in recovered ==> !recovered[t].Running?)
            && (t in recovered && recovered[t].Completed? ==> (t, recovered[t].result.output) in s.past.yielded)
            && (forall v :: (t, v) in s.past.acknowledged ==>
                  t in recovered && recovered[t].Completed? && recovered[t].result.output == v)
            && |Entrants(s.past, t)| <= 1
  {
    var acts: seq<Action> :| s == RunAll(FRESH, acts);
    InvHolds(acts);
    CrashConsistency(acts, t);
    AtMostOneCallEnters(acts, t);
  }

  // ----- the runtime object ----------------------------------------------------------------

  datatype Attempt = Unselectable(error: string) | Fails(error: string) | Yields(output: string)

  datatype Answer = Result(output: string) | Exception

  lemma Overwritten(m: Records, t: Id, x: Record, y: Record)
    ensures m[t := x][t := y] == m[t := y]
  {
  }

  /** The attempt that decides, from the n-th on: the first that yields, else the last allowed. */
  function Deciding(script: nat -> Attempt, n: nat, maxAttempts: nat): Attempt
    decreases maxAttempts - n
  {
    if script(n).Yields? || n >= maxAttempts then script(n) else Deciding(script, n + 1, maxAttempts)
  }

  /** The record it leaves: an error without text is refused, so the task stays running. */
  function Settlement(a: Attempt): Record {
    if a.Yields? then Completed(Live(a.output)) else if Strip(a.error) == [] then Running else Failed(a.error)
  }

  /** The record a new call leaves, for every pattern of failing saves. */
  function RecordLeft(script: nat -> Attempt, maxAttempts: nat, saves: nat -> bool): Record {
    if !saves(0) then Pending else if !saves(1) then Running else Settlement(Deciding(script, 1, maxAttempts))
  }

  /** The durable file it leaves: the last save that succeeded. */
  function FileLeft(
    mem: Records, disk: Option<Records>, t: Id, script: nat -> Attempt, maxAttempts: nat, saves: nat -> bool)
    : Option<Records>
  {
    if !saves(0) then disk
    else if !saves(1) then Some(Flatten(mem[t := Pending]))
    else
      var last := Settlement(Deciding(script, 1, maxAttempts));
      Some(Flatten(mem[t := if saves(2) && !last.Running? then last else Running]))
  }

  /** What it answers: a result only once its record was saved. */
  function AnswerLeft(script: nat -> Attempt, maxAttempts: nat, saves: nat -> bool): Answer {
    var a := Deciding(script, 1, maxAttempts);
    if saves(0) && saves(1) && saves(2) && a.Yields? then Result(a.output) else Exception
  }

  /** The n-th attempt is the first that yields. */
  ghost predicate FirstYield(script: nat -> Attempt, n: nat) {
    n >= 1 && script(n).Yields? && forall k :: 1 <= k < n ==> !script(k).Yields?
  }

  ghost predicate NoneYields(script: nat -> Attempt, maxAttempts: nat) {
    forall k :: 1 <= k <= maxAttempts ==> !script(k).Yields?
  }

  lemma {:induction false} DecidingFrom(script: nat -> Attempt, n: nat, maxAttempts: nat)
    requires 1 <= n <= maxAttempts && forall k :: 1 <= k < n ==> !script(k).Yields?
    ensures forall k: nat :: FirstYield(script, k) && k <= maxAttempts ==> Deciding(script, n, maxAttempts) == script(k)
    ensures NoneYields(script, maxAttempts) ==> Deciding(script, n, maxAttempts) == script(maxAttempts)
    decreases maxAttempts - n
  {
    if script(n).Yields? {
      assert FirstYield(script, n);
    } else if n < maxAttempts {
      DecidingFrom(script, n + 1, maxAttempts);
    }
  }

  /** With working saves, what a new call leaves: the output of the first attempt that yields,
      recorded, saved and answered, or else the error of the last attempt, recorded and saved. */
  lemma NewCallLeaves(
    mem: Records, disk: Option<Records>, t: Id, script: nat -> Attempt, maxAttempts: nat, saves: nat -> bool, n: nat)
    requires saves(0) && saves(1) && maxAttempts >= 1
    ensures FirstYield(script, n) && n <= maxAttempts ==>
              && RecordLeft(script, maxAttempts, saves) == Completed(Live(script(n).output))
              && AnswerLeft(script, maxAttempts, saves) == (if saves(2) then Result(script(n).output) else Exception)
              && FileLeft(mem, disk, t, script, maxAttempts, saves).Some?
              && FileLeft(mem, disk, t, script, maxAttempts, saves).value.Keys == mem.Keys + {t}
              && FileLeft(mem, disk, t, script, maxAttempts, saves).value[t]
                 == (if saves(2) then Completed(Reloaded(script(n).output)) else Running)
    ensures NoneYields(script, maxAttempts) ==>
              && AnswerLeft(script, maxAttempts, saves) == Exception
              && RecordLeft(script, maxAttempts, saves)
                 == if Strip(script(maxAttempts).error) == [] then Running else Failed(script(maxAttempts).error)
  {
    DecidingFrom(script, 1, maxAttempts);
  }

  /** The runtime and its store, updated in place. Memory and store always equal those of a state
      the step system reaches, at every intermediate point, so everything proved above holds at
      each crash point of the object. */
  class ComputeRuntime {
    var completions: Records
    var store: Option<Records>
    ghost var model: State

    ghost predicate Valid() reads this {
      Reached(model) && model.mem == completions && model.disk == store
    }

    /** A new process: loads whatever a crashed one left in the store. */
    constructor Load(ghost crashed: State, store: Option<Records>)
      requires Reached(crashed) && crashed.disk == store
      ensures Valid() && this.store == store && completions == Recover(store)
      ensures completions.Keys == if store.None? then {} else store.value.Keys
      ensures forall t :: t in completions ==>
                completions[t] ==
                if store.value[t].Running? then Failed("task interrupted by runtime restart") else store.value[t]
    {
      this.store, this.completions := store, Recover(store);
      this.model := Apply(crashed, Crash);
      new;
      ReachedStep(crashed, Crash);
    }

    ghost method Note(a: Action)
      requires Reached(model)
      modifies this`model
      ensures Reached(model) && model == Apply(old(model), a)
    {
      ReachedStep(model, a);
      model := Apply(model, a);
    }

    /** One step of call c, of which only the counter, memory and store matter here. */
    ghost method Tick(c: CallId, k: Call, pc: Pc, o: Oracle, next: Pc, mem: Records, disk: Option<Records>)
      requires Reached(model) && c in model.calls && model.calls[c] == k.(pc := pc)
      requires var e := CallStep(model, c, k.(pc := pc), o); e.pc == next && e.mem == mem && e.disk == disk
      modifies this`model
      ensures Reached(model)
      ensures c in model.calls && model.calls[c] == k.(pc := next) && model.mem == mem && model.disk == disk
    {
      Note(Advance(c, o));
    }

    method Save(ok: bool)
      modifies this`store
      ensures store == if ok then Some(Flatten(completions)) else old(store)
    {
      if ok { store := Some(Flatten(completions)); }
    }

    method Cancel(t: Id, ok: bool) returns (cancelled: bool)
      requires Valid()
      modifies this
      ensures Valid()
      ensures cancelled <==> t in old(completions) && !old(completions)[t].Terminal()
      ensures completions == if cancelled then old(completions)[t := Cancelled] else old(completions)
      ensures store == if cancelled && ok then Some(Flatten(completions)) else old(store)
    {
      if t !in completions || completions[t].Terminal() { return false; }
      completions := completions[t := Cancelled];
      Note(Action.Cancel(t));
      Save(ok);
      Note(Persist(ok));
      return true;
    }

    /** This call is in progress with counter pc, and the object mirrors the model. */
    ghost predicate At(c: CallId, k: Call, pc: Pc) reads this {
      Valid() && c in model.calls && model.calls[c] == k.(pc := pc)
    }

    /** `script` is what each attempt meets, `saves` whether each save succeeds. */
    method Run(ghost c: CallId, t: Id, maxAttempts: nat, idempotent: bool, script: nat -> Attempt, saves: nat -> bool)
      returns (r: Answer)
      requires Valid() && maxAttempts >= 1 && c !in model.past.used && c !in model.calls
      modifies this
      ensures Valid()
      ensures t in old(completions) ==>
                && completions == old(completions) && store == old(store)
                && (if idempotent && old(completions)[t].Completed? && old(completions)[t].result.Live?
                    then r == Result(old(completions)[t].result.output) else r == Exception)
      ensures t !in old(completions) ==>
                && completions == old(completions)[t := RecordLeft(script, maxAttempts, saves)]
                && store == FileLeft(old(completions), old(store), t, script, maxAttempts, saves)
                && r == AnswerLeft(script, maxAttempts, saves)
    {
      ghost var k := Call(t, maxAttempts, idempotent, Lookup);
      Note(Action.Run(c, t, maxAttempts, idempotent));
      if t in completions {
        r := AnswerKnown(c, k, t, idempotent);
      } else {
        r := RunNew(c, k, t, maxAttempts, script, saves);
      }
    }

    /** A call for an id without a record. */
    method RunNew(ghost c: CallId, ghost k: Call, t: Id, maxAttempts: nat, script: nat -> Attempt, saves: nat -> bool)
      returns (r: Answer)
      requires At(c, k, Lookup) && k.task == t && k.maxAttempts == maxAttempts >= 1 && t !in completions
      modifies this
      ensures Valid()
      ensures completions == old(completions)[t := RecordLeft(script, maxAttempts, saves)]
      ensures store == FileLeft(old(completions), old(store), t, script, maxAttempts, saves)
      ensures r == AnswerLeft(script, maxAttempts, saves)
    {
      ghost var o := Oracle(true, true, true, true, "", "");
      ghost var mem := completions;
      Tick(c, k, Lookup, o, Creating, completions, store);
      var pending := BeginPending(c, k, t, saves(0));
      if !pending { return Exception; }
      var running := BeginRunning(c, k, t, saves(1));
      Overwritten(mem, t, Pending, Running);
      if !running { return Exception; }
      r := Attempts(c, k, t, maxAttempts, script, saves(2));
      Overwritten(mem, t, Running, Settlement(Deciding(script, 1, maxAttempts)));
    }

    /** A call for an id that already has a record: nothing changes. */
    method AnswerKnown(ghost c: CallId, ghost k: Call, t: Id, idempotent: bool) returns (r: Answer)
      requires At(c, k, Lookup) && k.task == t && k.idempotent == idempotent && t in completions
      modifies this`model
      ensures Valid()
      ensures r == if idempotent && completions[t].Completed? && completions[t].result.Live?
                   then Result(completions[t].result.output) else Exception
    {
      ghost var o := Oracle(true, true, true, true, "", "");
      if idempotent && completions[t].Completed? && completions[t].result.Live? {
        Tick(c, k, Lookup, o, Returned, completions, store);
        return Result(completions[t].result.output);
      }
      Tick(c, k, Lookup, o, Raised, completions, store);
      return Exception;
    }

    /** Creates the record and saves it. */
    method BeginPending(ghost c: CallId, ghost k: Call, t: Id, first: bool) returns (saved: bool)
      requires At(c, k, Creating) && k.task == t && t !in completions
      modifies this
      ensures Valid() && saved == first
      ensures saved ==> At(c, k, Starting)
      ensures completions == old(completions)[t := Pending]
      ensures store == if first then Some(Flatten(completions)) else old(store)
    {
      ghost var o := Oracle(first, true, true, true, "", "");
      completions := completions[t := Pending];
      Tick(c, k, Creating, o, SavingPending, completions, store);
      Save(first);
      Tick(c, k, SavingPending, o, if first then Starting else Raised, completions, store);
      return first;
    }

    /** Starts the record and saves it. */
    method BeginRunning(ghost c: CallId, ghost k: Call, t: Id, second: bool) returns (saved: bool)
      requires At(c, k, Starting) && k.task == t && t in completions && completions[t].Pending?
      modifies this
      ensures Valid() && saved == second
      ensures saved ==> At(c, k, Attempting(1)) && store == Some(Flatten(completions))
      ensures completions == old(completions)[t := Running]
      ensures store == if second then Some(Flatten(completions)) else old(store)
    {
      ghost var o := Oracle(second, true, true, true, "", "");
      completions := completions[t := Running];
      Tick(c, k, Starting, o, SavingRunning, completions, store);
      Save(second);
      Tick(c, k, SavingRunning, o, if second then Attempting(1) else Raised, completions, store);
      return second;
    }

    /** The attempt loop with its terminal record and save. */
    method Attempts(ghost c: CallId, ghost k: Call, t: Id, maxAttempts: nat, script: nat -> Attempt, saves: bool)
      returns (r: Answer)
      requires At(c, k, Attempting(1)) && k.task == t && k.maxAttempts == maxAttempts >= 1
      requires t in completions && completions[t].Running?
      modifies this
      ensures Valid()
      ensures completions == old(completions)[t := Settlement(Deciding(script, 1, maxAttempts))]
      ensures r == if saves && Deciding(script, 1, maxAttempts).Yields?
                   then Result(Deciding(script, 1, maxAttempts).output) else Exception
      ensures store == if saves && !completions[t].Running? then Some(Flatten(completions)) else old(store)
    {
      var n := 1;
      while true
        invariant At(c, k, Attempting(n)) && n <= maxAttempts
        invariant completions == old(completions) && store == old(store)
        invariant Deciding(script, n, maxAttempts) == Deciding(script, 1, maxAttempts)
        decreases maxAttempts - n
      {
        var attempt := script(n);
        if attempt.Yields? {
          r := AttemptSucceeds(c, k, t, n, attempt.output, saves);
          return;
        }
        AttemptRaises(c, k, n, attempt);
        if n == maxAttempts {
          r := LastAttemptFailed(c, k, t, attempt.error, saves);
          return;
        }
        n := n + 1;
      }
    }

    /** The attempt that yields. */
    method AttemptSucceeds(ghost c: CallId, ghost k: Call, t: Id, ghost n: nat, output: string, saves: bool)
      returns (r: Answer)
      requires At(c, k, Attempting(n)) && n <= k.maxAttempts && k.task == t
      requires t in completions && completions[t].Running?
      modifies this
      ensures Valid()
      ensures completions == old(completions)[t := Completed(Live(output))]
      ensures store == if saves then Some(Flatten(completions)) else old(store)
      ensures r == if saves then Result(output) else Exception
    {
      ghost var o := Oracle(true, true, true, true, output, "");
      Tick(c, k, Attempting(n), o, InBackend(n), completions, store);
      Tick(c, k, InBackend(n), o, Completing(output), completions, store);
      r := Conclude(c, k, t, Completed(Live(output)), Completing(output), saves);
    }

    /** After the last attempt allowed: an error without text is refused, so the task stays running. */
    method LastAttemptFailed(ghost c: CallId, ghost k: Call, t: Id, error: string, saves: bool) returns (r: Answer)
      requires At(c, k, Recording(error)) && k.task == t && t in completions && completions[t].Running?
      modifies this
      ensures Valid() && r == Exception
      ensures completions == old(completions)[t := if Strip(error) == [] then Running else Failed(error)]
      ensures store == if saves && Strip(error) != [] then Some(Flatten(completions)) else old(store)
    {
      if Strip(error) == [] {
        ghost var o := Oracle(true, true, true, true, "", "");
        Tick(c, k, Recording(error), o, Raised, completions, store);
        return Exception;
      }
      r := Conclude(c, k, t, Failed(error), Recording(error), saves);
    }

    /** An attempt that raises, before or inside the backend. */
    ghost method AttemptRaises(c: CallId, k: Call, n: nat, attempt: Attempt)
      requires At(c, k, Attempting(n)) && n <= k.maxAttempts && !attempt.Yields?
      modifies this`model
      ensures At(c, k, if n < k.maxAttempts then Attempting(n + 1) else Recording(attempt.error))
    {
      var o := Oracle(true, attempt.Fails?, false, true, "", attempt.error);
      var next := if n < k.maxAttempts then Attempting(n + 1) else Recording(attempt.error);
      if attempt.Fails? {
        Tick(c, k, Attempting(n), o, InBackend(n), completions, store);
        Tick(c, k, InBackend(n), o, next, completions, store);
      } else {
        Tick(c, k, Attempting(n), o, next, completions, store);
      }
    }

    /** Writes the terminal record and saves it. */
    method Conclude(ghost c: CallId, ghost k: Call, t: Id, status: Record, ghost pc: Pc, saves: bool)
      returns (r: Answer)
      requires At(c, k, pc) && k.task == t && t in completions && completions[t].Running? && Admissible(status)
      requires (status.Completed? && status.result.Live? && pc == Completing(status.result.output))
            || (status.Failed? && pc == Recording(status.error))
      modifies this
      ensures Valid()
      ensures completions == old(completions)[t := status]
      ensures store == if saves then Some(Flatten(completions)) else old(store)
      ensures r == if saves && status.Completed? then Result(status.result.output) else Exception
    {
      ghost var o := Oracle(saves, true, true, true, "", "");
      completions := completions[t := status];
      Tick(c, k, pc, o, SavingTerminal, completions, store);
      Save(saves);
      Tick(c, k, SavingTerminal, o, if saves && status.Completed? then Returned else Raised, completions, store);
      return if saves && status.Completed? then Result(status.result.output) else Exception;
    }
  }
}
