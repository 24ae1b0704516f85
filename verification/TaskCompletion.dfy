/** The completion record of compute tasks (nexus/compute/task_completion.py):
    a status machine with timestamps, counts, retention and export/restore. */
module TaskCompletion {
  import opened Basics

  datatype StatusOf<+R, +E> =
    | Pending
    | Running
    | Completed(result: R)
    | Failed(error: E)
    | Cancelled
  {
    predicate Terminal() { Completed? || Failed? || Cancelled? }
    function Rank(): nat { if Pending? then 0 else if Running? then 1 else 2 }
  }

  type Status<+R> = StatusOf<R, string>

  /** `_items`, `_started_at` and `_finished_at`. */
  datatype Records<+R> = Records(items: map<Id, Status<R>>, started: map<Id, real>, finished: map<Id, real>)

  datatype Refusal = BlankTask | Exists | Unknown | CannotStart | AlreadyTerminal | BlankError | NegativeAge

  datatype Op<+R> =
    | Create(task: Id)
    | Start(task: Id, at: real)
    | Complete(task: Id, result: R, at: real)
    | Fail(task: Id, error: string, at: real)
    | Cancel(task: Id, at: real)
    | Cleanup(maxAge: real, at: real)

  function NoRecords<R>(): Records<R> { Records(map[], map[], map[]) }

  function Finish<R>(r: Records<R>, t: Id, s: Status<R>, at: real): (Records<R>, Option<Refusal>) {
    if t !in r.items then (r, Some(Unknown))
    else if r.items[t].Terminal() then (r, Some(AlreadyTerminal))
    else if s.Failed? && Strip(s.error) == [] then (r, Some(BlankError))
    else (r.(items := r.items[t := s], finished := r.finished[t := at]), None)
  }

  function Expired<R>(r: Records<R>, maxAge: real, at: real): set<Id> {
    set t | t in r.finished && at - r.finished[t] >= maxAge
  }

  /** One locked operation of the registry. */
  function Step<R>(r: Records<R>, op: Op<R>): (Records<R>, Option<Refusal>) {
    match op
    case Create(t) =>
      if t == [] then (r, Some(BlankTask))
      else if t in r.items then (r, Some(Exists))
      else (r.(items := r.items[t := Pending]), None)
    case Start(t, at) =>
      if t !in r.items then (r, Some(Unknown))
      else if !r.items[t].Pending? then (r, Some(CannotStart))
      else (r.(items := r.items[t := Running], started := r.started[t := at]), None)
    case Complete(t, v, at) => Finish(r, t, Completed(v), at)
    case Fail(t, e, at) => Finish(r, t, Failed(e), at)
    case Cancel(t, at) => Finish(r, t, Cancelled, at)
    case Cleanup(age, at) =>
      if age < 0.0 then (r, Some(NegativeAge))
      else
        var gone := Expired(r, age, at);
        (Records(r.items - gone, r.started - gone, r.finished - gone), None)
  }

  function After<R>(r: Records<R>, ops: seq<Op<R>>): Records<R>
    decreases |ops|
  {
    if ops == [] then r else After(Step(r, ops[0]).0, ops[1..])
  }

  /** Finish times exist exactly for terminal records, start times for every running one. */
  ghost predicate Timed<R>(r: Records<R>) {
    && r.finished.Keys == (set t | t in r.items && r.items[t].Terminal())
    && r.started.Keys <= r.items.Keys
    && forall t :: t in r.items && r.items[t].Running? ==> t in r.started
  }

  lemma {:induction false} RunsStayTimed<R>(r: Records<R>, ops: seq<Op<R>>)
    requires Timed(r)
    ensures Timed(After(r, ops))
    decreases |ops|
  {
    if ops != [] {
      StepStaysTimed(r, ops[0]);
      RunsStayTimed(Step(r, ops[0]).0, ops[1..]);
    }
  }

  lemma StepStaysTimed<R>(r: Records<R>, op: Op<R>)
    requires Timed(r)
    ensures Timed(Step(r, op).0)
  {
    var r' := Step(r, op).0;
    assert forall t :: t in r.finished <==> t in r.items && r.items[t].Terminal();
    forall t ensures t in r'.finished <==> t in r'.items && r'.items[t].Terminal() {}
  }

  /** The record of t exists before, between and after all of these operations. */
  ghost predicate Kept<R>(r: Records<R>, ops: seq<Op<R>>, t: Id)
    decreases |ops|
  {
    t in r.items && (ops == [] || Kept(Step(r, ops[0]).0, ops[1..], t))
  }

  /** A kept record goes from pending, perhaps through running, to one terminal state
      that never changes. */
  lemma {:induction false} StatusOnlyAdvances<R>(r: Records<R>, ops: seq<Op<R>>, t: Id)
    requires Kept(r, ops, t)
    ensures t in After(r, ops).items
    ensures r.items[t].Rank() <= After(r, ops).items[t].Rank()
    ensures r.items[t].Terminal() ==> After(r, ops).items[t] == r.items[t]
    decreases |ops|
  {
    if ops != [] { StatusOnlyAdvances(Step(r, ops[0]).0, ops[1..], t); }
  }

  /** A record never appears in any state but pending, and never disappears unless terminal. */
  lemma RecordsAppearPendingAndLeaveTerminal<R>(r: Records<R>, op: Op<R>, t: Id)
    requires Timed(r)
    ensures t !in r.items && t in Step(r, op).0.items ==> Step(r, op).0.items[t].Pending?
    ensures t in r.items && t !in Step(r, op).0.items ==> r.items[t].Terminal()
  {
    assert t in r.finished <==> t in r.items && r.items[t].Terminal();
  }

  // ----- counting ----------------------------------------------------------------

  datatype Kind = IsPending | IsRunning | IsCompleted | IsFailed | IsCancelled

  function KindOf<R>(s: Status<R>): Kind {
    match s
    case Pending => IsPending
    case Running => IsRunning
    case Completed(_) => IsCompleted
    case Failed(_) => IsFailed
    case Cancelled => IsCancelled
  }

  /** Those of `ids` whose record is of this kind. */
  ghost function Among<R(!new)>(items: map<Id, Status<R>>, ids: set<Id>, kind: Kind): set<Id> {
    set t | t in ids && t in items && KindOf(items[t]) == kind
  }

  ghost function Having<R(!new)>(items: map<Id, Status<R>>, kind: Kind): set<Id> { Among(items, items.Keys, kind) }

  datatype Snapshot = Snapshot(pending: nat, running: nat, completed: nat, failed: nat, cancelled: nat, total: nat)

  function Bump<R>(k: Snapshot, s: Status<R>): Snapshot {
    match s
    case Pending => k.(pending := k.pending + 1)
    case Running => k.(running := k.running + 1)
    case Completed(_) => k.(completed := k.completed + 1)
    case Failed(_) => k.(failed := k.failed + 1)
    case Cancelled => k.(cancelled := k.cancelled + 1)
  }

  function Sum(k: Snapshot): nat { k.pending + k.running + k.completed + k.failed + k.cancelled }

  /** k counts the records of `ids`, kind by kind. */
  ghost predicate Counts<R(!new)>(k: Snapshot, items: map<Id, Status<R>>, ids: set<Id>) {
    && k.pending == |Among(items, ids, IsPending)|
    && k.running == |Among(items, ids, IsRunning)|
    && k.completed == |Among(items, ids, IsCompleted)|
    && k.failed == |Among(items, ids, IsFailed)|
    && k.cancelled == |Among(items, ids, IsCancelled)|
  }

  lemma OneMore<R(!new)>(items: map<Id, Status<R>>, ids: set<Id>, t: Id, kind: Kind)
    requires t in items && t !in ids
    ensures |Among(items, ids + {t}, kind)| == |Among(items, ids, kind)| + if KindOf(items[t]) == kind then 1 else 0
  {
    var before, after := Among(items, ids, kind), Among(items, ids + {t}, kind);
    if KindOf(items[t]) == kind { assert after == before + {t}; } else { assert after == before; }
  }

  /** k counts the records of `ids` out of `total`. */
  ghost predicate Counted<R(!new)>(k: Snapshot, items: map<Id, Status<R>>, ids: set<Id>, total: nat) {
    k.total == total && Sum(k) == |ids| && Counts(k, items, ids)
  }

  lemma NothingCounted<R(!new)>(items: map<Id, Status<R>>, total: nat)
    ensures Counted(Snapshot(0, 0, 0, 0, 0, total), items, {}, total)
  {
    assert forall kind :: Among(items, {}, kind) == {};
  }

  lemma CountOneMore<R(!new)>(k: Snapshot, items: map<Id, Status<R>>, ids: set<Id>, t: Id, total: nat)
    requires Counted(k, items, ids, total) && t in items && t !in ids
    ensures Counted(Bump(k, items[t]), items, ids + {t}, total)
  {
    OneMore(items, ids, t, IsPending);
    OneMore(items, ids, t, IsRunning);
    OneMore(items, ids, t, IsCompleted);
    OneMore(items, ids, t, IsFailed);
    OneMore(items, ids, t, IsCancelled);
  }

  /** All records but those still to do have been counted. */
  ghost predicate Remaining<R(!new)>(k: Snapshot, items: map<Id, Status<R>>, todo: set<Id>) {
    Counted(k, items, items.Keys - todo, |items|)
  }

  lemma NothingLeftOut<R(!new)>(items: map<Id, Status<R>>)
    ensures Remaining(Snapshot(0, 0, 0, 0, 0, |items|), items, items.Keys)
  {
    assert items.Keys - items.Keys == {};
    NothingCounted(items, |items|);
  }

  lemma RemainingOneLess<R(!new)>(k: Snapshot, items: map<Id, Status<R>>, todo: set<Id>, t: Id)
    requires Remaining(k, items, todo) && t in todo && t in items
    ensures Remaining(Bump(k, items[t]), items, todo - {t})
  {
    assert items.Keys - (todo - {t}) == items.Keys - todo + {t};
    CountOneMore(k, items, items.Keys - todo, t, |items|);
  }

  lemma NothingRemains<R(!new)>(k: Snapshot, items: map<Id, Status<R>>)
    requires Remaining(k, items, {})
    ensures Counted(k, items, items.Keys, |items|)
  {
    assert items.Keys - {} == items.Keys;
  }

  /** The counting loop of `snapshot`. */
  method CountRecords<R(!new)>(items: map<Id, Status<R>>) returns (k: Snapshot)
    ensures Counted(k, items, items.Keys, |items|)
  {
    k := Snapshot(0, 0, 0, 0, 0, |items|);
    var todo := items.Keys;
    NothingLeftOut(items);
    while todo != {}
      invariant todo <= items.Keys && Remaining(k, items, todo)
      decreases todo
    {
      var t :| t in todo;
      RemainingOneLess(k, items, todo, t);
      k := Bump(k, items[t]);
      todo := todo - {t};
    }
    NothingRemains(k, items);
  }

  /** The aggregate the observability endpoint reports. */
  datatype Observability = Observability(running: nat, longRunning: nat, maxElapsed: real)

  function Elapsed(start: real, now: real): real { if now < start then 0.0 else now - start }

  /** The loop body of `execution_observability` for one running task. */
  function Observe(o: Observability, start: real, now: real, threshold: real): Observability {
    Observability(
      o.running + 1,
      if Elapsed(start, now) > threshold then o.longRunning + 1 else o.longRunning,
      if Elapsed(start, now) > o.maxElapsed then Elapsed(start, now) else o.maxElapsed)
  }

  ghost function Slow(ids: set<Id>, started: map<Id, real>, now: real, threshold: real): set<Id> {
    set t | t in ids && t in started && Elapsed(started[t], now) > threshold
  }

  ghost function LongerThan(ids: set<Id>, started: map<Id, real>, now: real, threshold: real): set<Id> {
    set t | t in ids && t in started && now - started[t] > threshold
  }

  /** o counts the ids running longer than the threshold and holds their greatest elapsed time. */
  ghost predicate Describes(o: Observability, ids: set<Id>, started: map<Id, real>, now: real, threshold: real) {
    && ids <= started.Keys
    && o.longRunning == |Slow(ids, started, now, threshold)| <= |ids|
    && (forall t :: t in ids ==> Elapsed(started[t], now) <= o.maxElapsed)
    && (o.maxElapsed == 0.0 || exists t :: t in ids && Elapsed(started[t], now) == o.maxElapsed)
    && 0.0 <= o.maxElapsed
  }

  lemma DescribesOneMore(
    o: Observability, ids: set<Id>, t: Id, started: map<Id, real>, now: real, threshold: real)
    requires t !in ids && t in started && o.running == |ids| && Describes(o, ids, started, now, threshold)
    ensures var o' := Observe(o, started[t], now, threshold);
            o'.running == |ids + {t}| && Describes(o', ids + {t}, started, now, threshold)
  {
    var o' := Observe(o, started[t], now, threshold);
    assert Slow(ids + {t}, started, now, threshold)
        == Slow(ids, started, now, threshold) + if Elapsed(started[t], now) > threshold then {t} else {};
    if o'.maxElapsed == Elapsed(started[t], now) {
      assert t in ids + {t};
    } else if o.maxElapsed != 0.0 {
      var u :| u in ids && Elapsed(started[u], now) == o.maxElapsed;
      assert u in ids + {t};
    }
  }

  // ----- export and restore --------------------------------------------------------

  datatype Word = PENDING | RUNNING | COMPLETED | FAILED | CANCELLED | OTHER_WORD

  /** One entry of an export as it is read back; `known` when its keys are the record's own. */
  datatype Raw<+R> = NotAMapping | Raw(task: string, word: Word, result: R, error: Option<string>, known: bool)

  /** `items` is None when it is not a list. */
  datatype Exported<+R> = NotAState | Exported(schema: int, items: Option<seq<Raw<R>>>)

  datatype RestoreError =
    | StateNotAMapping | UnsupportedSchema | ItemsNotAList
    | ItemNotAMapping | BlankTaskId | DuplicateTask | MalformedRecord

  const INTERRUPTED := "task interrupted by runtime restart"

  /** What a recorded status becomes after a restart. */
  function Recovered<R>(s: Status<R>): Status<R> {
    if s.Running? then Failed(INTERRUPTED) else s
  }

  function RecoverAll<R>(items: map<Id, Status<R>>): map<Id, Status<R>> {
    map t | t in items :: Recovered(items[t])
  }

  /** The dataclass rejects a failed record without an error text. */
  predicate Admissible<R>(s: Status<R>) { s.Failed? ==> Strip(s.error) != [] }

  /** The status an entry denotes; None when the record refuses it. `absent` recognises the result
      value that stands for no result. A running entry is taken without looking at the rest. */
  function Denoted<R>(absent: R -> bool, raw: Raw<R>): Option<Status<R>>
    requires raw.Raw?
  {
    if raw.word.RUNNING? then Some(Running)
    else if !raw.known then None
    else
      match raw.word
      case PENDING => if absent(raw.result) && raw.error.None? then Some(Pending) else None
      case COMPLETED => if raw.error.None? then Some(Completed(raw.result)) else None
      case FAILED =>
        if absent(raw.result) && raw.error.Some? && Strip(raw.error.value) != []
        then Some(Failed(raw.error.value)) else None
      case CANCELLED => if absent(raw.result) && raw.error.None? then Some(Cancelled) else None
      case OTHER_WORD => None
  }

  /** `asdict` of a record; `none` is the result of a record without one. */
  function AsRaw<R>(none: R, t: Id, s: Status<R>): Raw<R> {
    match s
    case Pending => Raw(t, PENDING, none, None, true)
    case Running => Raw(t, RUNNING, none, None, true)
    case Completed(v) => Raw(t, COMPLETED, v, None, true)
    case Failed(e) => Raw(t, FAILED, none, Some(e), true)
    case Cancelled => Raw(t, CANCELLED, none, None, true)
  }

  lemma AsRawDenotes<R>(absent: R -> bool, none: R, t: Id, s: Status<R>)
    requires absent(none) && Admissible(s)
    ensures Denoted(absent, AsRaw(none, t, s)) == Some(s)
  {
  }

  function RestoreItem<R>(absent: R -> bool, acc: map<Id, Status<R>>, raw: Raw<R>)
    : Result<map<Id, Status<R>>, RestoreError>
  {
    if raw.NotAMapping? then Err(ItemNotAMapping)
    else
      var t := Strip(raw.task);
      var status := Denoted(absent, raw);
      if t == [] then Err(BlankTaskId)
      else if t in acc then Err(DuplicateTask)
      else if status.None? then Err(MalformedRecord)
      else Ok(acc[t := Recovered(status.value)])
  }

  function RestoreItems<R>(absent: R -> bool, items: seq<Raw<R>>): Result<map<Id, Status<R>>, RestoreError>
    decreases |items|
  {
    if items == [] then Ok(map[])
    else
      match RestoreItems(absent, items[..|items| - 1])
      case Err(e) => Err(e)
      case Ok(acc) => RestoreItem(absent, acc, items[|items| - 1])
  }

  /** Invariants of identifiers and error texts that every operation keeps. */
  ghost predicate Clean<R>(items: map<Id, Status<R>>) {
    forall t :: t in items ==> t != [] && Strip(t) == t && Admissible(items[t])
  }

  /** `out` lists every record once, in some order. */
  ghost predicate Lists<R>(absent: R -> bool, out: seq<Raw<R>>, items: map<Id, Status<R>>) {
    && (forall i :: 0 <= i < |out| ==>
          out[i].Raw? && out[i].task in items && Denoted(absent, out[i]) == Some(items[out[i].task]))
    && (forall i, j :: 0 <= i < j < |out| ==> out[i].task != out[j].task)
    && (forall t :: t in items ==> exists i :: 0 <= i < |out| && out[i].task == t)
  }

  /** Restoring an export succeeds and yields every record, running ones as failed. */
  lemma {:induction false} RestoreInvertsExport<R>(absent: R -> bool, out: seq<Raw<R>>, items: map<Id, Status<R>>)
    requires Lists(absent, out, items) && Clean(items)
    ensures RestoreItems(absent, out) == Ok(RecoverAll(items))
    ensures RestoreItems(absent, out).value.Keys == items.Keys
    ensures forall t :: t in items ==>
              RestoreItems(absent, out).value[t] ==
              if items[t].Running? then Failed("task interrupted by runtime restart") else items[t]
    decreases |out|
  {
    if out == [] {
      assert items == map[];
    } else {
      var last := out[|out| - 1];
      DropLast(absent, out, items);
      RestoreInvertsExport(absent, out[..|out| - 1], items - {last.task});
      RestoreOneMore(absent, items, last);
    }
  }

  lemma RestoreOneMore<R>(absent: R -> bool, items: map<Id, Status<R>>, raw: Raw<R>)
    requires raw.Raw? && raw.task in items && Clean(items) && Denoted(absent, raw) == Some(items[raw.task])
    ensures RestoreItem(absent, RecoverAll(items - {raw.task}), raw) == Ok(RecoverAll(items))
  {
    assert RecoverAll(items) == RecoverAll(items - {raw.task})[raw.task := Recovered(items[raw.task])];
  }

  lemma DropLast<R>(absent: R -> bool, out: seq<Raw<R>>, items: map<Id, Status<R>>)
    requires out != [] && Lists(absent, out, items)
    ensures Lists(absent, out[..|out| - 1], items - {out[|out| - 1].task})
  {
    var init := out[..|out| - 1];
    var smaller := items - {out[|out| - 1].task};
    forall t | t in smaller ensures exists i :: 0 <= i < |init| && init[i].task == t {
      var i :| 0 <= i < |out| && out[i].task == t;
      assert init[i].task == t;
    }
  }

  /** An entry that is no ill-formed record; a running one is not looked at further. */
  ghost predicate WellFormedEntry<R>(absent: R -> bool, raw: Raw<R>) {
    && raw.Raw? && Strip(raw.task) != []
    && (!raw.word.RUNNING? ==>
          && raw.known && !raw.word.OTHER_WORD?
          && (raw.word.FAILED? <==> raw.error.Some?)
          && (raw.error.Some? ==> Strip(raw.error.value) != [])
          && (raw.word.COMPLETED? || absent(raw.result)))
  }

  /** Which lists of entries are accepted. */
  ghost predicate Acceptable<R>(absent: R -> bool, items: seq<Raw<R>>) {
    && (forall i :: 0 <= i < |items| ==> WellFormedEntry(absent, items[i]))
    && forall i, j :: 0 <= i < j < |items| ==> Strip(items[i].task) != Strip(items[j].task)
  }

  /** The status that the record of an entry has after a restart: its own, unless it was running. */
  ghost predicate ComesBackAs<R>(raw: Raw<R>, s: Status<R>)
    requires raw.Raw?
  {
    match raw.word
    case PENDING => s == Pending
    case RUNNING => s == Failed("task interrupted by runtime restart")
    case COMPLETED => s == Completed(raw.result)
    case FAILED => raw.error.Some? && s == Failed(raw.error.value)
    case CANCELLED => s == Cancelled
    case OTHER_WORD => false
  }

  /** Every entry comes back under its stripped id, and nothing else does. */
  ghost predicate ComesBack<R>(items: seq<Raw<R>>, m: map<Id, Status<R>>) {
    && (forall i :: 0 <= i < |items| ==>
          items[i].Raw? && Strip(items[i].task) in m && ComesBackAs(items[i], m[Strip(items[i].task)]))
    && forall t :: t in m ==> exists i :: 0 <= i < |items| && items[i].Raw? && Strip(items[i].task) == t
  }

  lemma AcceptableOneMore<R>(absent: R -> bool, items: seq<Raw<R>>)
    requires items != []
    ensures Acceptable(absent, items) <==>
            && Acceptable(absent, items[..|items| - 1])
            && WellFormedEntry(absent, items[|items| - 1])
            && forall i :: 0 <= i < |items| - 1 ==>
                 items[i].Raw? && Strip(items[i].task) != Strip(items[|items| - 1].task)
  {
    var init := items[..|items| - 1];
    assert forall i :: 0 <= i < |init| ==> init[i] == items[i];
  }

  lemma WellFormedIsDenoted<R>(absent: R -> bool, raw: Raw<R>)
    ensures WellFormedEntry(absent, raw) <==> raw.Raw? && Strip(raw.task) != [] && Denoted(absent, raw).Some?
    ensures WellFormedEntry(absent, raw) ==> ComesBackAs(raw, Recovered(Denoted(absent, raw).value))
  {
  }

  lemma OneMoreComesBack<R>(absent: R -> bool, init: seq<Raw<R>>, acc: map<Id, Status<R>>, last: Raw<R>)
    requires ComesBack(init, acc)
    ensures RestoreItem(absent, acc, last).Ok? <==>
            && WellFormedEntry(absent, last)
            && forall i :: 0 <= i < |init| ==> Strip(init[i].task) != Strip(last.task)
    ensures RestoreItem(absent, acc, last).Ok? ==> ComesBack(init + [last], RestoreItem(absent, acc, last).value)
  {
    WellFormedIsDenoted(absent, last);
    if RestoreItem(absent, acc, last).Ok? {
      var m, items := RestoreItem(absent, acc, last).value, init + [last];
      assert m == acc[Strip(last.task) := m[Strip(last.task)]];
      forall t | t in m ensures exists i :: 0 <= i < |items| && items[i].Raw? && Strip(items[i].task) == t {
        if t == Strip(last.task) {
          assert items[|init|] == last;
        } else {
          var i :| 0 <= i < |init| && init[i].Raw? && Strip(init[i].task) == t;
          assert items[i] == init[i];
        }
      }
    }
  }

  /** Exactly the acceptable lists are restored, and then every entry comes back with its own
      status, result and error, a running one as failed. */
  lemma {:induction false} RestoresExactly<R>(absent: R -> bool, items: seq<Raw<R>>)
    ensures RestoreItems(absent, items).Ok? <==> Acceptable(absent, items)
    ensures RestoreItems(absent, items).Ok? ==> ComesBack(items, RestoreItems(absent, items).value)
    decreases |items|
  {
    if items != [] {
      var init, last := items[..|items| - 1], items[|items| - 1];
      RestoresExactly(absent, init);
      AcceptableOneMore(absent, items);
      assert items == init + [last];
      if RestoreItems(absent, init).Ok? { OneMoreComesBack(absent, init, RestoreItems(absent, init).value, last); }
    }
  }

  /** Why the i-th entry is refused after all before it were accepted. */
  ghost predicate RefusedFor<R>(items: seq<Raw<R>>, i: nat, e: RestoreError)
    requires i < |items|
  {
    if !items[i].Raw? then e == ItemNotAMapping
    else if Strip(items[i].task) == [] then e == BlankTaskId
    else if exists j :: 0 <= j < i && items[j].Raw? && Strip(items[j].task) == Strip(items[i].task)
    then e == DuplicateTask
    else e == MalformedRecord
  }

  lemma RefusedLast<R>(absent: R -> bool, items: seq<Raw<R>>, acc: map<Id, Status<R>>)
    requires items != [] && ComesBack(items[..|items| - 1], acc)
    requires RestoreItem(absent, acc, items[|items| - 1]).Err?
    ensures RefusedFor(items, |items| - 1, RestoreItem(absent, acc, items[|items| - 1]).error)
  {
    var init, last := items[..|items| - 1], items[|items| - 1];
    assert forall j :: 0 <= j < |init| ==> items[j] == init[j];
    if last.Raw? && Strip(last.task) in acc {
      var j :| 0 <= j < |init| && init[j].Raw? && Strip(init[j].task) == Strip(last.task);
      assert items[j].Raw? && Strip(items[j].task) == Strip(last.task);
    }
  }

  lemma RefusedEarlier<R>(items: seq<Raw<R>>, init: seq<Raw<R>>, i: nat, e: RestoreError)
    requires init <= items && i < |init| && RefusedFor(init, i, e)
    ensures RefusedFor(items, i, e)
  {
    assert forall j :: 0 <= j <= i ==> items[j] == init[j];
  }

  /** A refused list is refused for its first entry that is not acceptable after those before it. */
  lemma {:induction false} RefusesForTheFirst<R>(absent: R -> bool, items: seq<Raw<R>>) returns (i: nat)
    requires RestoreItems(absent, items).Err?
    ensures i < |items| && RestoreItems(absent, items[..i]).Ok?
    ensures RefusedFor(items, i, RestoreItems(absent, items).error)
    decreases |items|
  {
    var init := items[..|items| - 1];
    if RestoreItems(absent, init).Err? {
      i := RefusesForTheFirst(absent, init);
      assert items[..i] == init[..i];
      RefusedEarlier(items, init, i, RestoreItems(absent, items).error);
    } else {
      i := |init|;
      RestoresExactly(absent, init);
      RefusedLast(absent, items, RestoreItems(absent, init).value);
    }
  }

  /** Recovering twice is recovering once, and nothing recovered is running. */
  lemma RecoveryIsIdempotent<R>(items: map<Id, Status<R>>)
    ensures RecoverAll(RecoverAll(items)) == RecoverAll(items)
    ensures RecoverAll(items).Keys == items.Keys
    ensures forall t :: t in items ==>
              RecoverAll(items)[t] ==
              if items[t].Running? then Failed("task interrupted by runtime restart") else items[t]
  {
  }

  // ----- the registry object -------------------------------------------------------

  class TaskCompletionRegistry<R(!new)> {
    var items: map<Id, Status<R>>
    var started: map<Id, real>
    var finished: map<Id, real>

    ghost function State(): Records<R> reads this { Records(items, started, finished) }

    ghost predicate Valid() reads this { Timed(State()) && Clean(items) }

    constructor ()
      ensures State() == NoRecords() && Valid()
    {
      items, started, finished := map[], map[], map[];
    }

    method Create(taskId: string) returns (e: Option<Refusal>)
      requires Valid()
      modifies this
      ensures (State(), e) == Step(old(State()), Op.Create(Strip(taskId))) && Valid()
      ensures e == None <==> Strip(taskId) != [] && Strip(taskId) !in old(items)
      ensures items == if e == None then old(items)[Strip(taskId) := Pending] else old(items)
      ensures started == old(started) && finished == old(finished)
    {
      StepStaysTimed(State(), Op.Create(Strip(taskId)));
      StripTwice(taskId);
      var key := Strip(taskId);
      if key == [] { return Some(BlankTask); }
      if key in items { return Some(Exists); }
      items := items[key := Pending];
      return None;
    }

    method Get(taskId: string) returns (s: Option<Status<R>>)
      ensures s == if Strip(taskId) in items then Some(items[Strip(taskId)]) else None
    {
      var key := Strip(taskId);
      if key in items { return Some(items[key]); }
      return None;
    }

    method Start(taskId: string, now: real) returns (e: Option<Refusal>)
      requires Valid()
      modifies this
      ensures (State(), e) == Step(old(State()), Op.Start(Strip(taskId), now)) && Valid()
      ensures e == None <==> Strip(taskId) in old(items) && old(items)[Strip(taskId)].Pending?
      ensures items == if e == None then old(items)[Strip(taskId) := Running] else old(items)
      ensures started == if e == None then old(started)[Strip(taskId) := now] else old(started)
      ensures finished == old(finished)
    {
      StepStaysTimed(State(), Op.Start(Strip(taskId), now));
      var key := Strip(taskId);
      if key !in items { return Some(Unknown); }
      if !items[key].Pending? { return Some(CannotStart); }
      items := items[key := Running];
      started := started[key := now];
      return None;
    }

    method Complete(taskId: string, result: R, now: real) returns (e: Option<Refusal>)
      requires Valid()
      modifies this
      ensures (State(), e) == Step(old(State()), Op.Complete(Strip(taskId), result, now)) && Valid()
      ensures e == None <==>
                Strip(taskId) in old(items)
                && (old(items)[Strip(taskId)].Pending? || old(items)[Strip(taskId)].Running?)
      ensures items == if e == None then old(items)[Strip(taskId) := Completed(result)] else old(items)
      ensures finished == if e == None then old(finished)[Strip(taskId) := now] else old(finished)
      ensures started == old(started)
    {
      StepStaysTimed(State(), Op.Complete(Strip(taskId), result, now));
      var key := Strip(taskId);
      if key !in items { return Some(Unknown); }
      if items[key].Terminal() { return Some(AlreadyTerminal); }
      items := items[key := Completed(result)];
      finished := finished[key := now];
      return None;
    }

    method Fail(taskId: string, error: string, now: real) returns (e: Option<Refusal>)
      requires Valid()
      modifies this
      ensures (State(), e) == Step(old(State()), Op.Fail(Strip(taskId), error, now)) && Valid()
      ensures e == None <==>
                Strip(taskId) in old(items)
                && (old(items)[Strip(taskId)].Pending? || old(items)[Strip(taskId)].Running?) && Strip(error) != []
      ensures items == if e == None then old(items)[Strip(taskId) := Failed(error)] else old(items)
      ensures finished == if e == None then old(finished)[Strip(taskId) := now] else old(finished)
      ensures started == old(started)
    {
      StepStaysTimed(State(), Op.Fail(Strip(taskId), error, now));
      var key := Strip(taskId);
      if key !in items { return Some(Unknown); }
      if items[key].Terminal() { return Some(AlreadyTerminal); }
      if Strip(error) == [] { return Some(BlankError); }
      items := items[key := Failed(error)];
      finished := finished[key := now];
      return None;
    }

    method Cancel(taskId: string, now: real) returns (e: Option<Refusal>)
      requires Valid()
      modifies this
      ensures (State(), e) == Step(old(State()), Op.Cancel(Strip(taskId), now)) && Valid()
      ensures e == None <==>
                Strip(taskId) in old(items)
                && (old(items)[Strip(taskId)].Pending? || old(items)[Strip(taskId)].Running?)
      ensures items == if e == None then old(items)[Strip(taskId) := Cancelled] else old(items)
      ensures finished == if e == None then old(finished)[Strip(taskId) := now] else old(finished)
      ensures started == old(started)
    {
      StepStaysTimed(State(), Op.Cancel(Strip(taskId), now));
      var key := Strip(taskId);
      if key !in items { return Some(Unknown); }
      if items[key].Terminal() { return Some(AlreadyTerminal); }
      items := items[key := Cancelled];
      finished := finished[key := now];
      return None;
    }

    method Cleanup(maxAge: real, now: real) returns (removed: Option<nat>)
      requires Valid()
      modifies this
      ensures State() == Step(old(State()), Op.Cleanup(maxAge, now)).0 && Valid()
      ensures removed == if maxAge < 0.0 then None else Some(|Expired(old(State()), maxAge, now)|)
      ensures forall t :: t in items <==>
                t in old(items) && !(maxAge >= 0.0 && t in old(finished) && now - old(finished)[t] >= maxAge)
      ensures forall t :: t in items ==> items[t] == old(items)[t]
      ensures started == old(started) - (old(items).Keys - items.Keys)
      ensures finished == old(finished) - (old(items).Keys - items.Keys)
    {
      StepStaysTimed(State(), Op.Cleanup(maxAge, now));
      if maxAge < 0.0 { return None; }
      var expired := set t | t in finished && now - finished[t] >= maxAge;
      DropAll(expired);
      assert expired == Expired(old(State()), maxAge, now);
      return Some(|expired|);
    }

    /** The deletion loop of `cleanup`. */
    method DropAll(gone: set<Id>)
      modifies this
      ensures items == old(items) - gone && started == old(started) - gone && finished == old(finished) - gone
    {
      var todo, done := gone, {};
      while todo != {}
        invariant todo + done == gone && todo !! done
        invariant items == old(items) - done
        invariant started == old(started) - done
        invariant finished == old(finished) - done
        decreases todo
      {
        var t :| t in todo;
        DropOneMore(items, old(items), done, t);
        DropOneMore(started, old(started), done, t);
        DropOneMore(finished, old(finished), done, t);
        items, started, finished := items - {t}, started - {t}, finished - {t};
        todo, done := todo - {t}, done + {t};
      }
    }

    /** The five counts are the numbers of records in each state, and they add up. */
    method TakeSnapshot() returns (k: Snapshot)
      ensures Counts(k, items, items.Keys)
      ensures k.total == |items| == k.pending + k.running + k.completed + k.failed + k.cancelled
    {
      k := CountRecords(items);
    }

    /** The running count agrees with the snapshot's, and the maximum is attained. */
    method ExecutionObservability(threshold: real, now: real) returns (o: Option<Observability>)
      requires Valid()
      ensures o.None? <==> threshold < 0.0
      ensures o.Some? ==>
                && o.value.running == |Having(items, IsRunning)|
                && Describes(o.value, Having(items, IsRunning), started, now, threshold)
      ensures o.Some? ==>
                && (forall t :: t in items && items[t].Running? ==> now - started[t] <= o.value.maxElapsed)
                && (o.value.maxElapsed == 0.0
                    || exists t :: t in items && items[t].Running? && now - started[t] == o.value.maxElapsed)
                && o.value.longRunning == |LongerThan(Having(items, IsRunning), started, now, threshold)|
    {
      if threshold < 0.0 { return None; }
      ghost var all := Having(items, IsRunning);
      var its, begun := items, started;
      assert forall t :: t in its && its[t].Running? <==> t in all;
      assert forall t :: t in all ==> t in begun;
      o := Some(Observability(0, 0, 0.0));
      var todo := its.Keys;
      ghost var seen: set<Id> := {};
      while todo != {}
        invariant todo <= its.Keys && o.Some? && seen <= all && all - seen <= todo && seen !! todo
        invariant o.value.running == |seen| && Describes(o.value, seen, begun, now, threshold)
        decreases todo
      {
        var t :| t in todo;
        todo := todo - {t};
        if its[t].Running? {
          if t in begun {
            DescribesOneMore(o.value, seen, t, begun, now, threshold);
            o := Some(Observe(o.value, begun[t], now, threshold));
            seen := seen + {t};
          }
        }
      }
      assert seen == all;
      assert Slow(all, begun, now, threshold) == LongerThan(all, begun, now, threshold);
    }

    /** `none` is the result of a record without one, which `absent` recognises. */
    method ExportState(ghost absent: R -> bool, none: R) returns (out: Exported<R>)
      requires Valid() && absent(none)
      ensures out.Exported? && out.schema == 1 && out.items.Some? && Lists(absent, out.items.value, items)
    {
      var list: seq<Raw<R>> := [];
      var todo := items.Keys;
      while todo != {}
        invariant todo <= items.Keys
        invariant Lists(absent, list, items - todo)
        decreases todo
      {
        var t :| t in todo;
        AsRawDenotes(absent, none, t, items[t]);
        ListOneMore(absent, list, items, todo, t, AsRaw(none, t, items[t]));
        list := list + [AsRaw(none, t, items[t])];
        todo := todo - {t};
      }
      assert items - todo == items;
      return Exported(1, Some(list));
    }

    /** Rebuilds a registry from what an export restores to; a malformed one is refused before. */
    constructor Restore(restored: map<Id, Status<R>>, now: real)
      requires Clean(restored) && forall t :: t in restored ==> !restored[t].Running?
      ensures items == restored && started == map[] && Valid()
      ensures forall t :: t in finished ==> finished[t] == now
    {
      items, started := restored, map[];
      finished := map t | t in restored && restored[t].Terminal() :: now;
    }
  }

  lemma ListOneMore<R>(
    absent: R -> bool, list: seq<Raw<R>>, items: map<Id, Status<R>>, todo: set<Id>, t: Id, raw: Raw<R>)
    requires t in todo && t in items && Lists(absent, list, items - todo)
    requires raw.Raw? && raw.task == t && Denoted(absent, raw) == Some(items[t])
    ensures Lists(absent, list + [raw], items - (todo - {t}))
  {
    var longer := list + [raw];
    forall u | u in items - (todo - {t}) ensures exists i :: 0 <= i < |longer| && longer[i].task == u {
      if u == t {
        assert longer[|list|].task == u;
      } else {
        assert u in items - todo;
        var i :| 0 <= i < |list| && list[i].task == u;
        assert longer[i].task == u;
      }
    }
  }

  /** What `restore_state` makes of any input: the records, or the first error. */
  function Restored<R>(absent: R -> bool, state: Exported<R>): Result<map<Id, Status<R>>, RestoreError> {
    if state.NotAState? then Err(StateNotAMapping)
    else if state.schema != 1 then Err(UnsupportedSchema)
    else if state.items.None? then Err(ItemsNotAList)
    else RestoreItems(absent, state.items.value)
  }

  /** The loop behind `restore_state`: the first bad item decides the error. */
  method RestoreState<R>(absent: R -> bool, state: Exported<R>) returns (r: Result<map<Id, Status<R>>, RestoreError>)
    ensures r == Restored(absent, state)
  {
    if state.NotAState? { return Err(StateNotAMapping); }
    if state.schema != 1 { return Err(UnsupportedSchema); }
    if state.items.None? { return Err(ItemsNotAList); }
    var items := state.items.value;
    var acc: map<Id, Status<R>> := map[];
    for i := 0 to |items|
      invariant RestoreItems(absent, items[..i]) == Ok(acc)
    {
      assert items[..i + 1][..i] == items[..i];
      var step := RestoreItem(absent, acc, items[i]);
      if step.Err? {
        FirstErrorDecides(absent, items, i + 1);
        return step;
      }
      acc := step.value;
    }
    assert items[..|items|] == items;
    return Ok(acc);
  }

  lemma {:induction false} FirstErrorDecides<R>(absent: R -> bool, items: seq<Raw<R>>, n: nat)
    requires n <= |items| && RestoreItems(absent, items[..n]).Err?
    ensures RestoreItems(absent, items) == RestoreItems(absent, items[..n])
    decreases |items| - n
  {
    if n < |items| {
      assert items[..n + 1][..n] == items[..n];
      FirstErrorDecides(absent, items, n + 1);
    } else {
      assert items[..n] == items;
    }
  }

  /** Whatever is restored is well formed, and nothing in it is running. */
  lemma {:induction false} RestoredIsClean<R>(absent: R -> bool, items: seq<Raw<R>>)
    requires RestoreItems(absent, items).Ok?
    ensures Clean(RestoreItems(absent, items).value)
    ensures forall t :: t in RestoreItems(absent, items).value ==> !RestoreItems(absent, items).value[t].Running?
    decreases |items|
  {
    if items != [] {
      RestoredIsClean(absent, items[..|items| - 1]);
      StripTwice(items[|items| - 1].task);
    }
  }

  lemma DropOneMore<V>(left: map<Id, V>, m: map<Id, V>, done: set<Id>, t: Id)
    requires left == m - done
    ensures left - {t} == m - (done + {t})
  {
  }
}
