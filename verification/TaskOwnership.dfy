/** Generation-fenced ownership of distributed tasks (nexus/compute/task_ownership.py). */
module TaskOwnership {
  import opened Basics

  datatype Ownership = Ownership(node: Id, generation: nat)

  /** `_items` and `_generations`. */
  datatype Registry = Registry(items: map<Id, Ownership>, generations: map<Id, nat>)

  datatype Error =
    | BlankId
    | BadGeneration
    | AlreadyOwned(owner: Id)
    | NotOwned
    | OwnerMismatch
    | GenerationMismatch
  {
    /** The three refusals the source raises as StaleTaskOwnershipError. */
    predicate Stale() { NotOwned? || OwnerMismatch? || GenerationMismatch? }
  }

  const EMPTY := Registry(map[], map[])

  function Latest(r: Registry, t: Id): nat {
    if t in r.generations then r.generations[t] else 0
  }

  /** The token (t, n, g) is the authoritative one. */
  predicate Current(r: Registry, t: Id, n: Id, g: nat) {
    t in r.items && r.items[t] == Ownership(n, g)
  }

  function ClaimStep(r: Registry, t: Id, n: Id): (Registry, Result<nat, Error>) {
    if t in r.items then (r, Err(AlreadyOwned(r.items[t].node)))
    else
      var g := Latest(r, t) + 1;
      (Registry(r.items[t := Ownership(n, g)], r.generations[t := g]), Ok(g))
  }

  /** The checks `release` and `assert_current` share, in the source's order. */
  function Check(r: Registry, t: Id, n: Id, g: nat): Option<Error> {
    if t !in r.items then Some(NotOwned)
    else if r.items[t].node != n then Some(OwnerMismatch)
    else if r.items[t].generation != g then Some(GenerationMismatch)
    else None
  }

  function ReleaseStep(r: Registry, t: Id, n: Id, g: nat): (Registry, Option<Error>) {
    var e := Check(r, t, n, g);
    (if e == None then r.(items := r.items - {t}) else r, e)
  }

  function Orphans(r: Registry, online: set<Id>): set<Id> {
    set t | t in r.items && r.items[t].node !in online
  }

  /** The non-blank identifiers of a membership, stripped. */
  function Normalised(nodes: set<string>): set<Id> {
    set n | n in nodes && Strip(n) != [] :: Strip(n)
  }

  function ReclaimStep(r: Registry, online: set<Id>): Registry {
    r.(items := r.items - Orphans(r, online))
  }

  // ----- whole runs --------------------------------------------------------------

  datatype Event =
    | Claim(task: Id, node: Id)
    | Release(task: Id, node: Id, generation: nat)
    | Reclaim(online: set<Id>)

  function Apply(r: Registry, e: Event): Registry {
    match e
    case Claim(t, n) => ClaimStep(r, t, n).0
    case Release(t, n, g) => ReleaseStep(r, t, n, g).0
    case Reclaim(online) => ReclaimStep(r, online)
  }

  function After(r: Registry, events: seq<Event>): Registry
    decreases |events|
  {
    if events == [] then r else After(Apply(r, events[0]), events[1..])
  }

  /** A live ownership always carries the newest generation of its task. */
  ghost predicate Fenced(r: Registry) {
    forall t :: t in r.items ==> t in r.generations && 1 <= r.items[t].generation == r.generations[t]
  }

  /** Generation g of task t was handed out and is over. */
  ghost predicate Retired(r: Registry, t: Id, g: nat) {
    g <= Latest(r, t) && !(t in r.items && r.items[t].generation == g)
  }

  lemma StepKeepsFence(r: Registry, e: Event, t: Id, g: nat)
    requires Fenced(r)
    ensures Fenced(Apply(r, e))
    ensures Latest(r, t) <= Latest(Apply(r, e), t)
    ensures Retired(r, t, g) ==> Retired(Apply(r, e), t, g)
  {
  }

  lemma {:induction false} RunKeepsFence(r: Registry, events: seq<Event>, t: Id, g: nat)
    requires Fenced(r)
    ensures Fenced(After(r, events))
    ensures Latest(r, t) <= Latest(After(r, events), t)
    ensures Retired(r, t, g) ==> Retired(After(r, events), t, g)
    decreases |events|
  {
    if events != [] {
      StepKeepsFence(r, events[0], t, g);
      RunKeepsFence(Apply(r, events[0]), events[1..], t, g);
    }
  }

  lemma {:induction false} AfterAppend(r: Registry, first: seq<Event>, second: seq<Event>)
    ensures After(r, first + second) == After(After(r, first), second)
    decreases |first|
  {
    if first == [] {
      assert first + second == second;
    } else {
      assert (first + second)[1..] == first[1..] + second;
      AfterAppend(Apply(r, first[0]), first[1..], second);
    }
  }

  /** A token that was current once and is not now never becomes current again. */
  lemma TokenNeverReturns(past: seq<Event>, lost: seq<Event>, later: seq<Event>, t: Id, n: Id, g: nat)
    requires Current(After(EMPTY, past), t, n, g)
    requires !Current(After(EMPTY, past + lost), t, n, g)
    ensures !Current(After(EMPTY, past + lost + later), t, n, g)
  {
    RunKeepsFence(EMPTY, past, t, g);
    AfterAppend(EMPTY, past, lost);
    AfterAppend(EMPTY, past + lost, later);
    RunKeepsFence(EMPTY, past + lost, t, g);
    TokenLostMeansRetired(After(EMPTY, past), lost, t, n, g);
    RunKeepsFence(After(EMPTY, past + lost), later, t, g);
  }

  lemma {:induction false} TokenLostMeansRetired(r: Registry, events: seq<Event>, t: Id, n: Id, g: nat)
    requires Fenced(r) && Current(r, t, n, g)
    ensures Current(After(r, events), t, n, g) || Retired(After(r, events), t, g)
    decreases |events|
  {
    if events != [] {
      var next := Apply(r, events[0]);
      StepKeepsFence(r, events[0], t, g);
      if Current(next, t, n, g) {
        TokenLostMeansRetired(next, events[1..], t, n, g);
      } else {
        RunKeepsFence(next, events[1..], t, g);
      }
    }
  }

  /** Generations handed out for t by the successful claims of a run, oldest first. */
  function HandedOut(r: Registry, events: seq<Event>, t: Id): seq<nat>
    decreases |events|
  {
    if events == [] then []
    else
      var rest := HandedOut(Apply(r, events[0]), events[1..], t);
      if events[0].Claim? && events[0].task == t && t !in r.items
      then [ClaimStep(r, t, events[0].node).1.value] + rest
      else rest
  }

  /** The generations of a task are handed out as 1, 2, 3, ... with no gap and no repeat. */
  lemma {:induction false} GenerationsAreConsecutive(events: seq<Event>, t: Id)
    ensures |HandedOut(EMPTY, events, t)| == Latest(After(EMPTY, events), t)
    ensures forall i :: 0 <= i < |HandedOut(EMPTY, events, t)| ==> HandedOut(EMPTY, events, t)[i] == i + 1
  {
    HandedOutFrom(EMPTY, events, t);
  }

  lemma {:induction false} HandedOutFrom(r: Registry, events: seq<Event>, t: Id)
    ensures Latest(r, t) + |HandedOut(r, events, t)| == Latest(After(r, events), t)
    ensures forall i :: 0 <= i < |HandedOut(r, events, t)| ==>
              HandedOut(r, events, t)[i] == Latest(r, t) + i + 1
    decreases |events|
  {
    if events != [] { HandedOutFrom(Apply(r, events[0]), events[1..], t); }
  }

  // ----- conservation ------------------------------------------------------------

  datatype Tally = Tally(claimed: nat, released: nat, reclaimed: nat)

  /** What one event contributes to the ledger of granted, returned and revoked ownerships. */
  function Account(r: Registry, e: Event, k: Tally): Tally {
    match e
    case Claim(t, n) => if ClaimStep(r, t, n).1.Ok? then k.(claimed := k.claimed + 1) else k
    case Release(t, n, g) => if ReleaseStep(r, t, n, g).1 == None then k.(released := k.released + 1) else k
    case Reclaim(online) => k.(reclaimed := k.reclaimed + |Orphans(r, online)|)
  }

  function Ledger(r: Registry, events: seq<Event>, k: Tally): Tally
    decreases |events|
  {
    if events == [] then k else Ledger(Apply(r, events[0]), events[1..], Account(r, events[0], k))
  }

  /** Every granted ownership is released once, revoked once, or still live. */
  lemma OwnershipIsConserved(events: seq<Event>)
    ensures var k := Ledger(EMPTY, events, Tally(0, 0, 0));
            k.claimed == k.released + k.reclaimed + |After(EMPTY, events).items|
  {
    LedgerBalances(EMPTY, events, Tally(0, 0, 0));
  }

  lemma {:induction false} LedgerBalances(r: Registry, events: seq<Event>, k: Tally)
    requires k.claimed == k.released + k.reclaimed + |r.items|
    ensures var k' := Ledger(r, events, k);
            k'.claimed == k'.released + k'.reclaimed + |After(r, events).items|
    decreases |events|
  {
    if events != [] {
      AccountBalances(r, events[0]);
      LedgerBalances(Apply(r, events[0]), events[1..], Account(r, events[0], k));
    }
  }

  lemma AccountBalances(r: Registry, e: Event)
    ensures var k := Account(r, e, Tally(0, 0, 0));
            |r.items| + k.claimed == k.released + k.reclaimed + |Apply(r, e).items|
  {
    match e
    case Claim(t, n) =>
    case Release(t, n, g) =>
      if t in r.items { RemovedKeys(r.items, {t}); }
    case Reclaim(online) => RemovedKeys(r.items, Orphans(r, online));
  }

  lemma RemovedKeys<V>(m: map<Id, V>, gone: set<Id>)
    requires gone <= m.Keys
    ensures |m - gone| == |m| - |gone|
  {
    assert (m - gone).Keys == m.Keys - gone;
    assert |m.Keys - gone| == |m.Keys| - |gone|;
  }

  // ----- the registry object -----------------------------------------------------

  class TaskOwnershipRegistry {
    var items: map<Id, Ownership>
    var generations: map<Id, nat>

    ghost function State(): Registry reads this { Registry(items, generations) }

    constructor ()
      ensures State() == EMPTY
    {
      items, generations := map[], map[];
    }

    method Claim(taskId: string, nodeId: string) returns (r: Result<nat, Error>)
      modifies this
      ensures var t, n := Strip(taskId), Strip(nodeId);
              if t == [] || n == [] then State() == old(State()) && r == Err(BlankId)
              else (State(), r) == ClaimStep(old(State()), t, n)
      ensures r.Ok? <==> Strip(taskId) != [] && Strip(nodeId) != [] && Strip(taskId) !in old(items)
      ensures r.Ok? ==>
                && r.value == (if Strip(taskId) in old(generations) then old(generations)[Strip(taskId)] else 0) + 1
                && items == old(items)[Strip(taskId) := Ownership(Strip(nodeId), r.value)]
                && generations == old(generations)[Strip(taskId) := r.value]
      ensures r.Err? ==> items == old(items) && generations == old(generations)
    {
      var key, owner := Strip(taskId), Strip(nodeId);
      if key == [] || owner == [] { return Err(BlankId); }
      if key in items { return Err(AlreadyOwned(items[key].node)); }
      var generation := (if key in generations then generations[key] else 0) + 1;
      generations := generations[key := generation];
      items := items[key := Ownership(owner, generation)];
      return Ok(generation);
    }

    /** Refusals of malformed arguments; generations are the source's positive integers. */
    function Malformed(key: Id, owner: Id, generation: int): Option<Error> {
      if key == [] || owner == [] then Some(BlankId)
      else if generation < 1 then Some(BadGeneration)
      else None
    }

    method Release(taskId: string, nodeId: string, generation: int) returns (e: Option<Error>)
      modifies this
      ensures var t, n := Strip(taskId), Strip(nodeId);
              if Malformed(t, n, generation).Some?
              then State() == old(State()) && e == Malformed(t, n, generation)
              else (State(), e) == ReleaseStep(old(State()), t, n, generation)
      ensures e == None <==>
                generation >= 1 && Strip(taskId) != [] && Strip(nodeId) != []
                && Strip(taskId) in old(items) && old(items)[Strip(taskId)] == Ownership(Strip(nodeId), generation)
      ensures items == if e == None then old(items) - {Strip(taskId)} else old(items)
      ensures generations == old(generations)
    {
      e := AssertCurrent(taskId, nodeId, generation);
      if e == None { items := items - {Strip(taskId)}; }
    }

    method AssertCurrent(taskId: string, nodeId: string, generation: int) returns (e: Option<Error>)
      ensures var t, n := Strip(taskId), Strip(nodeId);
              e == if Malformed(t, n, generation).Some? then Malformed(t, n, generation)
                   else Check(State(), t, n, generation)
      ensures e == None <==>
                generation >= 1 && Strip(taskId) != [] && Strip(nodeId) != []
                && Strip(taskId) in items && items[Strip(taskId)] == Ownership(Strip(nodeId), generation)
    {
      var key, owner := Strip(taskId), Strip(nodeId);
      if key == [] || owner == [] { return Some(BlankId); }
      if generation < 1 { return Some(BadGeneration); }
      if key !in items { return Some(NotOwned); }
      if items[key].node != owner { return Some(OwnerMismatch); }
      if items[key].generation != generation { return Some(GenerationMismatch); }
      return None;
    }

    /** Collects the orphans first, then deletes them one by one. */
    method ReclaimOrphaned(onlineNodes: set<string>) returns (reclaimed: map<Id, Ownership>)
      modifies this
      ensures var online := Normalised(onlineNodes);
              && State() == ReclaimStep(old(State()), online)
              && reclaimed.Keys == Orphans(old(State()), online)
              && forall t :: t in reclaimed ==> reclaimed[t] == old(items)[t]
      ensures forall t :: t in reclaimed <==>
                t in old(items) && forall o :: o in onlineNodes && Strip(o) != [] ==> Strip(o) != old(items)[t].node
      ensures items == old(items) - reclaimed.Keys && generations == old(generations)
    {
      var online := Normalised(onlineNodes);
      reclaimed := map t | t in items && items[t].node !in online :: items[t];
      var todo := reclaimed.Keys;
      while todo != {}
        invariant todo <= reclaimed.Keys
        invariant items == old(items) - (reclaimed.Keys - todo)
        invariant generations == old(generations)
        decreases todo
      {
        var t :| t in todo;
        items := items - {t};
        todo := todo - {t};
      }
    }
  }
}
