/** Bounded admission of the hub under any number of worker threads
    (validation/hub-hardening/experimental_hub.py). Each lock-protected block and each
    semaphore operation is one atomic step. */
module HubAdmission {
  import opened Basics

  type Conn = nat

  datatype Limits = Limits(maxConnections: nat, maxPerClient: nat)

  /** When a tracked connection started; the janitor overwrites it with infinity. */
  datatype Stamp = At(seconds: real) | Infinite

  datatype Phase =
    | Arrived
    | Counted          // holds a client count
    | Slotted          // holds a client count and a slot
    | Tracked          // also in _active and _workers; its thread is not running yet
    | Working          // its worker runs
    | StartFailed      // thread.start() raised
    | Unwinding        // untracked, still holds slot and count
    | ReleasingClient  // slot returned or never taken; still holds its client count
    | Gone
  {
    predicate HoldsClient() { !Arrived? && !Gone? }
    predicate HoldsSlot() { Slotted? || Tracked? || Working? || StartFailed? || Unwinding? }
    predicate IsTracked() { Tracked? || Working? || StartFailed? }
  }

  datatype Connection = Connection(client: Id, phase: Phase)

  /** `_slots`, `_per_client`, `_active`, `_workers`; `faults` counts over-releases of the
      bounded semaphore, which would raise. */
  datatype Hub = Hub(slots: nat, perClient: map<Id, nat>, active: map<Conn, Stamp>, workers: set<Conn>, faults: nat)

  datatype State = State(hub: Hub, conns: map<Conn, Connection>, cuts: map<Conn, nat>)

  datatype Action =
    | Accept(conn: Conn, client: Id)
    | Move(conn: Conn, permits: bool, now: real)   // permits: allowed, or the thread starts
    | Janitor(limit: real)

  function Count(h: Hub, client: Id): nat { if client in h.perClient then h.perClient[client] else 0 }

  function TakeClient(h: Hub, client: Id): Hub { h.(perClient := h.perClient[client := Count(h, client) + 1]) }

  /** `_release_client`. */
  function DropClient(h: Hub, client: Id): Hub {
    if Count(h, client) <= 1 then h.(perClient := h.perClient - {client})
    else h.(perClient := h.perClient[client := Count(h, client) - 1])
  }

  function TakeSlot(h: Hub): Hub
    requires h.slots > 0
  {
    h.(slots := h.slots - 1)
  }

  function DropSlot(l: Limits, h: Hub): Hub {
    if h.slots >= l.maxConnections then h.(faults := h.faults + 1) else h.(slots := h.slots + 1)
  }

  function Track(h: Hub, c: Conn, now: real): Hub {
    h.(active := h.active[c := At(now)], workers := h.workers + {c})
  }

  function Untrack(h: Hub, c: Conn): Hub {
    h.(active := h.active - {c}, workers := h.workers - {c})
  }

  /** The next atomic step of a connection's handling: the hub and the phase it leaves behind. */
  function Next(l: Limits, h: Hub, c: Conn, k: Connection, permits: bool, now: real): (Hub, Phase) {
    match k.phase
    case Arrived =>
      if permits && Count(h, k.client) < l.maxPerClient then (TakeClient(h, k.client), Counted) else (h, Gone)
    case Counted => if h.slots > 0 then (TakeSlot(h), Slotted) else (h, ReleasingClient)
    case Slotted => (Track(h, c, now), Tracked)
    case Tracked => (h, if permits then Working else StartFailed)
    case Working => (Untrack(h, c), Unwinding)
    case StartFailed => (Untrack(h, c), Unwinding)
    case Unwinding => (DropSlot(l, h), ReleasingClient)
    case ReleasingClient => (DropClient(h, k.client), Gone)
    case Gone => (h, Gone)
  }

  /** The connections the janitor finds past their deadline. */
  function Expired(h: Hub, limit: real): set<Conn> {
    set c | c in h.active && h.active[c].At? && h.active[c].seconds < limit
  }

  function MarkLate(h: Hub, limit: real): Hub {
    h.(active := map c | c in h.active :: if c in Expired(h, limit) then Infinite else h.active[c])
  }

  function Cuts(s: State, c: Conn): nat { if c in s.cuts then s.cuts[c] else 0 }

  function Apply(l: Limits, s: State, a: Action): State {
    match a
    case Accept(c, client) =>
      if c in s.conns then s else s.(conns := s.conns[c := Connection(client, Arrived)])
    case Move(c, permits, now) =>
      if c !in s.conns then s
      else
        var (hub, phase) := Next(l, s.hub, c, s.conns[c], permits, now);
        State(hub, s.conns[c := s.conns[c].(phase := phase)], s.cuts)
    case Janitor(limit) =>
      var late := Expired(s.hub, limit);
      State(MarkLate(s.hub, limit), s.conns,
            map c | c in s.cuts.Keys + late :: Cuts(s, c) + if c in late then 1 else 0)
  }

  function Initial(l: Limits): State {
    State(Hub(l.maxConnections, map[], map[], {}, 0), map[], map[])
  }

  function Run(l: Limits, s: State, acts: seq<Action>): State
    decreases |acts|
  {
    if acts == [] then s else Run(l, Apply(l, s, acts[0]), acts[1..])
  }

  // ----- accounting -----------------------------------------------------------------------

  ghost function SlotHolders(conns: map<Conn, Connection>): set<Conn> {
    set c | c in conns && conns[c].phase.HoldsSlot()
  }

  ghost function ClientHolders(conns: map<Conn, Connection>, client: Id): set<Conn> {
    set c | c in conns && conns[c].client == client && conns[c].phase.HoldsClient()
  }

  ghost function TrackedOnes(conns: map<Conn, Connection>): set<Conn> {
    set c | c in conns && conns[c].phase.IsTracked()
  }

  /** Free slots plus holders make up the capacity, and the semaphore was never over-released. */
  ghost predicate SlotsBalance(l: Limits, h: Hub, conns: map<Conn, Connection>) {
    h.slots + |SlotHolders(conns)| == l.maxConnections && h.faults == 0
  }

  /** Every client's counter is the number of connections holding it, within its limit, and
      idle clients leave no counter behind. */
  ghost predicate ClientsBalance(l: Limits, h: Hub, conns: map<Conn, Connection>) {
    && (forall k :: Count(h, k) == |ClientHolders(conns, k)| <= l.maxPerClient)
    && (forall k :: k in h.perClient ==> h.perClient[k] > 0)
  }

  ghost predicate TrackingBalances(h: Hub, conns: map<Conn, Connection>) {
    h.active.Keys == TrackedOnes(conns) == h.workers
  }

  /** A connection is cut at most once: a cut one is marked infinite while tracked, and one not
      yet tracked was never cut. */
  ghost predicate CutOnce(s: State) {
    forall c ::
      && Cuts(s, c) <= 1
      && (c in s.hub.active && s.hub.active[c].At? ==> Cuts(s, c) == 0)
      && (c !in s.conns || s.conns[c].phase.Arrived? || s.conns[c].phase.Counted? || s.conns[c].phase.Slotted?
          ==> Cuts(s, c) == 0)
  }

  ghost predicate Inv(l: Limits, s: State) {
    && SlotsBalance(l, s.hub, s.conns) && ClientsBalance(l, s.hub, s.conns)
    && TrackingBalances(s.hub, s.conns) && CutOnce(s)
  }

  lemma SizeAfterMove<T>(before: set<T>, after: set<T>, c: T, holds: bool)
    requires after == before - {c} + (if holds then {c} else {})
    ensures |after| == |before| - (if c in before then 1 else 0) + (if holds then 1 else 0)
  {
    assert before == before - {c} + (if c in before then {c} else {});
  }

  /** What a step does to each resource, by what the connection holds before and after. */
  lemma NextByHoldings(l: Limits, h: Hub, c: Conn, k: Connection, permits: bool, now: real)
    ensures var (h', p) := Next(l, h, c, k, permits, now);
            && (p.HoldsSlot() == k.phase.HoldsSlot() ==> h'.slots == h.slots && h'.faults == h.faults)
            && (p.HoldsSlot() && !k.phase.HoldsSlot() ==>
                  h.slots > 0 && h'.slots == h.slots - 1 && h'.faults == h.faults)
            && (!p.HoldsSlot() && k.phase.HoldsSlot() ==>
                  h'.slots == DropSlot(l, h).slots && h'.faults == DropSlot(l, h).faults)
            && (p.HoldsClient() == k.phase.HoldsClient() ==> h'.perClient == h.perClient)
            && (p.HoldsClient() && !k.phase.HoldsClient() ==>
                  Count(h, k.client) < l.maxPerClient && h'.perClient == TakeClient(h, k.client).perClient)
            && (!p.HoldsClient() && k.phase.HoldsClient() ==> h'.perClient == DropClient(h, k.client).perClient)
  {
  }

  lemma NextTracks(l: Limits, h: Hub, c: Conn, k: Connection, permits: bool, now: real)
    ensures var (h', p) := Next(l, h, c, k, permits, now);
            && (p.IsTracked() == k.phase.IsTracked() ==> h'.active == h.active && h'.workers == h.workers)
            && (p.IsTracked() && !k.phase.IsTracked() ==>
                  k.phase.Slotted? && h'.active == h.active[c := At(now)] && h'.workers == h.workers + {c})
            && (!p.IsTracked() && k.phase.IsTracked() ==>
                  p.Unwinding? && h'.active == h.active - {c} && h'.workers == h.workers - {c})
            && (k.phase.Arrived? || k.phase.Counted? || k.phase.Slotted?
                || !(p.Arrived? || p.Counted? || p.Slotted?))
  {
  }

  /** Where a connection goes next: admitted while its address is allowed and below its limit, given
      a slot while one is free, tracked, served once its thread starts, and then let go of in turn. */
  lemma NextPhase(l: Limits, h: Hub, c: Conn, k: Connection, permits: bool, now: real)
    ensures var held := if k.client in h.perClient then h.perClient[k.client] else 0;
            Next(l, h, c, k, permits, now).1 ==
            match k.phase
            case Arrived => if permits && held < l.maxPerClient then Counted else Gone
            case Counted => if h.slots == 0 then ReleasingClient else Slotted
            case Slotted => Tracked
            case Tracked => if permits then Working else StartFailed
            case Working => Unwinding
            case StartFailed => Unwinding
            case Unwinding => ReleasingClient
            case ReleasingClient => Gone
            case Gone => Gone
  {
  }

  /** A client's counter moves by one when its connection starts or ends, and no other moves. */
  lemma NextCounts(l: Limits, h: Hub, c: Conn, k: Connection, permits: bool, now: real, other: Id)
    requires forall x :: x in h.perClient ==> h.perClient[x] > 0
    ensures var (h', p) := Next(l, h, c, k, permits, now);
            var (before, after) := (if other in h.perClient then h.perClient[other] else 0,
                                    if other in h'.perClient then h'.perClient[other] else 0);
            after == before
                     + (if other == k.client && k.phase.Arrived? && p.Counted? then 1 else 0)
                     - (if other == k.client && k.phase.ReleasingClient? && other in h.perClient then 1 else 0)
  {
  }

  /** A janitor pass cuts and marks exactly the tracked connections stamped before the limit. */
  lemma JanitorCutsTheLate(l: Limits, s: State, limit: real, c: Conn)
    ensures var s' := Apply(l, s, Janitor(limit));
            var late := c in s.hub.active && s.hub.active[c].At? && s.hub.active[c].seconds < limit;
            && Cuts(s', c) == Cuts(s, c) + (if late then 1 else 0)
            && (c in s'.hub.active <==> c in s.hub.active)
            && (c in s.hub.active ==> s'.hub.active[c] == if late then Infinite else s.hub.active[c])
            && s'.conns == s.conns && s'.hub.(active := s.hub.active) == s.hub
  {
    assert c in Apply(l, s, Janitor(limit)).cuts <==> c in s.cuts.Keys + Expired(s.hub, limit);
  }

  lemma SlotsStayBalanced(l: Limits, h: Hub, conns: map<Conn, Connection>, c: Conn, permits: bool, now: real)
    requires c in conns && SlotsBalance(l, h, conns)
    ensures var (h', p) := Next(l, h, c, conns[c], permits, now);
            SlotsBalance(l, h', conns[c := conns[c].(phase := p)])
  {
    var (h', p) := Next(l, h, c, conns[c], permits, now);
    NextByHoldings(l, h, c, conns[c], permits, now);
    SizeAfterMove(SlotHolders(conns), SlotHolders(conns[c := conns[c].(phase := p)]), c, p.HoldsSlot());
  }

  lemma ClientsStayBalanced(l: Limits, h: Hub, conns: map<Conn, Connection>, c: Conn, permits: bool, now: real)
    requires c in conns && ClientsBalance(l, h, conns)
    ensures var (h', p) := Next(l, h, c, conns[c], permits, now);
            ClientsBalance(l, h', conns[c := conns[c].(phase := p)])
  {
    var (h', p) := Next(l, h, c, conns[c], permits, now);
    NextByHoldings(l, h, c, conns[c], permits, now);
    forall k ensures Count(h', k) == |ClientHolders(conns[c := conns[c].(phase := p)], k)| <= l.maxPerClient {
      OneClientStaysBalanced(l, h, conns, c, p, h', k);
    }
  }

  lemma OneClientStaysBalanced(l: Limits, h: Hub, conns: map<Conn, Connection>, c: Conn, p: Phase, h': Hub, k: Id)
    requires c in conns && Count(h, k) == |ClientHolders(conns, k)| <= l.maxPerClient
    requires p.HoldsClient() == conns[c].phase.HoldsClient() ==> h'.perClient == h.perClient
    requires p.HoldsClient() && !conns[c].phase.HoldsClient() ==>
               Count(h, conns[c].client) < l.maxPerClient && h'.perClient == TakeClient(h, conns[c].client).perClient
    requires !p.HoldsClient() && conns[c].phase.HoldsClient() ==>
               h'.perClient == DropClient(h, conns[c].client).perClient
    ensures Count(h', k) == |ClientHolders(conns[c := conns[c].(phase := p)], k)| <= l.maxPerClient
  {
    ClientHoldersMove(conns, c, p, k);
    if conns[c].client == k { assert c in ClientHolders(conns, k) <==> conns[c].phase.HoldsClient(); }
  }

  lemma ClientHoldersMove(conns: map<Conn, Connection>, c: Conn, p: Phase, k: Id)
    requires c in conns
    ensures var after := ClientHolders(conns[c := conns[c].(phase := p)], k);
            if conns[c].client != k then after == ClientHolders(conns, k)
            else |after| == |ClientHolders(conns, k)| - (if c in ClientHolders(conns, k) then 1 else 0)
                            + (if p.HoldsClient() then 1 else 0)
  {
    var moved := conns[c].(phase := p);
    ClientHoldersUpdate(conns, c, moved, k);
    if conns[c].client == k {
      SizeAfterMove(ClientHolders(conns, k), ClientHolders(conns[c := moved], k), c, p.HoldsClient());
    } else {
      assert c !in ClientHolders(conns, k);
    }
  }

  lemma ClientHoldersUpdate(conns: map<Conn, Connection>, c: Conn, x: Connection, k: Id)
    ensures ClientHolders(conns[c := x], k)
            == ClientHolders(conns, k) - {c} + (if x.client == k && x.phase.HoldsClient() then {c} else {})
  {
  }

  lemma TrackingStaysBalanced(l: Limits, h: Hub, conns: map<Conn, Connection>, c: Conn, permits: bool, now: real)
    requires c in conns && TrackingBalances(h, conns)
    ensures var (h', p) := Next(l, h, c, conns[c], permits, now);
            TrackingBalances(h', conns[c := conns[c].(phase := p)])
  {
    var (h', p) := Next(l, h, c, conns[c], permits, now);
    NextTracks(l, h, c, conns[c], permits, now);
    assert TrackedOnes(conns[c := conns[c].(phase := p)])
        == TrackedOnes(conns) - {c} + (if p.IsTracked() then {c} else {});
    assert conns[c].phase.IsTracked() <==> c in TrackedOnes(conns);
  }

  lemma CutsStayOnce(l: Limits, s: State, a: Action)
    requires CutOnce(s) && TrackingBalances(s.hub, s.conns)
    ensures CutOnce(Apply(l, s, a))
  {
    assert forall c :: c in s.hub.active ==> c in TrackedOnes(s.conns);
    match a
    case Accept(_, _) =>
      assert forall d :: Cuts(Apply(l, s, a), d) == Cuts(s, d);
    case Move(c, permits, now) =>
      if c in s.conns { NextTracks(l, s.hub, c, s.conns[c], permits, now); }
      assert forall d :: Cuts(Apply(l, s, a), d) == Cuts(s, d);
    case Janitor(limit) => JanitorCutsOnce(l, s, limit);
  }

  lemma JanitorCutsOnce(l: Limits, s: State, limit: real)
    requires CutOnce(s) && forall c :: c in s.hub.active ==> c in TrackedOnes(s.conns)
    ensures CutOnce(Apply(l, s, Janitor(limit)))
  {
    var s' := Apply(l, s, Janitor(limit));
    var late := Expired(s.hub, limit);
    forall c ensures Cuts(s', c) == Cuts(s, c) + if c in late then 1 else 0 {
      assert c in s'.cuts <==> c in s.cuts.Keys + late;
    }
  }

  lemma StepKeepsInv(l: Limits, s: State, a: Action)
    requires Inv(l, s)
    ensures Inv(l, Apply(l, s, a))
  {
    CutsStayOnce(l, s, a);
    match a
    case Accept(c, client) =>
      if c !in s.conns { AcceptKeepsBalance(l, s, c, client); }
    case Move(c, permits, now) =>
      if c in s.conns {
        SlotsStayBalanced(l, s.hub, s.conns, c, permits, now);
        ClientsStayBalanced(l, s.hub, s.conns, c, permits, now);
        TrackingStaysBalanced(l, s.hub, s.conns, c, permits, now);
      }
    case Janitor(limit) =>
      assert Apply(l, s, a).hub.active.Keys == s.hub.active.Keys;
      assert forall k :: Count(Apply(l, s, a).hub, k) == Count(s.hub, k);
  }

  lemma AcceptKeepsBalance(l: Limits, s: State, c: Conn, client: Id)
    requires Inv(l, s) && c !in s.conns
    ensures var conns' := s.conns[c := Connection(client, Arrived)];
            SlotsBalance(l, s.hub, conns') && ClientsBalance(l, s.hub, conns') && TrackingBalances(s.hub, conns')
  {
    NewcomerHoldsNothing(s.conns, c, client);
  }

  lemma NewcomerHoldsNothing(conns: map<Conn, Connection>, c: Conn, client: Id)
    requires c !in conns
    ensures var conns' := conns[c := Connection(client, Arrived)];
            && SlotHolders(conns') == SlotHolders(conns) && TrackedOnes(conns') == TrackedOnes(conns)
            && forall k :: ClientHolders(conns', k) == ClientHolders(conns, k)
  {
  }

  /** In every interleaving of accepts, workers and janitor passes: slots in use never exceed the
      limit, no client exceeds its own, every counter is the number of connections that hold it,
      the semaphore is never over-released, and no connection is cut twice. */
  lemma {:induction false} AccountingHolds(l: Limits, s: State, acts: seq<Action>)
    requires Inv(l, s)
    ensures Inv(l, Run(l, s, acts))
    decreases |acts|
  {
    if acts != [] {
      StepKeepsInv(l, s, acts[0]);
      AccountingHolds(l, Apply(l, s, acts[0]), acts[1..]);
    }
  }

  lemma InitialBalances(l: Limits)
    ensures Inv(l, Initial(l))
  {
  }

  /** When every connection has been let go, everything taken has been returned. */
  lemma IdleMeansEmpty(l: Limits, acts: seq<Action>, s: State)
    requires s == Run(l, Initial(l), acts) && forall c :: c in s.conns ==> s.conns[c].phase.Gone?
    ensures s.hub == Hub(l.maxConnections, map[], map[], {}, 0)
  {
    InitialBalances(l);
    AccountingHolds(l, Initial(l), acts);
    NobodyHolds(s.conns);
    forall k ensures k !in s.hub.perClient {
      assert Count(s.hub, k) == |ClientHolders(s.conns, k)|;
    }
    assert s.hub.perClient == map[] && s.hub.active == map[];
  }

  lemma NobodyHolds(conns: map<Conn, Connection>)
    requires forall c :: c in conns ==> conns[c].phase.Gone?
    ensures SlotHolders(conns) == {} && TrackedOnes(conns) == {} && forall k :: ClientHolders(conns, k) == {}
  {
  }

  /** Limits spelled out for a reachable state. */
  lemma LimitsAreRespected(l: Limits, acts: seq<Action>, client: Id, c: Conn)
    ensures var s := Run(l, Initial(l), acts);
            && |SlotHolders(s.conns)| == l.maxConnections - s.hub.slots <= l.maxConnections
            && |ClientHolders(s.conns, client)| == Count(s.hub, client) <= l.maxPerClient
            && s.hub.faults == 0 && Cuts(s, c) <= 1
  {
    InitialBalances(l);
    AccountingHolds(l, Initial(l), acts);
    assert Count(Run(l, Initial(l), acts).hub, client) == |ClientHolders(Run(l, Initial(l), acts).conns, client)|;
  }

  // ----- the hub object ---------------------------------------------------------------------

  class HardenedHub {
    const limits: Limits
    var slots: nat
    var perClient: map<Id, nat>
    var active: map<Conn, Stamp>
    var workers: set<Conn>

    ghost function State(): Hub reads this { Hub(slots, perClient, active, workers, 0) }

    constructor (limits: Limits)
      ensures this.limits == limits && State() == Hub(limits.maxConnections, map[], map[], {}, 0)
    {
      this.limits := limits;
      slots, perClient, active, workers := limits.maxConnections, map[], map[], {};
    }

    method ReleaseClient(client: Id)
      modifies this`perClient
      ensures State() == DropClient(old(State()), client)
      ensures forall k :: k != client ==> (k in perClient <==> k in old(perClient))
                                          && (k in perClient ==> perClient[k] == old(perClient)[k])
      ensures client in perClient <==> client in old(perClient) && old(perClient)[client] > 1
      ensures client in perClient ==> perClient[client] == old(perClient)[client] - 1
    {
      var count: int := if client in perClient then perClient[client] else 0;
      var left := count - 1;
      if left <= 0 { perClient := perClient - {client}; } else { perClient := perClient[client := left]; }
    }

    /** The accept path with nothing interleaved. Every rejection leaves the hub exactly as it
        was; an admission takes one slot, one client count and one tracking entry. */
    method ProcessRequest(conn: Conn, client: Id, allowed: bool, starts: bool, now: real) returns (admitted: bool)
      requires conn !in active && conn !in workers
      requires forall k :: k in perClient ==> perClient[k] > 0
      modifies this
      ensures admitted <==> allowed && starts && old(slots) > 0
                            && (if client in old(perClient) then old(perClient)[client] else 0) < limits.maxPerClient
      ensures !admitted ==> State() == old(State())
      ensures admitted ==>
                && slots == old(slots) - 1 && workers == old(workers) + {conn}
                && active == old(active)[conn := At(now)]
                && perClient == old(perClient)[client := if client in old(perClient)
                                                         then old(perClient)[client] + 1 else 1]
    {
      if !allowed { return false; }
      var count := if client in perClient then perClient[client] else 0;
      if count >= limits.maxPerClient { return false; }
      perClient := perClient[client := count + 1];
      if slots == 0 {
        ReleaseClient(client);
        assert perClient == old(perClient);
        return false;
      }
      slots := slots - 1;
      active := active[conn := At(now)];
      workers := workers + {conn};
      if !starts {
        active := active - {conn};
        workers := workers - {conn};
        slots := slots + 1;
        ReleaseClient(client);
        assert perClient == old(perClient) && active == old(active) && workers == old(workers);
        return false;
      }
      return true;
    }

    /** One pass of `_janitor`: marks every connection past its deadline, and cuts those. No later
        pass finds a marked connection again. */
    method JanitorPass(limit: real) returns (cut: set<Conn>)
      modifies this`active
      ensures cut == Expired(old(State()), limit)
      ensures State() == MarkLate(old(State()), limit)
      ensures forall later :: cut !! Expired(State(), later)
      ensures forall c :: c in cut <==> c in old(active) && old(active)[c].At? && old(active)[c].seconds < limit
      ensures active.Keys == old(active).Keys
      ensures forall c :: c in active ==> active[c] == if c in cut then Infinite else old(active)[c]
    {
      cut := set c | c in active && active[c].At? && active[c].seconds < limit;
      var todo := cut;
      while todo != {}
        invariant todo <= cut && active.Keys == old(active).Keys
        invariant forall c :: c in active ==> active[c] == if c in cut - todo then Infinite else old(active)[c]
        decreases todo
      {
        var c :| c in todo;
        active := active[c := Infinite];
        todo := todo - {c};
      }
      assert active == MarkLate(old(State()), limit).active;
    }

    /** The worker's `finally` blocks; with the connection's slot out, the release cannot overflow. */
    method WorkerEnds(conn: Conn, client: Id)
      requires slots < limits.maxConnections
      modifies this
      ensures State() == DropClient(DropSlot(limits, Untrack(old(State()), conn)), client)
      ensures slots == old(slots) + 1 && active == old(active) - {conn} && workers == old(workers) - {conn}
      ensures perClient == if client in old(perClient) && old(perClient)[client] > 1
                           then old(perClient)[client := old(perClient)[client] - 1] else old(perClient) - {client}
    {
      active := active - {conn};
      workers := workers - {conn};
      slots := slots + 1;
      ReleaseClient(client);
    }
  }

  /** A worker's end returns exactly what the admission took, whatever the janitor did to it. */
  lemma EndUndoesAdmission(l: Limits, h: Hub, conn: Conn, client: Id, now: real, stamp: Stamp)
    requires 0 < h.slots <= l.maxConnections && conn !in h.active && conn !in h.workers
    requires forall k :: k in h.perClient ==> h.perClient[k] > 0
    ensures var held := if client in h.perClient then h.perClient[client] else 0;
            var taken := Hub(h.slots - 1, h.perClient[client := held + 1], h.active[conn := At(now)],
                             h.workers + {conn}, h.faults);
            && Track(TakeSlot(TakeClient(h, client)), conn, now) == taken
            && DropClient(DropSlot(l, Untrack(taken.(active := taken.active[conn := stamp]), conn)), client) == h
  {
    var taken := Track(TakeSlot(TakeClient(h, client)), conn, now);
    var marked := taken.(active := taken.active[conn := stamp]);
    assert Untrack(marked, conn).active == h.active && Untrack(marked, conn).workers == h.workers;
    assert DropClient(taken, client).perClient == h.perClient;
  }
}
