/** Promotion and reconciliation of the MASTER role (nexus_distributed_core.py, the role part
    of one node's polling loop). What the hub lists, what a probe answers and the clock come
    from an arbitrary environment. */
module Leadership {
  import opened Basics
  import opened ClusterMode

  // ----- the hub's listing --------------------------------------------------------------------

  datatype RoleName = MASTER | FOLLOWER | OTHER

  /** The role text of a record: its upper-cased value, and whether it was upper case already. */
  datatype RoleText = RoleText(name: RoleName, exact: bool)

  /** A record of the listing: a mapping with its role and the node id it claims, or not a mapping. */
  datatype Info = Record(role: RoleText, claimed: Option<Id>) | NotAMapping

  datatype Peer = Peer(key: Id, info: Info) {
    predicate Listed() { info.Record? }
    predicate Has(role: RoleName) { Listed() && info.role.name == role }
    function Claims(): Id
      requires Listed()
    {
      if info.claimed.Some? then info.claimed.value else key
    }
  }

  /** A dictionary of records, in its order. */
  type Listing = seq<Peer>

  datatype Role = Leader | Other

  // ----- reconciliation ---------------------------------------------------------------------------

  /** A record that makes a local MASTER yield. */
  predicate Dominates(p: Peer, id: Id) {
    p.key != id && p.Has(MASTER) && LexLt(id, p.Claims())
  }

  /** Another node's record says MASTER in any case, under an id that sorts after mine. */
  ghost predicate AboveMe(p: Peer, id: Id) {
    && p.key != id && p.info.Record? && p.info.role.name == MASTER
    && LexLt(id, match p.info.claimed case Some(claimed) => claimed case None => p.key)
  }

  predicate Dominated(peers: Listing, id: Id) { exists i :: 0 <= i < |peers| && Dominates(peers[i], id) }

  // ----- one poll ------------------------------------------------------------------------------------

  /** The environment's part of one poll: what each request answered, and the clock. */
  datatype Input = Input(
    registerOk: bool, now: real, heartbeatOk: bool, peers: Listing, announceOk: bool, probeOk: bool)

  datatype Node = Node(id: Id, role: Role, registered: bool, lastHeartbeat: real, config: ClusterConfig)

  datatype Exit =
    | NotRegistered | HeartbeatLost | YieldNotAnnounced | ListingMalformed
    | Leads | Acknowledged | StillWaiting | Deferred | NoMajority | NoQuorum | Promoted

  /** The first other node the listing calls MASTER, in exactly that spelling; an error when a
      record that is not a mapping comes first. */
  function FirstMaster(peers: Listing, id: Id): (r: Result<Option<Id>, ()>)
    ensures r.Ok? && r.value.Some? ==> r.value.value != id
                                       && exists p :: p in peers && p.key == r.value.value && p.Has(MASTER)
    ensures r.Err? ==> exists p :: p in peers && !p.Listed()
  {
    if peers == [] then Ok(None)
    else if !peers[0].Listed() then Err(())
    else if peers[0].info.role == RoleText(MASTER, true) && peers[0].key != id then Ok(Some(peers[0].key))
    else FirstMaster(peers[1..], id)
  }

  /** Another node's record whose role is spelled exactly MASTER. */
  ghost predicate ExactMaster(p: Peer, id: Id) {
    p.key != id && p.info.Record? && p.info.role.name == MASTER && p.info.role.exact
  }

  /** Record m is the first such, and only mappings come before it. */
  ghost predicate IsFirst(peers: Listing, id: Id, m: nat) {
    && m < |peers| && ExactMaster(peers[m], id)
    && forall j :: 0 <= j < m ==> peers[j].info.Record? && !ExactMaster(peers[j], id)
  }

  /** A record that is not a mapping, with no such record before it. */
  ghost predicate IsObstacle(peers: Listing, id: Id, m: nat) {
    && m < |peers| && peers[m].info.NotAMapping?
    && forall j :: 0 <= j < m ==> !ExactMaster(peers[j], id)
  }

  lemma {:induction false} ObstacleIsMet(peers: Listing, id: Id)
    ensures FirstMaster(peers, id).Err? <==> exists m: nat :: IsObstacle(peers, id, m)
  {
    if peers != [] {
      var rest := peers[1..];
      if peers[0].info.NotAMapping? {
        assert IsObstacle(peers, id, 0);
      } else if !ExactMaster(peers[0], id) {
        ObstacleIsMet(rest, id);
        if m: nat :| IsObstacle(rest, id, m) { assert IsObstacle(peers, id, m + 1); }
        if m: nat :| IsObstacle(peers, id, m) { assert IsObstacle(rest, id, m - 1); }
      }
    }
  }

  lemma {:induction false} FirstIsFound(peers: Listing, id: Id, m: nat)
    requires IsFirst(peers, id, m)
    ensures FirstMaster(peers, id) == Ok(Some(peers[m].key))
  {
    if m > 0 {
      assert IsFirst(peers[1..], id, m - 1);
      FirstIsFound(peers[1..], id, m - 1);
    }
  }

  lemma {:induction false} FoundIsFirst(peers: Listing, id: Id) returns (m: nat)
    requires FirstMaster(peers, id).Ok? && FirstMaster(peers, id).value.Some?
    ensures IsFirst(peers, id, m) && FirstMaster(peers, id).value.value == peers[m].key
  {
    if ExactMaster(peers[0], id) {
      m := 0;
    } else {
      m := FoundIsFirst(peers[1..], id);
      m := m + 1;
    }
  }

  lemma {:induction false} NoneMeansNone(peers: Listing, id: Id)
    ensures FirstMaster(peers, id) == Ok(None)
            <==> forall j :: 0 <= j < |peers| ==> peers[j].info.Record? && !ExactMaster(peers[j], id)
  {
    if peers != [] && peers[0].info.Record? && !ExactMaster(peers[0], id) {
      NoneMeansNone(peers[1..], id);
      assert forall j :: 0 < j < |peers| ==> peers[j] == peers[1..][j - 1];
    }
  }

  /** The key of the first such record is found, and nothing exactly when there is none; the search
      fails exactly when a record that is not a mapping comes before. */
  lemma FirstMasterAnswers(peers: Listing, id: Id)
    ensures FirstMaster(peers, id).Err? <==> exists m: nat :: IsObstacle(peers, id, m)
    ensures forall m: nat :: IsFirst(peers, id, m) ==> FirstMaster(peers, id) == Ok(Some(peers[m].key))
    ensures FirstMaster(peers, id) == Ok(None)
            <==> forall j :: 0 <= j < |peers| ==> peers[j].info.Record? && !ExactMaster(peers[j], id)
    ensures FirstMaster(peers, id).Ok? && FirstMaster(peers, id).value.Some? ==> exists m: nat :: IsFirst(peers, id, m)
  {
    ObstacleIsMet(peers, id);
    NoneMeansNone(peers, id);
    forall m: nat | IsFirst(peers, id, m) ensures FirstMaster(peers, id) == Ok(Some(peers[m].key)) {
      FirstIsFound(peers, id, m);
    }
    if FirstMaster(peers, id).Ok? && FirstMaster(peers, id).value.Some? { var m := FoundIsFirst(peers, id); }
  }

  /** The nodes listed as FOLLOWER, and the node itself. */
  function Eligible(peers: Listing, id: Id): set<Id> {
    (set p | p in peers && p.Has(FOLLOWER) :: p.key) + {id}
  }

  lemma EligibleGrows(peers: Listing, p: Peer, id: Id)
    ensures Eligible(peers + [p], id) == Eligible(peers, id) + if p.Has(FOLLOWER) then {p.key} else {}
  {
    assert forall q :: q in peers + [p] <==> q in peers || q == p;
    assert p in peers + [p];
  }

  /** Every member of the listing, and the node itself. */
  function Visible(peers: Listing, id: Id): set<Id> {
    (set p | p in peers && p.Listed() :: p.key) + {id}
  }

  /** `single` while others are visible. */
  predicate SingleConflictSeen(config: ClusterConfig, visible: set<Id>) {
    config.mode == Single && |visible| > 1
  }

  /** Why a follower that found its master missing does or does not take the role. */
  ghost function Verdict(n: Node, peers: Listing): Exit {
    if !IsGreatest(n.id, Eligible(peers, n.id)) then Deferred
    else if n.config.majority.None? || n.config.majority.value < 1
            || SingleConflictSeen(n.config, Visible(peers, n.id)) then NoMajority
    else if |Visible(peers, n.id)| < n.config.majority.value then NoQuorum
    else Promoted
  }

  /** The role part of a poll, after reconciliation: no probe is sent for an empty name. */
  ghost function Follow(n: Node, i: Input): (Node, Exit) {
    var master := FirstMaster(i.peers, n.id);
    if master.Err? then (n, ListingMalformed)
    else if n.role == Leader then (n, Leads)
    else if master.value.Some? && master.value.value != [] && i.probeOk then
      (n.(lastHeartbeat := i.now), Acknowledged)
    else if i.now - n.lastHeartbeat <= 15.0 then (n, StillWaiting)
    else
      var exit := Verdict(n, i.peers);
      (if exit == Promoted then n.(role := Leader) else n, exit)
  }

  ghost function Reconciled(n: Node, peers: Listing): Node {
    if n.role == Leader && Dominated(peers, n.id) then n.(role := Other) else n
  }

  /** One iteration of `async_polling_loop`. */
  ghost function Poll(n: Node, i: Input): (Node, Exit) {
    if !n.registered && !i.registerOk then (n, NotRegistered)
    else if !i.heartbeatOk then (n.(registered := false), HeartbeatLost)
    else
      var m := Reconciled(n, i.peers).(registered := true);
      if m.role != n.role && !i.announceOk then (m.(registered := false), YieldNotAnnounced)
      else Follow(m, i)
  }

  /** The node object; `View` is its value. */
  class NexusNode {
    const id: Id
    const config: ClusterConfig
    var role: Role
    var registered: bool
    var lastHeartbeat: real
    var peers: Listing

    function View(): Node
      reads this
    {
      Node(id, role, registered, lastHeartbeat, config)
    }

    constructor (id: Id, config: ClusterConfig, role: Role, now: real)
      ensures View() == Node(id, role, false, now, config) && peers == []
    {
      this.id, this.config, this.role := id, config, role;
      registered, lastHeartbeat, peers := false, now, [];
    }

    method ReconcileMasterRole(view: Listing) returns (changed: bool)
      modifies this`role
      ensures View() == Reconciled(old(View()), view)
      ensures changed <==> role != old(role)
      ensures changed <==> old(role) == Leader && exists k :: 0 <= k < |view| && AboveMe(view[k], id)
    {
      if role != Leader { return false; }
      for k := 0 to |view|
        invariant role == Leader && forall j :: 0 <= j < k ==> !Dominates(view[j], id)
      {
        if view[k].key == id { continue; }
        if !view[k].Listed() { continue; }
        if view[k].info.role.name != MASTER { continue; }
        if LexLt(id, view[k].Claims()) {
          role := Other;
          return true;
        }
      }
      return false;
    }

    /** The followers of the listing other than the node, in its order, then the node. */
    method EligibleCandidates(view: Listing) returns (ids: seq<Id>)
      ensures ids != [] && (set n | n in ids) == Eligible(view, id)
    {
      ids := [];
      for k := 0 to |view|
        invariant (set n | n in ids) + {id} == Eligible(view[..k], id)
      {
        assert view[..k + 1] == view[..k] + [view[k]];
        EligibleGrows(view[..k], view[k], id);
        ghost var before := ids;
        if view[k].key != id && view[k].Has(FOLLOWER) {
          ids := ids + [view[k].key];
          assert (set n | n in ids) == (set n | n in before) + {view[k].key};
        }
      }
      assert view[..|view|] == view;
      ids := ids + [id];
    }

    method TryPromote(view: Listing) returns (exit: Exit)
      requires role == Other
      modifies this`role
      ensures exit == Verdict(old(View()), view)
      ensures View() == old(View()).(role := if exit == Promoted then Leader else Other)
    {
      var ids := EligibleCandidates(view);
      var candidate := Greatest(ids);
      if candidate != id {
        assert !IsGreatest(id, Eligible(view, id)) by {
          if IsGreatest(id, Eligible(view, id)) { GreatestIsUnique(id, candidate, Eligible(view, id)); }
        }
        return Deferred;
      }
      var visible := Visible(view, id);
      if config.majority.None? || config.majority.value < 1 || (config.mode == Single && |visible| > 1) {
        return NoMajority;
      }
      if |visible| < config.majority.value { return NoQuorum; }
      role := Leader;
      return Promoted;
    }

    method PollOnce(i: Input) returns (exit: Exit)
      modifies this
      ensures (View(), exit) == Poll(old(View()), i)
    {
      if !registered {
        registered := i.registerOk;
        if !registered { return NotRegistered; }
      }
      if !i.heartbeatOk {
        registered := false;
        return HeartbeatLost;
      }
      peers := i.peers;
      var changed := ReconcileMasterRole(i.peers);
      if changed && !i.announceOk {
        registered := false;
        return YieldNotAnnounced;
      }
      var master := FirstMaster(i.peers, id);
      if master.Err? { return ListingMalformed; }
      var reachable := false;
      if master.value.Some? && master.value.value != [] && role == Other && i.probeOk {
        lastHeartbeat := i.now;
        reachable := true;
      }
      if role == Leader { return Leads; }
      if reachable { return Acknowledged; }
      if i.now - lastHeartbeat <= 15.0 { return StillWaiting; }
      exit := TryPromote(i.peers);
    }
  }

  // ----- reconciliation keeps the greatest -----------------------------------------------------

  /** The true masters appear in n's listing as MASTER records under their own names. */
  ghost predicate ListsAll(peers: Listing, id: Id, masters: set<Id>) {
    forall m :: m in masters && m != id ==> exists p :: p in peers && p.key == m && p.Has(MASTER) && p.Claims() == m
  }

  /** Who is still MASTER after every master reconciled on its own listing. */
  ghost function Remaining(masters: set<Id>, views: map<Id, Listing>): set<Id>
    requires masters <= views.Keys
  {
    set m | m in masters && !Dominated(views[m], m)
  }

  /** When every listing shows all true masters, at most the greatest remains; and it remains
      exactly when no record in its own listing claims a greater MASTER. */
  lemma OnlyTheGreatestRemains(masters: set<Id>, views: map<Id, Listing>, g: Id)
    requires masters <= views.Keys && IsGreatest(g, masters)
    requires forall m :: m in masters ==> ListsAll(views[m], m, masters)
    ensures Remaining(masters, views) == if Dominated(views[g], g) then {} else {g}
  {
    forall m | m in masters && m != g ensures Dominated(views[m], m) {
      var p :| p in views[m] && p.key == g && p.Has(MASTER) && p.Claims() == g;
      var i :| 0 <= i < |views[m]| && views[m][i] == p;
      assert Dominates(views[m][i], m);
    }
  }

  /** With listings that show true masters only, exactly the greatest remains. */
  lemma TruthfulListingsKeepTheGreatest(masters: set<Id>, views: map<Id, Listing>, g: Id)
    requires masters <= views.Keys && IsGreatest(g, masters)
    requires forall m :: m in masters ==> ListsAll(views[m], m, masters)
    requires forall p :: p in views[g] && p.Has(MASTER) ==> p.Claims() in masters
    ensures Remaining(masters, views) == {g}
  {
    OnlyTheGreatestRemains(masters, views, g);
    forall i | 0 <= i < |views[g]| ensures !Dominates(views[g][i], g) {
      var p := views[g][i];
      assert p in views[g];
      if p.Has(MASTER) && LexLt(g, p.Claims()) { LexAntisymmetric(g, p.Claims()); }
    }
  }

  /** One record that claims a greater MASTER, though there is none, leaves nobody. */
  lemma NobodyMayRemain() returns (masters: set<Id>, views: map<Id, Listing>)
    ensures masters <= views.Keys && masters != {} && Remaining(masters, views) == {}
    ensures forall m :: m in masters ==> ListsAll(views[m], m, masters)
  {
    var phantom := Peer(['b'], Record(RoleText(MASTER, true), None));
    masters, views := {['a']}, map[['a'] := [phantom]];
    assert LexLt(['a'], ['b']);
    assert Dominates(views[['a']][0], ['a']);
    LexTotal(['a'], ['a']);
    OnlyTheGreatestRemains(masters, views, ['a']);
  }

  // ----- promotion --------------------------------------------------------------------------------

  /** The first other MASTER listed has a name, and answered its probe. */
  ghost predicate MasterAnswers(n: Node, i: Input) {
    i.probeOk && exists m: nat :: IsFirst(i.peers, n.id, m) && i.peers[m].key != []
  }

  ghost predicate ListingReads(peers: Listing, id: Id) { !exists m: nat :: IsObstacle(peers, id, m) }

  lemma MasterAnswersMeans(n: Node, i: Input)
    ensures FirstMaster(i.peers, n.id).Err? <==> !ListingReads(i.peers, n.id)
    ensures var master := FirstMaster(i.peers, n.id);
            MasterAnswers(n, i) <==> master.Ok? && master.value.Some? && master.value.value != [] && i.probeOk
  {
    FirstMasterAnswers(i.peers, n.id);
  }

  /** Who counts as a candidate and who as a member, record by record. */
  lemma CandidatesAndMembers(peers: Listing, id: Id, x: Id)
    ensures x in Eligible(peers, id) <==>
            x == id || exists p :: p in peers && p.key == x && p.info.Record? && p.info.role.name == FOLLOWER
    ensures x in Visible(peers, id) <==> x == id || exists p :: p in peers && p.key == x && p.info.Record?
  {
  }

  /** A majority is configured and visible, and `single` sees nobody else. */
  ghost predicate Backed(n: Node, peers: Listing) {
    && n.config.majority.Some? && 1 <= n.config.majority.value <= |Visible(peers, n.id)|
    && (n.config.mode == Single ==> |Visible(peers, n.id)| <= 1)
  }

  lemma VerdictIsPromoted(n: Node, peers: Listing)
    ensures Verdict(n, peers) == Promoted <==> IsGreatest(n.id, Eligible(peers, n.id)) && Backed(n, peers)
  {
  }

  /** Exactly when a poll makes a node MASTER that was not, or that had just yielded. */
  lemma PromotesExactlyWhen(n: Node, i: Input)
    ensures Poll(n, i).1 == Promoted <==>
            && (n.registered || i.registerOk) && i.heartbeatOk
            && (n.role == Other || (Dominated(i.peers, n.id) && i.announceOk))
            && ListingReads(i.peers, n.id) && !MasterAnswers(n, i)
            && i.now - n.lastHeartbeat > 15.0
            && IsGreatest(n.id, Eligible(i.peers, n.id)) && Backed(n, i.peers)
    ensures Poll(n, i).1 == Promoted ==> Poll(n, i).0.role == Leader
  {
    VerdictIsPromoted(n, i.peers);
    var m := Reconciled(n, i.peers).(registered := true);
    assert Verdict(m, i.peers) == Verdict(n, i.peers);
    MasterAnswersMeans(n, i);
  }

  /** The poll gets as far as its listing, the node is no MASTER then, or no longer, and that has
      been announced. */
  ghost predicate Follows(n: Node, i: Input) {
    && (n.registered || i.registerOk) && i.heartbeatOk
    && (n.role == Other || (Dominated(i.peers, n.id) && i.announceOk))
  }

  /** Exactly when a poll ends with the master acknowledged: the clock is set back to now, and the
      node does not lead. */
  lemma AcknowledgesExactlyWhen(n: Node, i: Input)
    ensures Poll(n, i).1 == Acknowledged <==>
            Follows(n, i) && ListingReads(i.peers, n.id) && MasterAnswers(n, i)
    ensures Poll(n, i).1 == Acknowledged ==> Poll(n, i).0 == Node(n.id, Other, true, i.now, n.config)
  {
    MasterAnswersMeans(n, i);
  }

  /** A follower whose master answers stays one: the first record under another key spelled exactly
      MASTER has a name, only mappings come before it, and the probe succeeds. */
  lemma AnsweringMasterIsFollowed(n: Node, i: Input, m: nat)
    requires n.role == Other && n.registered && i.heartbeatOk && i.probeOk
    requires m < |i.peers| && i.peers[m].key != n.id && i.peers[m].key != []
    requires i.peers[m].info.Record? && i.peers[m].info.role == RoleText(MASTER, true)
    requires forall j :: 0 <= j < m ==> i.peers[j].info.Record?
    requires forall j :: 0 <= j < m && i.peers[j].info.role == RoleText(MASTER, true) ==> i.peers[j].key == n.id
    ensures Poll(n, i) == (n.(lastHeartbeat := i.now), Acknowledged)
  {
    assert IsFirst(i.peers, n.id, m);
    assert ExactMaster(i.peers[m], n.id);
    AcknowledgesExactlyWhen(n, i);
  }

  /** The other ends of a poll, each with its exact condition; what remains is for promotion. */
  lemma OtherEnds(n: Node, i: Input)
    ensures var registered := n.registered || i.registerOk;
            var stepsDown := n.role == Leader && Dominated(i.peers, n.id);
            var (m, exit) := Poll(n, i);
            && (exit == NotRegistered <==> !registered)
            && (exit == HeartbeatLost <==> registered && !i.heartbeatOk)
            && (exit == YieldNotAnnounced <==> registered && i.heartbeatOk && stepsDown && !i.announceOk)
            && (exit == Leads <==> registered && i.heartbeatOk && n.role == Leader && !stepsDown
                                   && ListingReads(i.peers, n.id))
            && (exit == ListingMalformed <==> registered && i.heartbeatOk && (stepsDown ==> i.announceOk)
                                              && !ListingReads(i.peers, n.id))
            && (exit == StillWaiting <==> Follows(n, i) && ListingReads(i.peers, n.id) && !MasterAnswers(n, i)
                                          && i.now - n.lastHeartbeat <= 15.0)
            && (m.registered <==> registered && i.heartbeatOk && exit != YieldNotAnnounced)
            && (m.role == Leader <==>
                exit == Promoted || (n.role == Leader && !(registered && i.heartbeatOk && stepsDown)))
  {
    MasterAnswersMeans(n, i);
  }

  ghost predicate IsDue(n: Node, i: Input) {
    Follows(n, i) && ListingReads(i.peers, n.id) && !MasterAnswers(n, i) && i.now - n.lastHeartbeat > 15.0
  }

  lemma DueIsJudged(n: Node, i: Input)
    requires IsDue(n, i)
    ensures Poll(n, i).1 == Verdict(n, i.peers)
  {
    MasterAnswersMeans(n, i);
    var m := Reconciled(n, i.peers).(registered := true);
    SameVerdict(n, m, i.peers);
    assert Poll(n, i) == Follow(m, i);
  }

  lemma SameVerdict(n: Node, m: Node, peers: Listing)
    requires n.id == m.id && n.config == m.config
    ensures Verdict(n, peers) == Verdict(m, peers)
  {
  }

  ghost predicate TooFewVisible(n: Node, peers: Listing) {
    && n.config.majority.Some? && |Visible(peers, n.id)| < n.config.majority.value
    && (n.config.mode == Single ==> |Visible(peers, n.id)| <= 1)
  }

  lemma VerdictMeans(n: Node, peers: Listing)
    ensures Verdict(n, peers) == Deferred <==> !IsGreatest(n.id, Eligible(peers, n.id))
    ensures Verdict(n, peers) == NoQuorum <==> IsGreatest(n.id, Eligible(peers, n.id)) && TooFewVisible(n, peers)
    ensures Verdict(n, peers) in {Deferred, NoMajority, NoQuorum, Promoted}
  {
    var visible := Visible(peers, n.id);
    assert n.id in visible;
    assert |visible| >= 1;
  }

  /** Why a follower that is due does not promote: a greater candidate, no usable majority, or too
      few visible members. */
  lemma HoldsBackExactlyWhen(n: Node, i: Input)
    requires IsDue(n, i)
    ensures Poll(n, i).1 == Deferred <==> !IsGreatest(n.id, Eligible(i.peers, n.id))
    ensures Poll(n, i).1 == NoQuorum <==> IsGreatest(n.id, Eligible(i.peers, n.id)) && TooFewVisible(n, i.peers)
    ensures Poll(n, i).1 in {Deferred, NoMajority, NoQuorum, Promoted}
  {
    DueIsJudged(n, i);
    VerdictMeans(n, i.peers);
  }

  /** A poll changes the last acknowledgement exactly when the master answered. */
  lemma PollKeepsHeartbeat(n: Node, i: Input)
    ensures var (m, exit) := Poll(n, i);
            && m.id == n.id && m.config == n.config
            && m.lastHeartbeat == if exit == Acknowledged then i.now else n.lastHeartbeat
  {
  }

  /** A poll makes a node MASTER in no other way. */
  lemma MastersArePromoted(n: Node, i: Input)
    requires Poll(n, i).0.role == Leader
    ensures Poll(n, i).1 == Promoted || n.role == Leader
    ensures Poll(n, i).1 in {NotRegistered, HeartbeatLost, Promoted} || !Dominated(i.peers, n.id)
  {
  }

  /** Two nodes that one listing shows as FOLLOWER never both promote on it: who does is the
      greatest of them. */
  lemma OneFollowerPromotes(a: Node, b: Node, i: Input, j: Input, p: Peer, q: Peer)
    requires i.peers == j.peers && p in i.peers && q in i.peers
    requires p.key == a.id && p.Has(FOLLOWER) && q.key == b.id && q.Has(FOLLOWER)
    requires Poll(a, i).1 == Promoted
    ensures IsGreatest(a.id, set r | r in i.peers && r.Has(FOLLOWER) :: r.key)
    ensures Poll(b, j).1 == Promoted ==> a.id == b.id
  {
    PromotesExactlyWhen(a, i);
    PromotesExactlyWhen(b, j);
    var followers := set r | r in i.peers && r.Has(FOLLOWER) :: r.key;
    assert p.key in followers && q.key in followers;
    if Poll(b, j).1 == Promoted { GreatestIsUnique(a.id, b.id, followers); }
  }

  /** Two promotions in a cluster of the configured size share a member both can see. */
  lemma PromotionsShareAMember(a: Node, b: Node, i: Input, j: Input, members: set<Id>) returns (m: Id)
    requires Sound(a.config) && Sound(b.config) && a.config.size == b.config.size == Some(|members|)
    requires Visible(i.peers, a.id) <= members && Visible(j.peers, b.id) <= members
    requires Poll(a, i).1 == Promoted && Poll(b, j).1 == Promoted
    ensures m in Visible(i.peers, a.id) && m in Visible(j.peers, b.id)
  {
    PromotesExactlyWhen(a, i);
    PromotesExactlyWhen(b, j);
    var v, w := Visible(i.peers, a.id), Visible(j.peers, b.id);
    SubsetIsSmaller(v + w, members);
    assert |v + w| == |v| + |w| - |v * w|;
    m :| m in v * w;
  }

  // ----- whole runs ----------------------------------------------------------------------------------

  ghost function After(n: Node, run: seq<Input>): Node {
    if run == [] then n else Poll(After(n, run[..|run| - 1]), run[|run| - 1]).0
  }

  ghost predicate ClockRuns(n: Node, run: seq<Input>) {
    && (forall i :: 0 <= i < |run| ==> n.lastHeartbeat <= run[i].now)
    && forall i, j :: 0 <= i <= j < |run| ==> run[i].now <= run[j].now
  }

  lemma {:induction false} HeartbeatSinceStart(n: Node, run: seq<Input>)
    requires ClockRuns(n, run)
    ensures After(n, run).lastHeartbeat >= n.lastHeartbeat
  {
    if run != [] {
      HeartbeatSinceStart(n, run[..|run| - 1]);
      PollKeepsHeartbeat(After(n, run[..|run| - 1]), run[|run| - 1]);
    }
  }

  /** Later polls never set the last acknowledgement back. */
  lemma {:induction false} HeartbeatStaysAbove(n: Node, run: seq<Input>, j: nat, t: real)
    requires ClockRuns(n, run) && j < |run| && After(n, run[..j + 1]).lastHeartbeat >= t && t <= run[j].now
    ensures After(n, run).lastHeartbeat >= t
  {
    var last := |run| - 1;
    if j == last {
      assert run[..j + 1] == run;
    } else {
      assert run[..last][..j + 1] == run[..j + 1];
      HeartbeatStaysAbove(n, run[..last], j, t);
      PollKeepsHeartbeat(After(n, run[..last]), run[last]);
    }
  }

  lemma PromotedIsLate(m: Node, i: Input)
    requires Poll(m, i).1 == Promoted
    ensures i.now - m.lastHeartbeat > 15.0
  {
  }

  lemma LateAfterStart(n: Node, run: seq<Input>, k: nat)
    requires ClockRuns(n, run) && k < |run| && Poll(After(n, run[..k]), run[k]).1 == Promoted
    ensures run[k].now - n.lastHeartbeat > 15.0
  {
    PromotedIsLate(After(n, run[..k]), run[k]);
    HeartbeatSinceStart(n, run[..k]);
  }

  lemma AcknowledgedNow(n: Node, run: seq<Input>, j: nat)
    requires j < |run| && Poll(After(n, run[..j]), run[j]).1 == Acknowledged
    ensures After(n, run[..j + 1]).lastHeartbeat == run[j].now
  {
    assert run[..j + 1][..j] == run[..j];
    PollKeepsHeartbeat(After(n, run[..j]), run[j]);
  }

  lemma LateAfterAcknowledgement(n: Node, run: seq<Input>, j: nat, k: nat)
    requires ClockRuns(n, run) && j < k < |run| && Poll(After(n, run[..k]), run[k]).1 == Promoted
    requires Poll(After(n, run[..j]), run[j]).1 == Acknowledged
    ensures run[k].now - run[j].now > 15.0
  {
    PromotedIsLate(After(n, run[..k]), run[k]);
    AcknowledgedNow(n, run, j);
    assert run[..k][..j + 1] == run[..j + 1];
    HeartbeatStaysAbove(n, run[..k], j, run[j].now);
  }

  /** No poll of any run promotes within 15 seconds of the start or of an acknowledged probe. */
  lemma NoPromotionWhileMasterAnswers(n: Node, run: seq<Input>, j: nat, k: nat)
    requires ClockRuns(n, run) && j <= k < |run|
    requires Poll(After(n, run[..k]), run[k]).1 == Promoted
    ensures run[k].now - n.lastHeartbeat > 15.0
    ensures Poll(After(n, run[..j]), run[j]).1 == Acknowledged ==> run[k].now - run[j].now > 15.0
  {
    LateAfterStart(n, run, k);
    if j < k && Poll(After(n, run[..j]), run[j]).1 == Acknowledged { LateAfterAcknowledgement(n, run, j, k); }
  }

  /** An unconfigured node never becomes MASTER, whatever it sees. */
  lemma {:induction false} UnconfiguredNeverLeads(n: Node, run: seq<Input>)
    requires n.role == Other && Sound(n.config) && n.config.mode == Unconfigured
    ensures After(n, run).role == Other && After(n, run).config == n.config
  {
    if run != [] { UnconfiguredNeverLeads(n, run[..|run| - 1]); }
  }

  /** A MASTER that yields can take the role back in the same poll: the greater MASTER that made
      it yield is no FOLLOWER, so it is not a candidate, and it counts towards the majority. */
  lemma YieldingNodeMayLeadAgain() returns (n: Node, i: Input)
    ensures n.role == Leader && Sound(n.config) && n.config.mode == Distributed
    ensures Dominated(i.peers, n.id) && Poll(n, i).1 == Promoted && Poll(n, i).0.role == Leader
  {
    var config := ClusterConfig(Distributed, Some(2), Some(2));
    n := Node(['a'], Leader, true, 0.0, config);
    var greater := Peer(['b'], Record(RoleText(MASTER, true), None));
    i := Input(true, 20.0, true, [greater], true, false);
    assert LexLt(['a'], ['b']);
    assert Dominates(i.peers[0], n.id);
    assert Eligible(i.peers, n.id) == {n.id};
    LexTotal(n.id, n.id);
    assert Visible(i.peers, n.id) == {['b'], ['a']} by { assert greater in i.peers; }
    assert |{['b'], ['a']}| == 2;
    PromotesExactlyWhen(n, i);
  }
}
