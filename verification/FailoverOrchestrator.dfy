/** The failover orchestrator and its timeline recorder
    (validation/statistical-resilience/physical_runner.py). Log lines, peer lists, liveness
    answers and the passing of time come from an arbitrary environment. */
module FailoverOrchestrator {
  import opened Basics

  // ----- timeline ---------------------------------------------------------------------------

  /** t0 .. t4. */
  type Event = e: nat | e < 5

  type Timeline = map<Event, real>

  datatype RecordError = AlreadyRecorded | NegativeTime | OrderViolation

  /** `TimelineRecorder.record`: later than the latest recorded predecessor. */
  function Record(t: Timeline, e: Event, at: real): Result<Timeline, RecordError> {
    if e in t then Err(AlreadyRecorded)
    else if at < 0.0 then Err(NegativeTime)
    else if exists p: Event :: p < e && p in t && at < t[p] then Err(OrderViolation)
    else Ok(t[e := at])
  }

  /** The recorded events are t0 .. t(n-1) for some n, at times that never go back. */
  ghost predicate IsPrefix(t: Timeline) {
    && (forall e: Event :: e in t ==> forall p: Event :: p < e ==> p in t && t[p] <= t[e])
    && 0 in t
  }

  function Complete(t: Timeline): bool { forall e: Event :: e in t }

  class TimelineRecorder {
    var observations: Timeline

    constructor ()
      ensures observations == map[]
    {
      observations := map[];
    }

    method RecordEvent(e: Event, at: real) returns (error: Option<RecordError>)
      modifies this
      ensures match Record(old(observations), e, at)
              case Ok(t) => error == None && observations == t
              case Err(x) => error == Some(x) && observations == old(observations)
      ensures error == Some(AlreadyRecorded) <==> e in old(observations)
      ensures error == Some(NegativeTime) <==> e !in old(observations) && at < 0.0
      ensures error == Some(OrderViolation) <==>
              e !in old(observations) && at >= 0.0 && exists p: Event :: p < e && p in old(observations)
                                                                         && at < old(observations)[p]
      ensures observations == if error.None? then old(observations)[e := at] else old(observations)
    {
      if e in observations { return Some(AlreadyRecorded); }
      if at < 0.0 { return Some(NegativeTime); }
      var p: int := 0;
      while p < e
        invariant 0 <= p <= e
        invariant forall q: Event :: q < p && q in observations ==> observations[q] <= at
      {
        if p in observations && at < observations[p] { return Some(OrderViolation); }
        p := p + 1;
      }
      observations := observations[e := at];
      return None;
    }
  }

  // ----- observations ------------------------------------------------------------------------

  /** Which of the three markers a log line contains. */
  datatype Line = Line(masterMissing: bool, promotionStarted: bool, promoted: bool)

  /** `observe_log_event`: an error for more than one marker, nothing for none. */
  function ObserveLine(l: Line): Result<Option<Event>, ()> {
    if (l.masterMissing && l.promotionStarted) || (l.masterMissing && l.promoted) || (l.promotionStarted && l.promoted)
    then Err(())
    else if l.masterMissing then Ok(Some(1))
    else if l.promotionStarted then Ok(Some(2))
    else if l.promoted then Ok(Some(3))
    else Ok(None)
  }

  datatype Role = Master | Follower | Malformed

  /** The hub's peer records; a dictionary, so identifiers are distinct. */
  datatype Peer = Peer(id: Id, role: Role)
  type Peers = ps: seq<Peer> | forall i, j :: 0 <= i < j < |ps| ==> ps[i].id != ps[j].id witness []

  datatype HubState = HubState(failedPresent: bool, masters: seq<Id>, surviving: seq<Id>) {
    function Promoted(failed: Id): Option<Id> {
      if |masters| == 1 && masters[0] != failed then Some(masters[0]) else None
    }
    predicate SplitBrain() { |masters| > 1 }
  }

  predicate WellFormed(peers: seq<Peer>) {
    forall i :: 0 <= i < |peers| ==> Strip(peers[i].id) != [] && !peers[i].role.Malformed?
  }

  function Masters(peers: seq<Peer>): (r: seq<Id>)
    ensures forall m :: m in r <==> exists i :: 0 <= i < |peers| && peers[i].id == m && peers[i].role.Master?
  {
    if peers == [] then []
    else
      var r := Masters(peers[..|peers| - 1]) + if peers[|peers| - 1].role.Master? then [peers[|peers| - 1].id] else [];
      assert peers == peers[..|peers| - 1] + [peers[|peers| - 1]];
      r
  }

  function Surviving(peers: seq<Peer>, failed: Id): (r: seq<Id>)
    ensures forall m :: m in r <==> m != failed && exists i :: 0 <= i < |peers| && peers[i].id == m
  {
    if peers == [] then []
    else
      var r := Surviving(peers[..|peers| - 1], failed)
               + if peers[|peers| - 1].id != failed then [peers[|peers| - 1].id] else [];
      assert peers == peers[..|peers| - 1] + [peers[|peers| - 1]];
      r
  }

  /** `observe_hub_state`. */
  function ObserveHub(peers: Peers, failed: Id): Result<HubState, ()> {
    if !WellFormed(peers) then Err(())
    else Ok(HubState(exists i :: 0 <= i < |peers| && peers[i].id == failed, Masters(peers), Surviving(peers, failed)))
  }

  /** `convergence_from_hub_state`. */
  predicate Converged(s: HubState, failed: Id, survivors: nat, ids: Option<set<Id>>) {
    && !s.failedPresent && |s.masters| == 1 && |s.surviving| == survivors
    && (ids.Some? ==> (set m | m in s.surviving) == ids.value)
    && !s.SplitBrain() && s.Promoted(failed).Some?
  }

  // ----- what a view shows, peer by peer ------------------------------------------------------

  ghost predicate HasBadPeer(peers: seq<Peer>) {
    exists i :: 0 <= i < |peers| && (peers[i].role.Malformed? || Strip(peers[i].id) == [])
  }

  ghost predicate Lists(peers: seq<Peer>, id: Id) { exists i :: 0 <= i < |peers| && peers[i].id == id }

  ghost predicate ListsTwoMasters(peers: seq<Peer>) {
    exists i, j :: 0 <= i < j < |peers| && peers[i].role.Master? && peers[j].role.Master?
  }

  ghost predicate IsOnlyMaster(peers: seq<Peer>, m: nat) {
    m < |peers| && forall i :: 0 <= i < |peers| ==> (peers[i].role.Master? <==> i == m)
  }

  /** Every peer is readable, none is the failed node, exactly one is master, and they are as many
      as expected, and the expected ones where ids are given. */
  ghost predicate ViewConverges(peers: seq<Peer>, failed: Id, survivors: nat, ids: Option<set<Id>>) {
    && !HasBadPeer(peers) && !Lists(peers, failed) && |peers| == survivors
    && (exists m: nat :: IsOnlyMaster(peers, m))
    && (ids.Some? ==> forall id :: id in ids.value <==> Lists(peers, id))
  }

  lemma {:induction false} MastersCount(peers: seq<Peer>)
    ensures |Masters(peers)| == 0 <==> forall i :: 0 <= i < |peers| ==> !peers[i].role.Master?
    ensures |Masters(peers)| > 1 <==> ListsTwoMasters(peers)
    decreases |peers|
  {
    if peers != [] {
      var init, n := peers[..|peers| - 1], |peers| - 1;
      MastersCount(init);
      assert forall i :: 0 <= i < n ==> init[i] == peers[i];
      if ListsTwoMasters(init) {
        var i, j :| 0 <= i < j < |init| && init[i].role.Master? && init[j].role.Master?;
        assert peers[i].role.Master? && peers[j].role.Master?;
      }
      if peers[n].role.Master? && |Masters(init)| > 0 {
        var i :| 0 <= i < n && init[i].role.Master?;
        assert peers[i].role.Master? && peers[n].role.Master?;
      }
    }
  }

  lemma {:induction false} SurvivingCount(peers: seq<Peer>, failed: Id)
    ensures |Surviving(peers, failed)| == |peers| <==> !Lists(peers, failed)
    ensures |Surviving(peers, failed)| <= |peers|
    decreases |peers|
  {
    if peers != [] {
      var init, n := peers[..|peers| - 1], |peers| - 1;
      SurvivingCount(init, failed);
      assert forall i :: 0 <= i < n ==> init[i] == peers[i];
      assert Lists(peers, failed) <==> Lists(init, failed) || peers[n].id == failed;
    }
  }

  lemma OnlyMasterIsFirst(peers: seq<Peer>, m: nat)
    requires IsOnlyMaster(peers, m)
    ensures Masters(peers) == [peers[m].id]
  {
    MastersCount(peers);
    assert peers[m].role.Master?;
    assert Masters(peers)[0] in Masters(peers);
  }

  lemma OneMasterExactlyWhen(peers: seq<Peer>)
    ensures |Masters(peers)| == 1 <==> exists m: nat :: IsOnlyMaster(peers, m)
  {
    MastersCount(peers);
    if |Masters(peers)| == 1 {
      var m: nat :| m < |peers| && peers[m].role.Master?;
      assert IsOnlyMaster(peers, m);
    } else if m: nat :| IsOnlyMaster(peers, m) {
      OnlyMasterIsFirst(peers, m);
    }
  }

  lemma SurvivorSet(peers: seq<Peer>, failed: Id, ids: set<Id>)
    requires !Lists(peers, failed)
    ensures (set m | m in Surviving(peers, failed)) == ids <==> forall id :: id in ids <==> Lists(peers, id)
  {
    assert forall id :: id in Surviving(peers, failed) <==> Lists(peers, id);
  }

  /** The hub's view is refused exactly when a peer is unreadable, and counts as converged exactly
      when the peers listed are what is expected; the node promoted is then their only master. */
  lemma ConvergesExactlyWhen(peers: Peers, failed: Id, survivors: nat, ids: Option<set<Id>>)
    ensures var hub := ObserveHub(peers, failed);
            && (hub.Err? <==> HasBadPeer(peers))
            && (hub.Ok? && Converged(hub.value, failed, survivors, ids) <==>
                ViewConverges(peers, failed, survivors, ids))
            && (hub.Ok? && hub.value.Promoted(failed).Some? ==>
                exists m: nat :: IsOnlyMaster(peers, m) && hub.value.Promoted(failed) == Some(peers[m].id))
            && (ViewConverges(peers, failed, survivors, ids) ==>
                exists m: nat :: IsOnlyMaster(peers, m) && hub.value.Promoted(failed) == Some(peers[m].id))
  {
    OneMasterExactlyWhen(peers);
    SurvivingCount(peers, failed);
    if !HasBadPeer(peers) && !Lists(peers, failed) && ids.Some? { SurvivorSet(peers, failed, ids.value); }
    if m: nat :| IsOnlyMaster(peers, m) {
      OnlyMasterIsFirst(peers, m);
      if !Lists(peers, failed) { assert peers[m].id != failed; }
    }
  }

  // ----- classification ------------------------------------------------------------------------

  datatype Reason =
    | Timeout
    | Inconclusive
    | Collected(incomplete: bool, noPromotedNode: bool, notConverged: bool, splitBrain: bool)

  /** A reason whose text is empty. */
  predicate IsEmptyReason(r: Reason) {
    r.Collected? && !r.incomplete && !r.noPromotedNode && !r.notConverged && !r.splitBrain
  }

  datatype Classification = Valid | Invalid(reason: Reason) | NoReasonGiven

  /** `classify_run`; NoReasonGiven is the ValueError it raises for an invalid run without one. */
  function Classify(t: Timeline, promoted: Option<Id>, converged: bool, split: bool, reason: Option<Reason>)
    : Classification
  {
    var named := promoted.Some? && Strip(promoted.value) != [];
    if Complete(t) && named && converged && !split && reason.None? then Valid
    else
      var why := if reason.Some? then reason.value else Collected(!Complete(t), !named, !converged, split);
      if IsEmptyReason(why) then NoReasonGiven else Invalid(why)
  }

  // ----- the loop --------------------------------------------------------------------------------

  /** The observer's answer: the node it speaks of, and None when it is inconclusive. */
  datatype Liveness = NotAMapping | Answer(node: Id, alive: Option<bool>)

  /** What one polling round meets. */
  datatype Round = Round(lines: seq<Line>, peers: Peers, liveness: Liveness) {
    function Alive(): Option<bool> { if liveness.Answer? then liveness.alive else None }
  }

  datatype Setup = Setup(
    failed: Id, timeout: real, interval: real, survivors: nat, ids: Option<set<Id>>, observer: bool)

  /** The clock reads `start` at t0, `clock(k, 0)` at the deadline check of round k,
      `clock(k, i)` after its i-th line and `clock(k, |lines| + 1)` at its end. */
  datatype World = World(start: real, rounds: nat -> Round, clock: (nat, nat) -> real)

  /** The clock is never negative and never goes back. */
  ghost predicate ClockRuns(w: World) {
    && w.start >= 0.0
    && (forall k: nat, i: nat :: w.clock(k, i) >= w.start)
    && (forall k: nat, i: nat, j: nat :: i <= j ==> w.clock(k, i) <= w.clock(k, j))
    && (forall k: nat, i: nat :: w.clock(k, i) <= w.clock(k + 1, 0))
  }

  /** Every sleep advances the clock by the poll interval at least. */
  ghost predicate SleepsAdvance(c: Setup, w: World) {
    forall k: nat :: w.clock(k + 1, 0) >= w.clock(k, 0) + c.interval
  }

  /** The line carries the marker of t1, t2 or t3. */
  ghost predicate Marks(l: Line, e: Event) {
    (e == 1 && l.masterMissing) || (e == 2 && l.promotionStarted) || (e == 3 && l.promoted)
  }

  ghost predicate MarksTwo(l: Line) { exists e: Event, f: Event :: e != f && Marks(l, e) && Marks(l, f) }

  /** A line is refused exactly when it carries two markers, and otherwise gives the event whose
      marker it carries. */
  lemma LineGives(l: Line)
    ensures ObserveLine(l).Err? <==> MarksTwo(l)
    ensures ObserveLine(l).Ok? ==> forall e: Event :: ObserveLine(l).value == Some(e) <==> Marks(l, e)
  {
    assert l.masterMissing ==> Marks(l, 1);
    assert l.promotionStarted ==> Marks(l, 2);
    assert l.promoted ==> Marks(l, 3);
  }

  /** An event is accepted exactly when its predecessor is recorded and it is not. */
  predicate Due(t: Timeline, e: Event) { e > 0 && e !in t && (e - 1) in t }

  function AfterLine(t: Timeline, l: Line, at: real): Timeline {
    var o := ObserveLine(l);
    if o.Ok? && o.value.Some? && Due(t, o.value.value) then t[o.value.value := at] else t
  }

  /** The timeline after i lines of round k. */
  ghost function Recorded(w: World, k: nat, i: nat): Timeline
    requires i <= |w.rounds(k).lines|
    decreases k, i
  {
    if i > 0 then AfterLine(Recorded(w, k, i - 1), w.rounds(k).lines[i - 1], w.clock(k, i))
    else RecordedBefore(w, k)
  }

  /** The timeline when round k begins. */
  ghost function RecordedBefore(w: World, k: nat): Timeline
    decreases k, 0, 0
  {
    if k == 0 then map[0 := w.start] else Recorded(w, k - 1, |w.rounds(k - 1).lines|)
  }

  /** A prefix of t0 .. t3 whose times do not pass now. */
  ghost predicate Underway(t: Timeline, now: real) {
    now >= 0.0 && IsPrefix(t) && 4 !in t && forall e: Event :: e in t ==> t[e] <= now
  }

  lemma AfterLineStaysUnderway(t: Timeline, l: Line, now: real, at: real)
    requires Underway(t, now) && now <= at
    ensures Underway(AfterLine(t, l, at), at)
  {
  }

  lemma {:induction false} RecordedStaysUnderway(w: World, k: nat, i: nat)
    requires ClockRuns(w) && i <= |w.rounds(k).lines|
    ensures Underway(Recorded(w, k, i), w.clock(k, i))
    decreases k, i
  {
    if i > 0 {
      RecordedStaysUnderway(w, k, i - 1);
      AfterLineStaysUnderway(Recorded(w, k, i - 1), w.rounds(k).lines[i - 1], w.clock(k, i - 1), w.clock(k, i));
    } else if k > 0 {
      RecordedStaysUnderway(w, k - 1, |w.rounds(k - 1).lines|);
    }
  }

  /** Line i of round k, counted from 1, carries e's marker alone, at a time when e's predecessor is
      recorded and e is not. */
  ghost predicate Sets(w: World, e: Event, k: nat, i: nat) {
    && 0 < i <= |w.rounds(k).lines| && 0 < e
    && Marks(w.rounds(k).lines[i - 1], e) && !MarksTwo(w.rounds(k).lines[i - 1])
    && e - 1 in Recorded(w, k, i - 1) && e !in Recorded(w, k, i - 1)
  }

  predicate NoLater(k: nat, i: nat, k': nat, i': nat) { k < k' || (k == k' && i <= i') }

  ghost predicate SetBy(w: World, e: Event, k: nat, i: nat, k': nat, i': nat) {
    NoLater(k, i, k', i') && Sets(w, e, k, i)
  }

  /** One line sets at most its own event, to the time it is read. */
  lemma LineSets(w: World, k: nat, i: nat)
    requires 0 < i <= |w.rounds(k).lines|
    ensures forall e: Event :: Sets(w, e, k, i) ==>
              Recorded(w, k, i) == Recorded(w, k, i - 1)[e := w.clock(k, i)]
    ensures (forall e: Event :: !Sets(w, e, k, i)) ==> Recorded(w, k, i) == Recorded(w, k, i - 1)
  {
    var l, t := w.rounds(k).lines[i - 1], Recorded(w, k, i - 1);
    LineGives(l);
    var o := ObserveLine(l);
    if o.Ok? && o.value.Some? && Due(t, o.value.value) { assert Sets(w, o.value.value, k, i); }
  }

  ghost predicate WasSet(w: World, e: Event, k: nat, i: nat) {
    exists k': nat, i': nat :: SetBy(w, e, k', i', k, i)
  }

  lemma SetBeforeTheRound(w: World, e: Event, k: nat)
    requires k > 0
    ensures forall k': nat, i': nat ::
              SetBy(w, e, k', i', k, 0) <==> SetBy(w, e, k', i', k - 1, |w.rounds(k - 1).lines|)
    ensures WasSet(w, e, k, 0) <==> WasSet(w, e, k - 1, |w.rounds(k - 1).lines|)
  {
    var n := |w.rounds(k - 1).lines|;
    if k': nat, i': nat {:trigger SetBy(w, e, k', i', k - 1, n)} :| SetBy(w, e, k', i', k - 1, n) {
      assert SetBy(w, e, k', i', k, 0);
    }
    if k': nat, i': nat {:trigger SetBy(w, e, k', i', k, 0)} :| SetBy(w, e, k', i', k, 0) {
      assert SetBy(w, e, k', i', k - 1, n);
    }
  }

  lemma SetByTheLine(w: World, e: Event, k: nat, i: nat)
    requires i > 0
    ensures forall k': nat, i': nat ::
              SetBy(w, e, k', i', k, i) <==> SetBy(w, e, k', i', k, i - 1) || (Sets(w, e, k, i) && k' == k && i' == i)
    ensures WasSet(w, e, k, i) <==> WasSet(w, e, k, i - 1) || Sets(w, e, k, i)
  {
    if Sets(w, e, k, i) { assert SetBy(w, e, k, i, k, i); }
    if k': nat, i': nat {:trigger SetBy(w, e, k', i', k, i - 1)} :| SetBy(w, e, k', i', k, i - 1) {
      assert SetBy(w, e, k', i', k, i);
    }
    if k': nat, i': nat {:trigger SetBy(w, e, k', i', k, i)} :| SetBy(w, e, k', i', k, i) {
      assert SetBy(w, e, k', i', k, i - 1) || (k' == k && i' == i);
    }
  }

  lemma RecordedAtTheStart(w: World, e: Event)
    requires e > 0
    ensures !WasSet(w, e, 0, 0) && Recorded(w, 0, 0) == map[0 := w.start]
  {
  }

  /** After i lines of round k, t1, t2 or t3 is recorded exactly when some line up to there carried
      its marker when it was due, and its time is when that line was read; t0 is the start. */
  lemma {:induction false} RecordedExactlyWhen(w: World, k: nat, i: nat, e: Event)
    requires i <= |w.rounds(k).lines| && e > 0
    ensures e in Recorded(w, k, i) <==> WasSet(w, e, k, i)
    ensures forall k': nat, i': nat :: SetBy(w, e, k', i', k, i) ==> Recorded(w, k, i)[e] == w.clock(k', i')
    ensures 0 in Recorded(w, k, i) && Recorded(w, k, i)[0] == w.start
    decreases k, i
  {
    if i > 0 {
      RecordedExactlyWhen(w, k, i - 1, e);
      LineSets(w, k, i);
      SetByTheLine(w, e, k, i);
    } else if k > 0 {
      var n := |w.rounds(k - 1).lines|;
      SetBeforeTheRound(w, e, k);
      assert Recorded(w, k, 0) == RecordedBefore(w, k) == Recorded(w, k - 1, n);
      RecordedExactlyWhen(w, k - 1, n, e);
    } else {
      RecordedAtTheStart(w, e);
    }
  }

  /** The split-brain evidence of one round, by the observer when there is one. */
  ghost predicate ShowsSplitBrain(c: Setup, r: Round) {
    if c.observer
    then && r.liveness.Answer? && r.liveness.alive == Some(true)
         && exists i :: 0 <= i < |r.peers| && r.peers[i].role.Master? && r.peers[i].id != c.failed
    else ListsTwoMasters(r.peers)
  }

  ghost predicate SawSplitBrain(c: Setup, w: World, n: nat) {
    exists k: nat :: k < n && ShowsSplitBrain(c, w.rounds(k))
  }

  ghost predicate IsInconclusive(c: Setup, r: Round) {
    c.observer && (r.liveness.Answer? ==> r.liveness.alive == None)
  }

  ghost predicate SawInconclusive(c: Setup, w: World, n: nat) {
    exists k: nat :: k < n && IsInconclusive(c, w.rounds(k))
  }

  /** `record_operational_liveness_observation` refuses an answer about another node. */
  predicate RecordRefuses(c: Setup, r: Round) {
    Strip(c.failed) == [] || r.liveness.NotAMapping? || r.liveness.node != Strip(c.failed)
  }

  /** An ambiguous line, an unreadable peer, or a liveness answer that is not about the failed node. */
  ghost predicate RoundRaises(c: Setup, r: Round) {
    || HasBadPeer(r.peers)
    || (exists i :: 0 <= i < |r.lines| && MarksTwo(r.lines[i]))
    || (c.observer && !(r.liveness.Answer? && r.liveness.node == Strip(c.failed) && r.liveness.node != []))
  }

  ghost predicate Converges(c: Setup, r: Round) { ViewConverges(r.peers, c.failed, c.survivors, c.ids) }

  /** Round k ends the run: the log has shown the promotion, and the hub view converges. */
  ghost predicate Decisive(c: Setup, w: World, k: nat) {
    3 in RecordedBefore(w, k + 1) && Converges(c, w.rounds(k))
  }

  ghost predicate Promotes(r: Round, promoted: Option<Id>) {
    exists m: nat :: IsOnlyMaster(r.peers, m) && promoted == Some(r.peers[m].id)
  }

  /** The only master of the latest of n rounds whose view converged, if there was one. */
  ghost predicate LatestPromotion(c: Setup, w: World, n: nat, promoted: Option<Id>) {
    if n == 0 then promoted == None
    else if Converges(c, w.rounds(n - 1)) then Promotes(w.rounds(n - 1), promoted)
    else LatestPromotion(c, w, n - 1, promoted)
  }

  /** n rounds were begun in time, and none of them raised or ended the run. */
  ghost predicate Continues(c: Setup, w: World, n: nat) {
    forall k: nat :: k < n ==>
      w.clock(k, 0) <= w.start + c.timeout && !RoundRaises(c, w.rounds(k)) && !Decisive(c, w, k)
  }

  datatype Outcome =
    | BadArguments
    | InputRaised(rounds: nat)
    | RecorderRaised                                 // `record` reported an error
    | Running(rounds: nat, timeline: Timeline)       // cut off by the horizon
    | Finished(rounds: nat, timeline: Timeline, converged: bool, promoted: Option<Id>, verdict: Classification)

  method ReadLines(recorder: TimelineRecorder, w: World, k: nat) returns (ok: bool, error: Option<RecordError>)
    requires ClockRuns(w) && recorder.observations == RecordedBefore(w, k)
    modifies recorder
    ensures ok <==> forall i :: 0 <= i < |w.rounds(k).lines| ==> !MarksTwo(w.rounds(k).lines[i])
    ensures error == None
    ensures ok ==> recorder.observations == RecordedBefore(w, k + 1)
  {
    var lines := w.rounds(k).lines;
    for i := 0 to |lines|
      invariant recorder.observations == Recorded(w, k, i)
      invariant forall j :: 0 <= j < i ==> !MarksTwo(lines[j])
    {
      RecordedStaysUnderway(w, k, i);
      LineGives(lines[i]);
      var observed := ObserveLine(lines[i]);
      if observed.Err? { return false, None; }
      if observed.value.None? { continue; }
      var e := observed.value.value;
      if e in recorder.observations { continue; }
      if e == 2 && 1 !in recorder.observations { continue; }
      if e == 3 && 2 !in recorder.observations { continue; }
      error := recorder.RecordEvent(e, w.clock(k, i + 1));
      if error.Some? { return true, error; }
    }
    return true, None;
  }

  lemma OtherMaster(peers: seq<Peer>, failed: Id)
    ensures (exists m :: m in Masters(peers) && m != failed)
            <==> exists i :: 0 <= i < |peers| && peers[i].role.Master? && peers[i].id != failed
  {
    if i :| 0 <= i < |peers| && peers[i].role.Master? && peers[i].id != failed {
      assert peers[i].id in Masters(peers);
    }
  }

  /** The liveness answer and the hub's view of one round, folded into the two flags. */
  method NoteEvidence(c: Setup, r: Round, s: HubState, split: bool, inconclusive: bool)
    returns (split': bool, inconclusive': bool)
    requires ObserveHub(r.peers, c.failed) == Ok(s)
    ensures split' <==> split || ShowsSplitBrain(c, r)
    ensures inconclusive' <==> inconclusive || IsInconclusive(c, r)
  {
    MastersCount(r.peers);
    OtherMaster(r.peers, c.failed);
    split', inconclusive' := split, inconclusive;
    if c.observer {
      if r.Alive() == Some(true) && exists m :: m in s.masters && m != c.failed {
        split' := true;
      }
      if r.Alive() == None { inconclusive' := true; }
    } else if s.SplitBrain() {
      split' := true;
    }
  }

  lemma SeenOneMore(c: Setup, w: World, k: nat)
    ensures SawSplitBrain(c, w, k + 1) <==> SawSplitBrain(c, w, k) || ShowsSplitBrain(c, w.rounds(k))
    ensures SawInconclusive(c, w, k + 1) <==> SawInconclusive(c, w, k) || IsInconclusive(c, w.rounds(k))
  {
    assert ShowsSplitBrain(c, w.rounds(k)) ==> SawSplitBrain(c, w, k + 1);
    assert IsInconclusive(c, w.rounds(k)) ==> SawInconclusive(c, w, k + 1);
  }

  /** The observing part of one round: log lines, hub view, liveness answer. */
  method ObserveRound(c: Setup, w: World, k: nat, recorder: TimelineRecorder, split: bool, inconclusive: bool)
    returns (hub: Result<HubState, ()>, split': bool, inconclusive': bool)
    requires ClockRuns(w) && recorder.observations == RecordedBefore(w, k)
    requires split <==> SawSplitBrain(c, w, k)
    requires inconclusive <==> SawInconclusive(c, w, k)
    modifies recorder
    ensures hub.Err? <==> RoundRaises(c, w.rounds(k))
    ensures hub.Ok? ==> hub == ObserveHub(w.rounds(k).peers, c.failed)
    ensures hub.Ok? ==> recorder.observations == RecordedBefore(w, k + 1)
    ensures hub.Ok? ==> (split' <==> SawSplitBrain(c, w, k + 1))
    ensures hub.Ok? ==> (inconclusive' <==> SawInconclusive(c, w, k + 1))
  {
    var round := w.rounds(k);
    split', inconclusive' := split, inconclusive;
    var ok, error := ReadLines(recorder, w, k);
    if !ok { return Err(()), split, inconclusive; }
    hub := ObserveHub(round.peers, c.failed);
    ConvergesExactlyWhen(round.peers, c.failed, c.survivors, c.ids);
    if hub.Err? { return; }
    if c.observer && RecordRefuses(c, round) { return Err(()), split, inconclusive; }
    split', inconclusive' := NoteEvidence(c, round, hub.value, split, inconclusive);
    SeenOneMore(c, w, k);
  }

  /** The master a readable view lists has a usable name. */
  lemma PromotedIsNamed(r: Round, promoted: Option<Id>)
    requires !HasBadPeer(r.peers) && Promotes(r, promoted)
    ensures promoted.Some? && Strip(promoted.value) != []
  {
  }

  /** What a finished run reports: when and why it ended, whom it saw promoted, the timeline and the
      verdict. */
  ghost predicate Reports(c: Setup, w: World, o: Outcome)
    requires o.Finished?
  {
    && IsPrefix(o.timeline)
    && (o.converged <==> 4 in o.timeline)
    && (o.converged ==>
          && o.rounds > 0 && Continues(c, w, o.rounds - 1) && Decisive(c, w, o.rounds - 1)
          && w.clock(o.rounds - 1, 0) <= w.start + c.timeout
          && Promotes(w.rounds(o.rounds - 1), o.promoted)
          && o.timeline == RecordedBefore(w, o.rounds)[4 := w.clock(o.rounds - 1, |w.rounds(o.rounds - 1).lines| + 1)])
    && (!o.converged ==>
          && Continues(c, w, o.rounds) && w.clock(o.rounds, 0) > w.start + c.timeout
          && LatestPromotion(c, w, o.rounds, o.promoted)
          && o.timeline == RecordedBefore(w, o.rounds))
    && o.verdict == VerdictOf(o.converged, SawInconclusive(c, w, o.rounds), SawSplitBrain(c, w, o.rounds))
  }

  /** Valid exactly when it converged, nothing was inconclusive and no split brain was seen; the
      first of these that fails is the reason. */
  function VerdictOf(converged: bool, inconclusive: bool, split: bool): Classification {
    if !converged then Invalid(Timeout)
    else if inconclusive then Invalid(Inconclusive)
    else if split then Invalid(Collected(false, false, false, true))
    else Valid
  }

  lemma PromotedByDecision(c: Setup, w: World, k: nat)
    requires Decisive(c, w, k)
    ensures ObserveHub(w.rounds(k).peers, c.failed).Ok?
    ensures var promoted := ObserveHub(w.rounds(k).peers, c.failed).value.Promoted(c.failed);
            Promotes(w.rounds(k), promoted) && promoted.Some? && Strip(promoted.value) != []
    ensures SawInconclusive(c, w, k + 1) ==> c.observer
  {
    ConvergesExactlyWhen(w.rounds(k).peers, c.failed, c.survivors, c.ids);
    PromotedIsNamed(w.rounds(k), ObserveHub(w.rounds(k).peers, c.failed).value.Promoted(c.failed));
  }

  lemma ConvergedVerdict(t: Timeline, promoted: Option<Id>, inconclusive: bool, split: bool)
    requires Complete(t) && promoted.Some? && Strip(promoted.value) != []
    ensures Classify(t, promoted, true, split, if inconclusive then Some(Inconclusive) else None)
            == VerdictOf(true, inconclusive, split)
  {
  }

  method ConcludeTimedOut(c: Setup, w: World, k: nat, recorder: TimelineRecorder, promoted: Option<Id>, split: bool)
    returns (o: Outcome)
    requires ClockRuns(w) && Continues(c, w, k) && w.clock(k, 0) > w.start + c.timeout
    requires recorder.observations == RecordedBefore(w, k) && LatestPromotion(c, w, k, promoted)
    ensures o.Finished? && o.rounds == k && Reports(c, w, o)
  {
    RecordedStaysUnderway(w, k, 0);
    o := Finished(k, recorder.observations, false, promoted,
                  Classify(recorder.observations, promoted, false, split, Some(Timeout)));
  }

  method RecordConvergence(recorder: TimelineRecorder, at: real) returns (error: Option<RecordError>)
    requires Underway(recorder.observations, at) && 3 in recorder.observations
    modifies recorder
    ensures error == None && recorder.observations == old(recorder.observations)[4 := at]
    ensures IsPrefix(recorder.observations) && Complete(recorder.observations)
  {
    error := recorder.RecordEvent(4, at);
  }

  method ConcludeConverged(c: Setup, w: World, k: nat, recorder: TimelineRecorder, split: bool, inconclusive: bool)
    returns (o: Outcome)
    requires ClockRuns(w) && Continues(c, w, k) && Decisive(c, w, k) && w.clock(k, 0) <= w.start + c.timeout
    requires recorder.observations == RecordedBefore(w, k + 1)
    requires split <==> SawSplitBrain(c, w, k + 1)
    requires inconclusive <==> SawInconclusive(c, w, k + 1)
    modifies recorder
    ensures o.Finished? && o.rounds == k + 1 && Reports(c, w, o)
  {
    RecordedStaysUnderway(w, k, |w.rounds(k).lines|);
    assert recorder.observations == Recorded(w, k, |w.rounds(k).lines|);
    var error := RecordConvergence(recorder, w.clock(k, |w.rounds(k).lines| + 1));
    if error.Some? { return RecorderRaised; }
    PromotedByDecision(c, w, k);
    var promoted := ObserveHub(w.rounds(k).peers, c.failed).value.Promoted(c.failed);
    ConvergedVerdict(recorder.observations, promoted, inconclusive, split);
    var reason := if c.observer && inconclusive then Some(Inconclusive) else None;
    o := Finished(k + 1, recorder.observations, true, promoted,
                  Classify(recorder.observations, promoted, true, split, reason));
  }

  lemma ContinuesOneMore(c: Setup, w: World, k: nat)
    requires Continues(c, w, k) && w.clock(k, 0) <= w.start + c.timeout
    requires !RoundRaises(c, w.rounds(k)) && !Decisive(c, w, k)
    ensures Continues(c, w, k + 1)
  {
  }

  /** What every run that began satisfies, however it ends within the horizon. */
  ghost predicate Accounted(c: Setup, w: World, horizon: nat, o: Outcome) {
    match o
    case BadArguments => false
    case RecorderRaised => false
    case InputRaised(n) => RoundRaises(c, w.rounds(n)) && Continues(c, w, n)
    case Running(n, t) => n == horizon && Continues(c, w, n) && t == RecordedBefore(w, n)
    case Finished(n, _, _, _, _) => n <= horizon && Reports(c, w, o)
  }

  /** One round that neither times out nor raises: it ends the run, or the run goes on. */
  method DecideRound(c: Setup, w: World, k: nat, s: HubState, recorder: TimelineRecorder,
                     split: bool, inconclusive: bool, before: Option<Id>)
    returns (o: Option<Outcome>, promoted: Option<Id>)
    requires ClockRuns(w) && Continues(c, w, k) && w.clock(k, 0) <= w.start + c.timeout && !RoundRaises(c, w.rounds(k))
    requires ObserveHub(w.rounds(k).peers, c.failed) == Ok(s) && recorder.observations == RecordedBefore(w, k + 1)
    requires split <==> SawSplitBrain(c, w, k + 1)
    requires inconclusive <==> SawInconclusive(c, w, k + 1)
    requires LatestPromotion(c, w, k, before)
    modifies recorder
    ensures o.None? ==> LatestPromotion(c, w, k + 1, promoted)
    ensures o.Some? ==> o.value.Finished? && o.value.rounds == k + 1 && Reports(c, w, o.value)
    ensures o.None? ==> Continues(c, w, k + 1) && recorder.observations == old(recorder.observations)
  {
    ConvergesExactlyWhen(w.rounds(k).peers, c.failed, c.survivors, c.ids);
    promoted := before;
    if Converged(s, c.failed, c.survivors, c.ids) {
      promoted := s.Promoted(c.failed);
      if 3 in recorder.observations {
        var finished := ConcludeConverged(c, w, k, recorder, split, inconclusive);
        return Some(finished), promoted;
      }
    }
    ContinuesOneMore(c, w, k);
    return None, promoted;
  }

  /** The polling loop. */
  method PollRounds(c: Setup, w: World, horizon: nat, recorder: TimelineRecorder) returns (o: Outcome)
    requires ClockRuns(w) && recorder.observations == RecordedBefore(w, 0)
    modifies recorder
    ensures Accounted(c, w, horizon, o)
  {
    var deadline := w.start + c.timeout;
    var promoted: Option<Id> := None;
    var split, inconclusive := false, false;
    for k := 0 to horizon
      invariant recorder.observations == RecordedBefore(w, k) && Continues(c, w, k)
      invariant LatestPromotion(c, w, k, promoted)
      invariant split <==> SawSplitBrain(c, w, k)
      invariant inconclusive <==> SawInconclusive(c, w, k)
    {
      if w.clock(k, 0) > deadline {
        o := ConcludeTimedOut(c, w, k, recorder, promoted, split);
        return;
      }
      var hub: Result<HubState, ()>;
      hub, split, inconclusive := ObserveRound(c, w, k, recorder, split, inconclusive);
      if hub.Err? { return InputRaised(k); }
      var ended: Option<Outcome>;
      ended, promoted := DecideRound(c, w, k, hub.value, recorder, split, inconclusive, promoted);
      if ended.Some? { return ended.value; }
    }
    return Running(horizon, recorder.observations);
  }

  lemma MultipleBound(m: real, timeout: real, interval: real)
    requires interval > 0.0 && m * interval <= timeout
    ensures m <= timeout / interval
  {
    var quotient := timeout / interval;
    assert quotient * interval == timeout;
    assert (quotient - m) * interval == quotient * interval - m * interval;
    assert quotient < m ==> (quotient - m) * interval < 0.0;
  }

  /** The time n steps take. */
  ghost function Steps(n: nat, step: real): real { if n == 0 then 0.0 else Steps(n - 1, step) + step }

  lemma {:induction false} StepsMultiply(n: nat, step: real)
    ensures Steps(n, step) == (n as real) * step
  {
    if n > 0 {
      StepsMultiply(n - 1, step);
      var before := (n - 1) as real;
      assert n as real == before + 1.0;
      assert (before + 1.0) * step == before * step + step;
    }
  }

  lemma {:induction false} RoundsTakeTime(c: Setup, w: World, n: nat)
    requires ClockRuns(w) && SleepsAdvance(c, w)
    ensures w.clock(n, 0) >= w.start + Steps(n, c.interval)
  {
    if n > 0 { RoundsTakeTime(c, w, n - 1); }
  }

  lemma StepsFit(n: nat, step: real, limit: real)
    requires step > 0.0 && Steps(n, step) <= limit
    ensures n as real <= limit / step
  {
    StepsMultiply(n, step);
    MultipleBound(n as real, limit, step);
  }

  /** If the last of n rounds was begun in time, n is at most timeout / interval + 1. */
  lemma RoundsAreBounded(c: Setup, w: World, n: nat)
    requires ClockRuns(w) && SleepsAdvance(c, w) && (n > 0 ==> w.clock(n - 1, 0) <= w.start + c.timeout)
    requires c.timeout > 0.0 && c.interval > 0.0
    ensures n as real <= c.timeout / c.interval + 1.0
  {
    if n > 0 { RoundsTakeTime(c, w, n - 1); }
    StepsFit(if n > 0 then n - 1 else 0, c.interval, c.timeout);
  }

  lemma AccountedIsBounded(c: Setup, w: World, horizon: nat, o: Outcome)
    requires ClockRuns(w) && SleepsAdvance(c, w) && c.timeout > 0.0 && c.interval > 0.0 && Accounted(c, w, horizon, o)
    ensures o.rounds as real <= c.timeout / c.interval + 1.0
  {
    RoundsAreBounded(c, w, o.rounds);
  }

  /** `orchestrate_failover`, observed for at most `horizon` rounds. The recorder never refuses. */
  method OrchestrateFailover(c: Setup, w: World, horizon: nat) returns (o: Outcome)
    requires ClockRuns(w)
    ensures o == BadArguments <==> c.timeout <= 0.0 || c.interval <= 0.0
    ensures o != BadArguments ==> Accounted(c, w, horizon, o)
    ensures o != BadArguments && SleepsAdvance(c, w) ==> o.rounds as real <= c.timeout / c.interval + 1.0
  {
    if c.timeout <= 0.0 || c.interval <= 0.0 { return BadArguments; }
    var recorder := new TimelineRecorder();
    var error := recorder.RecordEvent(0, w.start);
    if error.Some? { return RecorderRaised; }
    o := PollRounds(c, w, horizon, recorder);
    if SleepsAdvance(c, w) { AccountedIsBounded(c, w, horizon, o); }
  }
}
