/** Verdicts of the failover harness (validation/s1-s5-harness/s1s5_harness.py): reasons are
    either violations or failures to observe, and PASS is given only without any. */
module HarnessVerdict {
  import opened Basics

  // ----- samples ---------------------------------------------------------------------------

  datatype Role = Master | Follower | OtherRole

  /** What one node answered to one poll; `id` is the identity it claimed. */
  datatype Answer = Answer(ok: bool, id: Option<Id>, role: Role)

  datatype HubView = HubView(ok: bool, roles: map<Id, Role>)

  datatype Sample = Sample(t: real, nodes: map<Id, Answer>, hub: HubView) {
    predicate Ok(n: Id) { n in nodes && nodes[n].ok }
    predicate IsMaster(n: Id) { Ok(n) && nodes[n].role == Master }
    predicate OwnName(n: Id) { Ok(n) && nodes[n].id == Some(n) }
  }

  datatype Timing = Timing(
    deadline: real, hold: real, minDelay: real, maxGap: real, minAvailability: real)

  ghost predicate Sorted(samples: seq<Sample>) {
    forall i, j :: 0 <= i <= j < |samples| ==> samples[i].t <= samples[j].t
  }

  ghost predicate Inside(samples: seq<Sample>, start: real, end: real) {
    start <= end && forall i :: 0 <= i < |samples| ==> start <= samples[i].t <= end
  }

  // ----- reasons and verdicts -----------------------------------------------------------------

  datatype Code =
    | NoObservations | ObservabilityGap | HubUnobservable | ProbeInconclusive | ProbeNotCorroborated
    | IdentityMismatch | FollowerPromoted | MultipleMasters | MasterRoleLost | HubRoleDivergence
    | LogPromotionStarted | LogPromoted | LogMasterMissing
    | LogSyncApplied | LogPeerSync | LogEventPersisted
    | ProbeAccepted | ProbeUnexpected
    | MasterNotStopped | FailedMasterServing | NonCandidatePromoted | NoPromotion | PrematurePromotion
    | NotConverged | HubNotConverged | HubFailedMasterPresent | StateWritten

  /** A reason, possibly carried over from the baseline phase. */
  datatype Reason = Reason(code: Code, baseline: bool)

  datatype Verdict = PASS | FAIL | BLOCKED

  predicate Inconclusive(c: Code) {
    c.NoObservations? || c.ObservabilityGap? || c.HubUnobservable? || c.ProbeInconclusive? || c.ProbeNotCorroborated?
  }

  const OBSERVATION_PROBLEMS: set<Code> :=
    {NoObservations, ObservabilityGap, HubUnobservable, ProbeInconclusive, ProbeNotCorroborated}

  function VerdictFor(reasons: seq<Reason>): Verdict {
    if exists i :: 0 <= i < |reasons| && !Inconclusive(reasons[i].code) then FAIL
    else if reasons != [] then BLOCKED
    else PASS
  }

  /** Joining the baseline's reasons to a run's own: PASS needs both, one FAIL is enough, and
      observation problems alone never make it FAIL. */
  lemma JointVerdict(a: seq<Reason>, b: seq<Reason>)
    ensures VerdictFor(a + b) == PASS <==> VerdictFor(a) == PASS && VerdictFor(b) == PASS
    ensures VerdictFor(a + b) == FAIL <==> VerdictFor(a) == FAIL || VerdictFor(b) == FAIL
  {
    assert forall i :: 0 <= i < |a| ==> (a + b)[i] == a[i];
    assert forall i :: 0 <= i < |b| ==> (a + b)[|a| + i] == b[i];
  }

  function Flag(b: bool, c: Code): (r: seq<Code>)
    ensures forall x :: x in r <==> b && x == c
  {
    if b then [c] else []
  }

  method Dedupe(items: seq<Code>) returns (seen: seq<Reason>)
    ensures forall c :: c in items <==> Reason(c, false) in seen
    ensures forall r :: r in seen ==> !r.baseline
    ensures forall i, j :: 0 <= i < j < |seen| ==> seen[i] != seen[j]
  {
    seen := [];
    for k := 0 to |items|
      invariant forall c :: c in items[..k] <==> Reason(c, false) in seen
      invariant forall r :: r in seen ==> !r.baseline
      invariant forall i, j :: 0 <= i < j < |seen| ==> seen[i] != seen[j]
    {
      if Reason(items[k], false) !in seen { seen := seen + [Reason(items[k], false)]; }
    }
    assert items[..|items|] == items;
  }

  // ----- the expected candidate ------------------------------------------------------------------

  function Survivors(ids: seq<Id>, failed: Id): (r: seq<Id>)
    ensures forall n :: n in r <==> n in ids && n != failed
  {
    if ids == [] then []
    else (if ids[0] != failed then [ids[0]] else []) + Survivors(ids[1..], failed)
  }

  /** `expected_candidate`: the greatest survivor, and an error when nobody survives. */
  function ExpectedCandidate(ids: seq<Id>, failed: Id): (r: Result<Id, ()>)
    ensures r.Err? <==> forall n :: n in ids ==> n == failed
    ensures r.Ok? ==> IsGreatest(r.value, set n | n in ids && n != failed)
  {
    var s := Survivors(ids, failed);
    if s == [] then Err(())
    else
      assert s[0] in s;
      assert (set n | n in s) == (set n | n in ids && n != failed);
      Ok(Greatest(s))
  }

  // ----- availability ------------------------------------------------------------------------------

  function OkTimes(samples: seq<Sample>, n: Id): (r: seq<real>)
    ensures forall x :: x in r <==> exists i :: 0 <= i < |samples| && samples[i].Ok(n) && samples[i].t == x
    ensures |r| <= |samples|
  {
    if samples == [] then []
    else
      var rest := OkTimes(samples[..|samples| - 1], n);
      var last := samples[|samples| - 1];
      assert samples == samples[..|samples| - 1] + [last];
      if last.Ok(n) then rest + [last.t] else rest
  }

  /** The longest step between neighbours. */
  function MaxStep(points: seq<real>): real
    requires |points| >= 2
  {
    var step := points[|points| - 1] - points[|points| - 2];
    if |points| == 2 then step
    else
      var before := MaxStep(points[..|points| - 1]);
      if before >= step then before else step
  }

  /** `_availability`: the share of answered polls and the longest stretch without an answer. */
  function Availability(samples: seq<Sample>, n: Id, start: real, end: real): (real, real) {
    if samples == [] then (0.0, end - start)
    else
      var times := OkTimes(samples, n);
      var ratio := (|times| as real) / (|samples| as real);
      if times == [] then (ratio, end - start) else (ratio, MaxStep([start] + times + [end]))
  }

  predicate Unobserved(samples: seq<Sample>, n: Id, start: real, end: real, timing: Timing) {
    var (ratio, gap) := Availability(samples, n, start, end);
    ratio < timing.minAvailability || gap > timing.maxGap
  }

  ghost predicate SortedReals(xs: seq<real>) { forall i, j :: 0 <= i <= j < |xs| ==> xs[i] <= xs[j] }

  lemma {:induction false} OkTimesSorted(samples: seq<Sample>, n: Id)
    requires Sorted(samples)
    ensures SortedReals(OkTimes(samples, n))
  {
    if samples != [] {
      OkTimesSorted(samples[..|samples| - 1], n);
      var rest := OkTimes(samples[..|samples| - 1], n);
      forall k | 0 <= k < |rest| ensures rest[k] <= samples[|samples| - 1].t { assert rest[k] in rest; }
    }
  }

  lemma {:induction false} MaxStepIsMax(points: seq<real>, g: real)
    requires |points| >= 2
    ensures MaxStep(points) > g <==>
            exists i {:trigger points[i]} :: 0 <= i < |points| - 1 && points[i + 1] - points[i] > g
  {
    var m := |points| - 1;
    var front := points[..m];
    if |points| > 2 {
      MaxStepIsMax(front, g);
      if MaxStep(front) > g {
        var i :| 0 <= i < |front| - 1 && front[i + 1] - front[i] > g;
        assert points[i + 1] - points[i] > g;
      }
      forall i | 0 <= i < m - 1 && points[i + 1] - points[i] > g ensures MaxStep(front) > g {
        assert front[i + 1] - front[i] > g;
      }
    }
    assert points[m] - points[m - 1] > g ==> points[m - 1 + 1] - points[m - 1] > g;
  }

  ghost predicate AnsweredWithin(samples: seq<Sample>, n: Id, a: real, b: real) {
    exists i :: 0 <= i < |samples| && n in samples[i].nodes && samples[i].nodes[n].ok && a <= samples[i].t <= b
  }

  /** A closed stretch, longer than g, in which n never answered. */
  ghost predicate SilentStretch(samples: seq<Sample>, n: Id, a: real, b: real, g: real) {
    b - a > g && !AnsweredWithin(samples, n, a, b)
  }

  lemma {:induction false} FirstAtLeast(points: seq<real>, a: real) returns (j: nat)
    requires |points| >= 2 && points[0] <= a <= points[|points| - 1]
    ensures 1 <= j < |points| && points[j - 1] <= a <= points[j]
  {
    if |points| == 2 || points[|points| - 2] <= a { j := |points| - 1; }
    else { j := FirstAtLeast(points[..|points| - 1], a); }
  }

  function Points(samples: seq<Sample>, n: Id, start: real, end: real): seq<real> {
    [start] + OkTimes(samples, n) + [end]
  }

  lemma PointsSorted(samples: seq<Sample>, n: Id, start: real, end: real)
    requires Sorted(samples) && Inside(samples, start, end)
    ensures SortedReals(Points(samples, n, start, end))
  {
    var times := OkTimes(samples, n);
    OkTimesSorted(samples, n);
    forall k | 0 <= k < |times| ensures start <= times[k] <= end { assert times[k] in times; }
  }

  /** Where no step exceeds g, every longer stretch of the window holds an answer. */
  lemma SmallStepsReachEverywhere(samples: seq<Sample>, n: Id, start: real, end: real, a: real, b: real, g: real)
    requires MaxStep(Points(samples, n, start, end)) <= g
    requires start <= a && b <= end && b - a > g >= 0.0
    ensures !SilentStretch(samples, n, a, b, g)
  {
    var points := Points(samples, n, start, end);
    var times := OkTimes(samples, n);
    var j := FirstAtLeast(points, a);
    MaxStepIsMax(points, g);
    assert points[j - 1 + 1] - points[j - 1] <= g;
    assert points[j] == times[j - 1];
    assert times[j - 1] in times;
  }

  /** Just inside a long step there is a silent stretch. */
  lemma StepIsSilent(samples: seq<Sample>, n: Id, start: real, end: real, g: real, i: nat) returns (a: real, b: real)
    requires Sorted(samples) && Inside(samples, start, end) && g >= 0.0
    requires i < |OkTimes(samples, n)| + 1
    requires Points(samples, n, start, end)[i + 1] - Points(samples, n, start, end)[i] > g
    ensures start <= a && b <= end && SilentStretch(samples, n, a, b, g)
  {
    var times := OkTimes(samples, n);
    var points := Points(samples, n, start, end);
    PointsSorted(samples, n, start, end);
    assert start == points[0] <= points[i] && points[i + 1] <= points[|points| - 1] == end;
    var margin := (points[i + 1] - points[i] - g) / 4.0;
    a, b := points[i] + margin, points[i + 1] - margin;
    forall j | 0 <= j < |samples| && samples[j].Ok(n) ensures samples[j].t < a || b < samples[j].t {
      assert samples[j].t in times;
      var k :| 0 <= k < |times| && times[k] == samples[j].t;
      assert points[k + 1] == samples[j].t;
      assert points[k + 1] <= points[i] || points[i + 1] <= points[k + 1];
    }
  }

  /** The measured gap exceeds g exactly when some longer stretch of the window is silent. */
  lemma GapIsSilence(samples: seq<Sample>, n: Id, start: real, end: real, g: real)
    requires Sorted(samples) && Inside(samples, start, end) && g >= 0.0
    ensures Availability(samples, n, start, end).1 > g <==>
            exists a: real, b: real :: start <= a && b <= end && SilentStretch(samples, n, a, b, g)
  {
    var times := OkTimes(samples, n);
    var points := Points(samples, n, start, end);
    assert times == [] ==> MaxStep(points) == end - start;
    if MaxStep(points) > g {
      MaxStepIsMax(points, g);
      var i :| 0 <= i < |points| - 1 && points[i + 1] - points[i] > g;
      var a, b := StepIsSilent(samples, n, start, end, g, i);
    } else {
      forall a: real, b: real | start <= a && b <= end && b - a > g ensures !SilentStretch(samples, n, a, b, g) {
        SmallStepsReachEverywhere(samples, n, start, end, a, b, g);
      }
    }
  }

  // ----- probes and logs -------------------------------------------------------------------------

  datatype Probe = Accepted | Unexpected | Refused | OtherAnswer

  datatype Probes = Probes(results: Option<map<Id, Probe>>, logged: map<Id, bool>)

  predicate Answered(results: map<Id, Probe>, p: Probe) { exists n :: n in results && results[n] == p }

  /** The reasons `_qs_reasons` gives; nothing at all when no probe was sent. */
  predicate ProbeReason(c: Code, probes: Probes) {
    && probes.results.Some?
    && var r := probes.results.value;
       || (c.ProbeAccepted? && Answered(r, Accepted))
       || (c.ProbeUnexpected? && !Answered(r, Accepted) && Answered(r, Unexpected))
       || (c.ProbeInconclusive? && !Answered(r, Accepted) && !Answered(r, Unexpected) && Answered(r, OtherAnswer))
       || (c.ProbeNotCorroborated? && exists n :: n in probes.logged && !probes.logged[n])
  }

  method ProbeReasons(probes: Probes) returns (codes: seq<Code>)
    ensures forall c :: c in codes <==> ProbeReason(c, probes)
  {
    codes := [];
    if probes.results.None? { return; }
    var r := probes.results.value;
    if exists n :: n in r && r[n] == Accepted { codes := codes + [ProbeAccepted]; }
    else if exists n :: n in r && r[n] == Unexpected { codes := codes + [ProbeUnexpected]; }
    else if exists n :: n in r && r[n] != Refused {
      assert Answered(r, OtherAnswer);
      codes := codes + [ProbeInconclusive];
    }
    if exists n :: n in probes.logged && !probes.logged[n] { codes := codes + [ProbeNotCorroborated]; }
  }

  /** How often each event occurs in the node logs. */
  datatype LogCounts = LogCounts(
    promotionStarted: nat, promoted: nat, masterMissing: nat, syncApplied: nat, peerSync: nat, persisted: nat)

  predicate LogReason(c: Code, log: LogCounts) {
    || (c.LogPromotionStarted? && log.promotionStarted > 0)
    || (c.LogPromoted? && log.promoted > 0)
    || (c.LogMasterMissing? && log.masterMissing > 0)
    || (c.LogSyncApplied? && log.syncApplied > 0)
    || (c.LogPeerSync? && log.peerSync > 0)
    || (c.LogEventPersisted? && log.persisted > 0)
  }

  function LogReasons(log: LogCounts): (r: seq<Code>)
    ensures forall c :: c in r <==> LogReason(c, log)
  {
    Flag(log.promotionStarted > 0, LogPromotionStarted)
    + Flag(log.promoted > 0, LogPromoted)
    + Flag(log.masterMissing > 0, LogMasterMissing)
    + Flag(log.syncApplied > 0, LogSyncApplied)
    + Flag(log.peerSync > 0, LogPeerSync)
    + Flag(log.persisted > 0, LogEventPersisted)
  }

  // ----- stable master -----------------------------------------------------------------------------

  datatype StableInput = StableInput(
    samples: seq<Sample>, ids: seq<Id>, master: Id, start: real, end: real, log: LogCounts, probes: Probes)

  predicate WrongName(s: Sample) { exists n :: n in s.nodes && s.Ok(n) && !s.OwnName(n) }
  predicate OtherMaster(s: Sample, master: Id) { exists n :: n in s.nodes && n != master && s.IsMaster(n) }
  function MastersNow(s: Sample): set<Id> { set n | n in s.nodes && s.IsMaster(n) }
  predicate LostRole(s: Sample, master: Id) { s.Ok(master) && !s.IsMaster(master) }

  predicate RoleReason(c: Code, samples: seq<Sample>, master: Id) {
    || (c.IdentityMismatch? && exists i :: 0 <= i < |samples| && WrongName(samples[i]))
    || (c.FollowerPromoted? && exists i :: 0 <= i < |samples| && OtherMaster(samples[i], master))
    || (c.MultipleMasters? && exists i :: 0 <= i < |samples| && |MastersNow(samples[i])| >= 2)
    || (c.MasterRoleLost? && exists i :: 0 <= i < |samples| && LostRole(samples[i], master))
  }

  method RoleReasons(samples: seq<Sample>, master: Id) returns (codes: seq<Code>)
    ensures forall c :: c in codes <==> RoleReason(c, samples, master)
  {
    codes := [];
    if exists i :: 0 <= i < |samples| && WrongName(samples[i]) { codes := codes + [IdentityMismatch]; }
    var unexpected, several, lost := false, 0, false;
    for k := 0 to |samples|
      invariant unexpected <==> exists i :: 0 <= i < k && OtherMaster(samples[i], master)
      invariant several >= 0 && (several > 0 <==> exists i :: 0 <= i < k && |MastersNow(samples[i])| >= 2)
      invariant lost <==> exists i :: 0 <= i < k && LostRole(samples[i], master)
    {
      if |MastersNow(samples[k])| >= 2 { several := several + 1; }
      if OtherMaster(samples[k], master) { unexpected := true; }
      if LostRole(samples[k], master) { lost := true; }
    }
    if unexpected { codes := codes + [FollowerPromoted]; }
    if several > 0 { codes := codes + [MultipleMasters]; }
    if lost { codes := codes + [MasterRoleLost]; }
  }

  /** The hub lists exactly the expected role for each of these nodes. */
  predicate ShowsRoles(hub: HubView, ids: seq<Id>, master: Id) {
    forall n :: n in ids ==> n in hub.roles && hub.roles[n] == if n == master then Master else Follower
  }

  function HubAnswers(samples: seq<Sample>): (n: nat)
    ensures n <= |samples|
  {
    if samples == [] then 0
    else HubAnswers(samples[..|samples| - 1]) + if samples[|samples| - 1].hub.ok then 1 else 0
  }

  predicate Diverges(s: Sample, ids: seq<Id>, master: Id) { s.hub.ok && !ShowsRoles(s.hub, ids, master) }

  predicate HubReason(c: Code, samples: seq<Sample>, ids: seq<Id>, master: Id, least: real)
    requires samples != []
  {
    || (c.HubRoleDivergence? && exists i :: 0 <= i < |samples| && Diverges(samples[i], ids, master))
    || (c.HubUnobservable? && (HubAnswers(samples) as real) / (|samples| as real) < least)
  }

  method HubReasons(samples: seq<Sample>, ids: seq<Id>, master: Id, least: real) returns (codes: seq<Code>)
    requires samples != []
    ensures forall c :: c in codes <==> HubReason(c, samples, ids, master, least)
  {
    var diverged, answered := 0, 0;
    for k := 0 to |samples|
      invariant diverged >= 0 && (diverged > 0 <==> exists i :: 0 <= i < k && Diverges(samples[i], ids, master))
      invariant answered == HubAnswers(samples[..k])
    {
      assert samples[..k + 1][..k] == samples[..k];
      if !samples[k].hub.ok { continue; }
      answered := answered + 1;
      if !ShowsRoles(samples[k].hub, ids, master) { diverged := diverged + 1; }
    }
    assert samples[..|samples|] == samples;
    codes := [];
    if diverged > 0 { codes := codes + [HubRoleDivergence]; }
    if (answered as real) / (|samples| as real) < least { codes := codes + [HubUnobservable]; }
  }

  predicate GapReason(c: Code, samples: seq<Sample>, ids: seq<Id>, start: real, end: real, timing: Timing) {
    c.ObservabilityGap? && exists n :: n in ids && Unobserved(samples, n, start, end, timing)
  }

  method GapReasons(samples: seq<Sample>, ids: seq<Id>, start: real, end: real, timing: Timing)
    returns (codes: seq<Code>)
    ensures forall c :: c in codes <==> GapReason(c, samples, ids, start, end, timing)
  {
    codes := [];
    for k := 0 to |ids|
      invariant forall c :: c in codes <==>
                  c.ObservabilityGap? && exists n :: n in ids[..k] && Unobserved(samples, n, start, end, timing)
    {
      assert ids[..k + 1] == ids[..k] + [ids[k]];
      if Unobserved(samples, ids[k], start, end, timing) { codes := codes + [ObservabilityGap]; }
    }
    assert ids[..|ids|] == ids;
  }

  /** When `classify_stable_master` gives a reason. */
  ghost predicate StableReason(c: Code, i: StableInput, timing: Timing) {
    if i.samples == [] then c.NoObservations?
    else
      || RoleReason(c, i.samples, i.master)
      || HubReason(c, i.samples, i.ids, i.master, timing.minAvailability)
      || LogReason(c, i.log)
      || GapReason(c, i.samples, i.ids, i.start, i.end, timing)
      || ProbeReason(c, i.probes)
  }

  method ClassifyStableMaster(i: StableInput, timing: Timing) returns (verdict: Verdict, reasons: seq<Reason>)
    ensures verdict == VerdictFor(reasons)
    ensures forall r :: r in reasons <==> !r.baseline && StableReason(r.code, i, timing)
    ensures forall j, k :: 0 <= j < k < |reasons| ==> reasons[j] != reasons[k]
  {
    if i.samples == [] { return BLOCKED, [Reason(NoObservations, false)]; }
    var codes := RoleReasons(i.samples, i.master);
    var hub := HubReasons(i.samples, i.ids, i.master, timing.minAvailability);
    codes := codes + hub + LogReasons(i.log);
    var gaps := GapReasons(i.samples, i.ids, i.start, i.end, timing);
    var probes := ProbeReasons(i.probes);
    codes := codes + gaps + probes;
    reasons := Dedupe(codes);
    verdict := VerdictFor(reasons);
  }

  /** The polls n answered. */
  ghost function AnsweredAt(samples: seq<Sample>, n: Id): set<nat> {
    set i: nat | i < |samples| && n in samples[i].nodes && samples[i].nodes[n].ok
  }

  lemma {:induction false} OkTimesCount(samples: seq<Sample>, n: Id)
    ensures |OkTimes(samples, n)| == |AnsweredAt(samples, n)|
  {
    if samples != [] {
      var front, last := samples[..|samples| - 1], |samples| - 1;
      OkTimesCount(front, n);
      AnsweredGrows(samples, n);
      assert last !in AnsweredAt(front, n);
    }
  }

  lemma AnsweredGrows(samples: seq<Sample>, n: Id)
    requires samples != []
    ensures var front, last := samples[..|samples| - 1], |samples| - 1;
            AnsweredAt(samples, n) == AnsweredAt(front, n) + if samples[last].Ok(n) then {last} else {}
  {
  }

  /** The polls the hub answered. */
  ghost function HubAnsweredAt(samples: seq<Sample>): set<nat> { set i: nat | i < |samples| && samples[i].hub.ok }

  lemma {:induction false} HubAnswersCount(samples: seq<Sample>)
    ensures HubAnswers(samples) == |HubAnsweredAt(samples)|
  {
    if samples != [] {
      var front, last := samples[..|samples| - 1], |samples| - 1;
      HubAnswersCount(front);
      assert HubAnsweredAt(samples) == HubAnsweredAt(front) + if samples[last].hub.ok then {last} else {};
    }
  }

  /** The share of polls n answered is at least `least`. */
  ghost predicate AnsweredOften(samples: seq<Sample>, n: Id, least: real)
    requires samples != []
  {
    (|AnsweredAt(samples, n)| as real) / (|samples| as real) >= least
  }

  /** Every stretch of the window longer than the allowed gap holds an answer of n. */
  ghost predicate NeverSilent(samples: seq<Sample>, n: Id, start: real, end: real, g: real) {
    forall a: real, b: real :: start <= a && b <= end && b - a > g ==> AnsweredWithin(samples, n, a, b)
  }

  lemma ObservedMeans(samples: seq<Sample>, n: Id, start: real, end: real, timing: Timing)
    requires samples != [] && Sorted(samples) && Inside(samples, start, end) && timing.maxGap >= 0.0
    ensures !Unobserved(samples, n, start, end, timing) <==>
            AnsweredOften(samples, n, timing.minAvailability) && NeverSilent(samples, n, start, end, timing.maxGap)
  {
    var g := timing.maxGap;
    OkTimesCount(samples, n);
    GapIsSilence(samples, n, start, end, g);
    if NeverSilent(samples, n, start, end, g) {
      forall a: real, b: real | start <= a && b <= end ensures !SilentStretch(samples, n, a, b, g) {
        if b - a > g { assert AnsweredWithin(samples, n, a, b); }
      }
    } else {
      var a: real, b: real :| start <= a && b <= end && b - a > g && !AnsweredWithin(samples, n, a, b);
      assert SilentStretch(samples, n, a, b, g);
    }
  }

  ghost predicate NoRoleReason(samples: seq<Sample>, master: Id) { forall c :: !RoleReason(c, samples, master) }

  ghost predicate NoHubReason(samples: seq<Sample>, ids: seq<Id>, master: Id, least: real)
    requires samples != []
  {
    forall c :: !HubReason(c, samples, ids, master, least)
  }

  ghost predicate NoLogReason(log: LogCounts) { forall c :: !LogReason(c, log) }

  ghost predicate NoProbeReason(probes: Probes) { forall c :: !ProbeReason(c, probes) }

  ghost predicate NoGapReason(samples: seq<Sample>, ids: seq<Id>, start: real, end: real, timing: Timing) {
    forall c :: !GapReason(c, samples, ids, start, end, timing)
  }

  /** Whoever answers gives its own name; the master is MASTER whenever it answers, nobody else ever is. */
  ghost predicate RolesHold(samples: seq<Sample>, master: Id) {
    forall s :: s in samples ==> SampleHolds(s, master)
  }

  ghost predicate SampleHolds(s: Sample, master: Id) {
    forall n :: n in s.nodes && s.nodes[n].ok ==>
      s.nodes[n].id == Some(n) && (s.nodes[n].role == Master <==> n == master)
  }

  /** The hub answers often enough, and always with the expected roles. */
  ghost predicate HubHolds(samples: seq<Sample>, ids: seq<Id>, master: Id, least: real)
    requires samples != []
  {
    && HubAgrees(samples, ids, master)
    && (|HubAnsweredAt(samples)| as real) / (|samples| as real) >= least
  }

  /** Whenever the hub answers, it lists every node, the master as MASTER and the others as FOLLOWER. */
  ghost predicate HubAgrees(samples: seq<Sample>, ids: seq<Id>, master: Id) {
    forall s :: s in samples && s.hub.ok ==> ListsRoles(s.hub.roles, ids, master)
  }

  ghost predicate ListsRoles(roles: map<Id, Role>, ids: seq<Id>, master: Id) {
    forall n :: n in ids ==> n in roles && roles[n] == if n == master then Master else Follower
  }

  ghost predicate Watched(samples: seq<Sample>, ids: seq<Id>, start: real, end: real, timing: Timing)
    requires samples != []
  {
    forall n :: n in ids ==>
      AnsweredOften(samples, n, timing.minAvailability) && NeverSilent(samples, n, start, end, timing.maxGap)
  }

  ghost predicate ProbesRefused(probes: Probes) {
    probes.results.Some? ==>
      && (forall n :: n in probes.results.value ==> probes.results.value[n] == Refused)
      && (forall n :: n in probes.logged ==> probes.logged[n])
  }

  /** What a PASS of a stable-master window stands for. */
  ghost predicate StableForSure(i: StableInput, timing: Timing) {
    && i.samples != []
    && RolesHold(i.samples, i.master)
    && HubHolds(i.samples, i.ids, i.master, timing.minAvailability)
    && i.log == LogCounts(0, 0, 0, 0, 0, 0)
    && Watched(i.samples, i.ids, i.start, i.end, timing)
    && ProbesRefused(i.probes)
  }

  lemma OneMasterAtMost(s: Sample, master: Id)
    requires !OtherMaster(s, master)
    ensures |MastersNow(s)| < 2
  {
    assert MastersNow(s) <= {master};
    SubsetIsSmaller(MastersNow(s), {master});
  }

  lemma SampleMeans(s: Sample, master: Id)
    ensures SampleHolds(s, master) <==> !WrongName(s) && !OtherMaster(s, master) && !LostRole(s, master)
  {
  }

  lemma RolesMean(samples: seq<Sample>, master: Id)
    ensures NoRoleReason(samples, master) <==> RolesHold(samples, master)
  {
    forall s ensures SampleHolds(s, master) <==> !WrongName(s) && !OtherMaster(s, master) && !LostRole(s, master) {
      SampleMeans(s, master);
    }
    if RolesHold(samples, master) {
      forall i | 0 <= i < |samples| ensures |MastersNow(samples[i])| < 2 && SampleHolds(samples[i], master) {
        assert samples[i] in samples;
        OneMasterAtMost(samples[i], master);
      }
    }
    if NoRoleReason(samples, master) {
      assert !RoleReason(IdentityMismatch, samples, master) && !RoleReason(FollowerPromoted, samples, master)
             && !RoleReason(MasterRoleLost, samples, master);
    }
  }

  ghost predicate Misnamed(s: Sample) { exists n :: n in s.nodes && s.nodes[n].ok && s.nodes[n].id != Some(n) }

  ghost predicate LedBy(s: Sample, n: Id) { n in s.nodes && s.nodes[n].ok && s.nodes[n].role == Master }

  ghost predicate LedByTwo(s: Sample) { exists m, n :: m != n && LedBy(s, m) && LedBy(s, n) }

  lemma TwoMasters(s: Sample)
    ensures |MastersNow(s)| >= 2 <==> LedByTwo(s)
  {
    forall n ensures n in MastersNow(s) <==> LedBy(s, n) {
    }
    if m, n :| m != n && LedBy(s, m) && LedBy(s, n) { SubsetIsSmaller({m, n}, MastersNow(s)); }
    if |MastersNow(s)| >= 2 {
      var m :| m in MastersNow(s);
      assert |MastersNow(s) - {m}| >= 1;
      var n :| n in MastersNow(s) - {m};
      assert LedBy(s, m) && LedBy(s, n);
    }
  }

  ghost predicate LedByOther(s: Sample, master: Id) { exists n :: n != master && LedBy(s, n) }

  ghost predicate Unled(s: Sample, master: Id) {
    master in s.nodes && s.nodes[master].ok && s.nodes[master].role != Master
  }

  lemma SampleFaults(s: Sample, master: Id)
    ensures WrongName(s) <==> Misnamed(s)
    ensures OtherMaster(s, master) <==> LedByOther(s, master)
    ensures |MastersNow(s)| >= 2 <==> LedByTwo(s)
    ensures LostRole(s, master) <==> Unled(s, master)
  {
    TwoMasters(s);
    forall n ensures s.IsMaster(n) <==> LedBy(s, n) {
    }
  }

  /** Which fault gives which of the role reasons. */
  lemma RoleReasonsMean(samples: seq<Sample>, master: Id)
    ensures RoleReason(IdentityMismatch, samples, master) <==> exists s :: s in samples && Misnamed(s)
    ensures RoleReason(FollowerPromoted, samples, master) <==> exists s :: s in samples && LedByOther(s, master)
    ensures RoleReason(MultipleMasters, samples, master) <==> exists s :: s in samples && LedByTwo(s)
    ensures RoleReason(MasterRoleLost, samples, master) <==> exists s :: s in samples && Unled(s, master)
  {
    forall i | 0 <= i < |samples|
      ensures samples[i] in samples
      ensures WrongName(samples[i]) <==> Misnamed(samples[i])
      ensures OtherMaster(samples[i], master) <==> LedByOther(samples[i], master)
      ensures |MastersNow(samples[i])| >= 2 <==> LedByTwo(samples[i])
      ensures LostRole(samples[i], master) <==> Unled(samples[i], master)
    {
      SampleFaults(samples[i], master);
    }
  }

  lemma HubDiverges(samples: seq<Sample>, ids: seq<Id>, master: Id)
    ensures (exists i :: 0 <= i < |samples| && Diverges(samples[i], ids, master)) <==> !HubAgrees(samples, ids, master)
  {
    forall i | 0 <= i < |samples|
      ensures Diverges(samples[i], ids, master)
              <==> samples[i].hub.ok && !ListsRoles(samples[i].hub.roles, ids, master)
    {
    }
  }

  lemma HubMeans(samples: seq<Sample>, ids: seq<Id>, master: Id, least: real)
    requires samples != []
    ensures NoHubReason(samples, ids, master, least) <==> HubHolds(samples, ids, master, least)
    ensures HubReason(HubRoleDivergence, samples, ids, master, least) <==> !HubAgrees(samples, ids, master)
  {
    HubAnswersCount(samples);
    HubDiverges(samples, ids, master);
    if NoHubReason(samples, ids, master, least) {
      assert !HubReason(HubRoleDivergence, samples, ids, master, least)
             && !HubReason(HubUnobservable, samples, ids, master, least);
    }
  }

  lemma LogsMean(log: LogCounts)
    ensures NoLogReason(log) <==> log == LogCounts(0, 0, 0, 0, 0, 0)
    ensures LogReason(LogPromotionStarted, log) <==> log.promotionStarted > 0
    ensures LogReason(LogPromoted, log) <==> log.promoted > 0
    ensures LogReason(LogMasterMissing, log) <==> log.masterMissing > 0
    ensures LogReason(LogSyncApplied, log) <==> log.syncApplied > 0
    ensures LogReason(LogPeerSync, log) <==> log.peerSync > 0
    ensures LogReason(LogEventPersisted, log) <==> log.persisted > 0
  {
    if NoLogReason(log) {
      assert !LogReason(LogPromotionStarted, log) && !LogReason(LogPromoted, log) && !LogReason(LogMasterMissing, log);
      assert !LogReason(LogSyncApplied, log) && !LogReason(LogPeerSync, log) && !LogReason(LogEventPersisted, log);
    }
  }

  lemma ProbesMean(probes: Probes)
    ensures NoProbeReason(probes) <==> ProbesRefused(probes)
  {
    if NoProbeReason(probes) && probes.results.Some? {
      assert !ProbeReason(ProbeAccepted, probes) && !ProbeReason(ProbeUnexpected, probes)
             && !ProbeReason(ProbeInconclusive, probes) && !ProbeReason(ProbeNotCorroborated, probes);
      var r := probes.results.value;
      assert !Answered(r, Accepted) && !Answered(r, Unexpected) && !Answered(r, OtherAnswer);
    }
  }

  lemma GapsMean(samples: seq<Sample>, ids: seq<Id>, start: real, end: real, timing: Timing)
    requires samples != [] && Sorted(samples) && Inside(samples, start, end) && timing.maxGap >= 0.0
    ensures NoGapReason(samples, ids, start, end, timing) <==> Watched(samples, ids, start, end, timing)
  {
    forall n | n in ids
      ensures !Unobserved(samples, n, start, end, timing) <==>
              AnsweredOften(samples, n, timing.minAvailability) && NeverSilent(samples, n, start, end, timing.maxGap)
    {
      ObservedMeans(samples, n, start, end, timing);
    }
    if NoGapReason(samples, ids, start, end, timing) {
      assert !GapReason(ObservabilityGap, samples, ids, start, end, timing);
    }
  }

  lemma PassMeansNoReason(reasons: seq<Reason>, given: Code -> bool)
    requires forall r :: r in reasons <==> !r.baseline && given(r.code)
    ensures VerdictFor(reasons) == PASS <==> forall c :: !given(c)
    ensures VerdictFor(reasons) == FAIL <==> exists c :: given(c) && c !in OBSERVATION_PROBLEMS
  {
    if reasons == [] {
      forall c ensures !given(c) { assert Reason(c, false) !in reasons; }
    } else {
      assert reasons[0] in reasons;
    }
    forall i | 0 <= i < |reasons| ensures given(reasons[i].code) { assert reasons[i] in reasons; }
    forall c | given(c) && c !in OBSERVATION_PROBLEMS ensures VerdictFor(reasons) == FAIL {
      assert Reason(c, false) in reasons;
    }
  }

  lemma SplitStableReasons(i: StableInput, timing: Timing)
    requires i.samples != []
    ensures (forall c :: !StableReason(c, i, timing)) <==>
            && NoRoleReason(i.samples, i.master)
            && NoHubReason(i.samples, i.ids, i.master, timing.minAvailability)
            && NoLogReason(i.log)
            && NoGapReason(i.samples, i.ids, i.start, i.end, timing)
            && NoProbeReason(i.probes)
  {
    if forall c :: !StableReason(c, i, timing) {
      forall c
        ensures !RoleReason(c, i.samples, i.master) && !HubReason(c, i.samples, i.ids, i.master, timing.minAvailability)
                && !LogReason(c, i.log) && !GapReason(c, i.samples, i.ids, i.start, i.end, timing)
                && !ProbeReason(c, i.probes)
      {
        assert !StableReason(c, i, timing);
      }
    }
  }

  ghost predicate ProbeAdmitted(probes: Probes) {
    probes.results.Some? && exists n :: n in probes.results.value && probes.results.value[n] in {Accepted, Unexpected}
  }

  /** What a FAIL of a stable-master window stands for. */
  ghost predicate StableViolated(i: StableInput) {
    && i.samples != []
    && (|| !RolesHold(i.samples, i.master)
        || !HubAgrees(i.samples, i.ids, i.master)
        || i.log != LogCounts(0, 0, 0, 0, 0, 0)
        || ProbeAdmitted(i.probes))
  }

  ghost predicate SomeProbe(probes: Probes, kinds: set<Probe>) {
    probes.results.Some? && exists n :: n in probes.results.value && probes.results.value[n] in kinds
  }

  /** Which answers give which of the probe reasons: the worst one decides. */
  lemma ProbeReasonsMean(probes: Probes)
    ensures ProbeReason(ProbeAccepted, probes) <==> SomeProbe(probes, {Accepted})
    ensures ProbeReason(ProbeUnexpected, probes) <==> SomeProbe(probes, {Unexpected}) && !SomeProbe(probes, {Accepted})
    ensures ProbeReason(ProbeInconclusive, probes)
            <==> SomeProbe(probes, {OtherAnswer}) && !SomeProbe(probes, {Accepted, Unexpected})
    ensures ProbeReason(ProbeNotCorroborated, probes)
            <==> probes.results.Some? && exists n :: n in probes.logged && !probes.logged[n]
  {
    if probes.results.Some? {
      var r := probes.results.value;
      forall n | n in r ensures Answered(r, r[n]) {
      }
    }
  }

  lemma ProbesAdmittedMean(probes: Probes)
    ensures ProbeAdmitted(probes) <==> ProbeReason(ProbeAccepted, probes) || ProbeReason(ProbeUnexpected, probes)
  {
    if ProbeAdmitted(probes) {
      var n :| n in probes.results.value && probes.results.value[n] in {Accepted, Unexpected};
      assert Answered(probes.results.value, probes.results.value[n]);
    }
  }

  ghost predicate Violates(c: Code, i: StableInput)
    requires i.samples != []
  {
    || RoleReason(c, i.samples, i.master)
    || (c.HubRoleDivergence? && !HubAgrees(i.samples, i.ids, i.master))
    || LogReason(c, i.log)
    || ((c.ProbeAccepted? || c.ProbeUnexpected?) && ProbeReason(c, i.probes))
  }

  lemma ReasonIsViolation(c: Code, i: StableInput, timing: Timing)
    requires i.samples != [] && StableReason(c, i, timing) && c !in OBSERVATION_PROBLEMS
    ensures Violates(c, i)
  {
    HubDiverges(i.samples, i.ids, i.master);
  }

  lemma ViolationIsReason(c: Code, i: StableInput, timing: Timing)
    requires i.samples != [] && Violates(c, i)
    ensures StableReason(c, i, timing) && c !in OBSERVATION_PROBLEMS
  {
    HubDiverges(i.samples, i.ids, i.master);
  }

  lemma ViolationsMean(i: StableInput, timing: Timing)
    requires i.samples != []
    ensures (exists c :: StableReason(c, i, timing) && c !in OBSERVATION_PROBLEMS) <==> StableViolated(i)
  {
    forall c ensures StableReason(c, i, timing) && c !in OBSERVATION_PROBLEMS <==> Violates(c, i) {
      if StableReason(c, i, timing) && c !in OBSERVATION_PROBLEMS { ReasonIsViolation(c, i, timing); }
      if Violates(c, i) { ViolationIsReason(c, i, timing); }
    }
    SomethingViolates(i);
  }

  lemma SomethingViolates(i: StableInput)
    requires i.samples != []
    ensures (exists c :: Violates(c, i)) <==> StableViolated(i)
  {
    RolesMean(i.samples, i.master);
    LogsMean(i.log);
    ProbesAdmittedMean(i.probes);
    if c :| RoleReason(c, i.samples, i.master) { assert Violates(c, i); }
    if c :| LogReason(c, i.log) { assert Violates(c, i); }
    if !HubAgrees(i.samples, i.ids, i.master) { assert Violates(HubRoleDivergence, i); }
    if ProbeAdmitted(i.probes) { assert Violates(ProbeAccepted, i) || Violates(ProbeUnexpected, i); }
  }

  /** PASS of a stable-master window is given exactly when it stands for what it says, and FAIL
      only for a violation. */
  lemma StablePassIsExact(i: StableInput, timing: Timing, reasons: seq<Reason>)
    requires Sorted(i.samples) && Inside(i.samples, i.start, i.end) && timing.maxGap >= 0.0
    requires forall r :: r in reasons <==> !r.baseline && StableReason(r.code, i, timing)
    ensures VerdictFor(reasons) == PASS <==> StableForSure(i, timing)
    ensures VerdictFor(reasons) == FAIL <==> StableViolated(i)
  {
    var given := c => StableReason(c, i, timing);
    PassMeansNoReason(reasons, given);
    assert (forall c :: !StableReason(c, i, timing)) <==> (forall c :: !given(c)) by {
      forall c ensures given(c) <==> StableReason(c, i, timing) {}
    }
    if i.samples == [] {
      assert StableReason(NoObservations, i, timing);
    } else {
      StableReasonsMean(i, timing);
      ViolationsMean(i, timing);
    }
    assert (exists c :: StableReason(c, i, timing) && c !in OBSERVATION_PROBLEMS)
           <==> (exists c :: given(c) && c !in OBSERVATION_PROBLEMS) by {
      forall c ensures given(c) <==> StableReason(c, i, timing) {}
    }
  }

  lemma StableReasonsMean(i: StableInput, timing: Timing)
    requires i.samples != [] && Sorted(i.samples) && Inside(i.samples, i.start, i.end) && timing.maxGap >= 0.0
    ensures (forall c :: !StableReason(c, i, timing)) <==> StableForSure(i, timing)
  {
    SplitStableReasons(i, timing);
    RolesMean(i.samples, i.master);
    HubMeans(i.samples, i.ids, i.master, timing.minAvailability);
    LogsMean(i.log);
    ProbesMean(i.probes);
    GapsMean(i.samples, i.ids, i.start, i.end, timing);
  }
}
