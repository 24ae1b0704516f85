/** The failover verdict (validation/s1-s5-harness/s1s5_harness.py, `classify_failover`). */
module HarnessFailover {
  import opened Basics
  import opened HarnessVerdict

  /** What happened after the kill; `written` counts the log events that write shared state. */
  datatype FailoverInput = FailoverInput(
    post: seq<Sample>, ids: seq<Id>, failed: Id, kill: real, stopped: bool, written: nat,
    probe: Option<Probe>, logged: map<Id, bool>)

  function MastersAmong(s: Sample, nodes: seq<Id>): (r: seq<Id>)
    ensures forall n :: n in r <==> n in nodes && s.IsMaster(n)
    ensures |r| <= |nodes|
  {
    if nodes == [] then [] else (if s.IsMaster(nodes[0]) then [nodes[0]] else []) + MastersAmong(s, nodes[1..])
  }

  predicate WrongMaster(s: Sample, survivors: seq<Id>, candidate: Id) {
    exists n :: n in survivors && n != candidate && s.IsMaster(n)
  }

  /** Every survivor that answers has its final role. */
  predicate Final(s: Sample, survivors: seq<Id>, candidate: Id) {
    forall n :: n in survivors && s.Ok(n) ==> s.nodes[n].role == if n == candidate then Master else Follower
  }

  predicate AllFinal(samples: seq<Sample>, survivors: seq<Id>, candidate: Id) {
    forall i :: 0 <= i < |samples| ==> Final(samples[i], survivors, candidate)
  }

  /** The first sample that shows the candidate as MASTER. */
  function FirstPromotion(post: seq<Sample>, candidate: Id): (r: Option<nat>)
    ensures r.Some? ==> r.value < |post| && post[r.value].IsMaster(candidate)
                        && forall i :: 0 <= i < r.value ==> !post[i].IsMaster(candidate)
    ensures r.None? ==> forall i :: 0 <= i < |post| ==> !post[i].IsMaster(candidate)
  {
    if post == [] then None
    else
      var before := FirstPromotion(post[..|post| - 1], candidate);
      if before.Some? then before
      else if post[|post| - 1].IsMaster(candidate) then Some(|post| - 1) else None
  }

  function After(samples: seq<Sample>, t: real): (r: seq<Sample>)
    ensures forall s :: s in r <==> s in samples && s.t >= t
  {
    if samples == [] then []
    else
      var rest := After(samples[..|samples| - 1], t);
      var last := samples[|samples| - 1];
      assert samples == samples[..|samples| - 1] + [last];
      if last.t >= t then rest + [last] else rest
  }

  lemma {:induction false} AfterStaysSorted(samples: seq<Sample>, t: real)
    requires Sorted(samples)
    ensures Sorted(After(samples, t))
  {
    if samples != [] {
      var front := samples[..|samples| - 1];
      AfterStaysSorted(front, t);
      var rest := After(front, t);
      forall i | 0 <= i < |rest| ensures rest[i].t <= samples[|samples| - 1].t { assert rest[i] in rest; }
    }
  }

  /** q is where the roles settle: from there on all are final, and from no earlier sample. */
  ghost predicate SettlesAt(after: seq<Sample>, survivors: seq<Id>, candidate: Id, q: nat) {
    && q < |after| && AllFinal(after[q..], survivors, candidate)
    && forall i :: 0 <= i < q ==> !AllFinal(after[i..], survivors, candidate)
  }

  method FindSettled(after: seq<Sample>, survivors: seq<Id>, candidate: Id) returns (q: Option<nat>)
    ensures q.Some? ==> SettlesAt(after, survivors, candidate, q.value)
    ensures q.None? ==> forall i :: 0 <= i < |after| ==> !AllFinal(after[i..], survivors, candidate)
  {
    for i := 0 to |after|
      invariant forall j :: 0 <= j < i ==> !AllFinal(after[j..], survivors, candidate)
    {
      if AllFinal(after[i..], survivors, candidate) { return Some(i); }
    }
    return None;
  }

  lemma SettlesOnce(after: seq<Sample>, survivors: seq<Id>, candidate: Id, p: nat, q: nat)
    requires SettlesAt(after, survivors, candidate, p) && SettlesAt(after, survivors, candidate, q)
    ensures p == q
  {
  }

  /** The roles settled at after[q] and held until the last sample. */
  ghost predicate HeldSince(
    i: FailoverInput, survivors: seq<Id>, candidate: Id, after: seq<Sample>, q: nat, timing: Timing)
    requires i.post != []
  {
    && SettlesAt(after, survivors, candidate, q)
    && i.post[|i.post| - 1].t - after[q].t >= timing.hold
  }

  /** When the promotion part of `classify_failover` gives a reason. */
  ghost predicate PromotionReason(c: Code, i: FailoverInput, survivors: seq<Id>, candidate: Id, timing: Timing)
    requires i.post != []
  {
    var first := FirstPromotion(i.post, candidate);
    if first.None? then c.NoPromotion?
    else
      var t := i.post[first.value].t;
      var after := After(i.post, t);
      || (c.PrematurePromotion? && t - i.kill < timing.minDelay)
      || (c.NoPromotion? && t - i.kill > timing.deadline)
      || (c.NotConverged? && !exists q: nat :: HeldSince(i, survivors, candidate, after, q, timing))
      || (exists q: nat :: HeldSince(i, survivors, candidate, after, q, timing)
            && GapReason(c, After(after, after[q].t), survivors, after[q].t, i.post[|i.post| - 1].t, timing))
  }

  lemma HeldOnce(
    i: FailoverInput, survivors: seq<Id>, candidate: Id, after: seq<Sample>, p: nat, q: nat, timing: Timing)
    requires i.post != [] && HeldSince(i, survivors, candidate, after, p, timing)
    requires HeldSince(i, survivors, candidate, after, q, timing)
    ensures p == q
  {
    SettlesOnce(after, survivors, candidate, p, q);
  }

  /** Where the roles settled and held, the place is unique, and the gap reason is about it. */
  lemma ReasonWhenHeld(
    c: Code, i: FailoverInput, survivors: seq<Id>, candidate: Id, timing: Timing, after: seq<Sample>, t: real, q: nat)
    requires i.post != [] && FirstPromotion(i.post, candidate).Some?
    requires t == i.post[FirstPromotion(i.post, candidate).value].t && after == After(i.post, t)
    requires HeldSince(i, survivors, candidate, after, q, timing)
    ensures PromotionReason(c, i, survivors, candidate, timing) <==>
              || (c.PrematurePromotion? && t - i.kill < timing.minDelay)
              || (c.NoPromotion? && t - i.kill > timing.deadline)
              || GapReason(c, After(after, after[q].t), survivors, after[q].t, i.post[|i.post| - 1].t, timing)
  {
    forall p: nat | HeldSince(i, survivors, candidate, after, p, timing) ensures p == q {
      HeldOnce(i, survivors, candidate, after, p, q, timing);
    }
  }

  method PromotionReasons(i: FailoverInput, survivors: seq<Id>, candidate: Id, timing: Timing)
    returns (codes: seq<Code>)
    requires i.post != []
    ensures forall c :: c in codes <==> PromotionReason(c, i, survivors, candidate, timing)
  {
    codes := [];
    var first := FirstPromotion(i.post, candidate);
    if first.None? { return [NoPromotion]; }
    var t := i.post[first.value].t;
    if t - i.kill < timing.minDelay { codes := codes + [PrematurePromotion]; }
    if t - i.kill > timing.deadline { codes := codes + [NoPromotion]; }
    var after := After(i.post, t);
    var end := i.post[|i.post| - 1].t;
    var settled := FindSettled(after, survivors, candidate);
    if settled.None? || end - after[settled.value].t < timing.hold {
      codes := codes + [NotConverged];
    } else {
      forall c { ReasonWhenHeld(c, i, survivors, candidate, timing, after, t, settled.value); }
      var t' := after[settled.value].t;
      var gaps := GapReasons(After(after, t'), survivors, t', end, timing);
      codes := codes + gaps;
    }
  }

  /** No sample after the i-th shows the hub answering. */
  predicate SilentAfter(post: seq<Sample>, i: int) { forall j :: 0 <= j < |post| && i < j ==> !post[j].hub.ok }

  /** The last answer of the hub. */
  function LastHub(post: seq<Sample>): (r: Option<HubView>)
    ensures r.None? <==> SilentAfter(post, -1)
    ensures r.Some? ==> exists i :: 0 <= i < |post| && post[i].hub == r.value && post[i].hub.ok && SilentAfter(post, i)
  {
    if post == [] then None
    else
      var last := |post| - 1;
      if post[last].hub.ok then
        assert SilentAfter(post, last);
        Some(post[last].hub)
      else
        var before := LastHub(post[..last]);
        assert forall i :: 0 <= i < last && SilentAfter(post[..last], i) ==> SilentAfter(post, i);
        before
  }

  predicate LastHubReason(c: Code, post: seq<Sample>, survivors: seq<Id>, candidate: Id, failed: Id) {
    var last := LastHub(post);
    if last.None? then c.HubUnobservable?
    else
      || (c.HubNotConverged? && !ShowsRoles(last.value, survivors, candidate))
      || (c.HubFailedMasterPresent? && failed in last.value.roles)
  }

  function LastHubReasons(post: seq<Sample>, survivors: seq<Id>, candidate: Id, failed: Id): (r: seq<Code>)
    ensures forall c :: c in r <==> LastHubReason(c, post, survivors, candidate, failed)
  {
    var last := LastHub(post);
    if last.None? then [HubUnobservable]
    else
      Flag(!ShowsRoles(last.value, survivors, candidate), HubNotConverged)
      + Flag(failed in last.value.roles, HubFailedMasterPresent)
  }

  predicate StillServing(s: Sample, failed: Id, kill: real) { s.t >= kill + 2.0 && s.Ok(failed) }

  predicate AnyWrongName(post: seq<Sample>) { exists k :: 0 <= k < |post| && WrongName(post[k]) }

  predicate AnyStillServing(post: seq<Sample>, failed: Id, kill: real) {
    exists k :: 0 <= k < |post| && StillServing(post[k], failed, kill)
  }

  predicate AnyWrongMaster(post: seq<Sample>, survivors: seq<Id>, candidate: Id) {
    exists k :: 0 <= k < |post| && WrongMaster(post[k], survivors, candidate)
  }

  predicate AnyTwoMasters(post: seq<Sample>, survivors: seq<Id>) {
    exists k :: 0 <= k < |post| && |MastersAmong(post[k], survivors)| >= 2
  }

  predicate SurvivorReason(c: Code, i: FailoverInput, survivors: seq<Id>, candidate: Id) {
    || (c.IdentityMismatch? && AnyWrongName(i.post))
    || (c.FailedMasterServing? && AnyStillServing(i.post, i.failed, i.kill))
    || (c.NonCandidatePromoted? && AnyWrongMaster(i.post, survivors, candidate))
    || (c.MultipleMasters? && AnyTwoMasters(i.post, survivors))
  }

  function SurvivorReasons(i: FailoverInput, survivors: seq<Id>, candidate: Id): (r: seq<Code>)
    ensures forall c :: c in r <==> SurvivorReason(c, i, survivors, candidate)
  {
    Flag(AnyWrongName(i.post), IdentityMismatch)
    + Flag(AnyStillServing(i.post, i.failed, i.kill), FailedMasterServing)
    + Flag(AnyWrongMaster(i.post, survivors, candidate), NonCandidatePromoted)
    + Flag(AnyTwoMasters(i.post, survivors), MultipleMasters)
  }

  function ProbesOf(i: FailoverInput, candidate: Id): Probes {
    Probes(if i.probe.Some? then Some(map[candidate := i.probe.value]) else None, i.logged)
  }

  /** When the samples after the kill give a reason. */
  ghost predicate PostReason(c: Code, i: FailoverInput, survivors: seq<Id>, candidate: Id, timing: Timing)
    requires i.post != []
  {
    || SurvivorReason(c, i, survivors, candidate)
    || PromotionReason(c, i, survivors, candidate, timing)
    || LastHubReason(c, i.post, survivors, candidate, i.failed)
    || (c.StateWritten? && i.written > 0)
    || ProbeReason(c, ProbesOf(i, candidate))
  }

  method PostReasons(i: FailoverInput, survivors: seq<Id>, candidate: Id, timing: Timing) returns (codes: seq<Code>)
    requires i.post != []
    ensures forall c :: c in codes <==> PostReason(c, i, survivors, candidate, timing)
  {
    var promotion := PromotionReasons(i, survivors, candidate, timing);
    var probes := ProbeReasons(ProbesOf(i, candidate));
    codes := SurvivorReasons(i, survivors, candidate) + promotion
             + LastHubReasons(i.post, survivors, candidate, i.failed)
             + Flag(i.written > 0, StateWritten) + probes;
  }

  /** When `classify_failover` gives a reason. */
  ghost predicate FailoverReason(c: Code, i: FailoverInput, candidate: Id, timing: Timing) {
    || (c.MasterNotStopped? && !i.stopped)
    || (c.NoObservations? && i.post == [])
    || (i.post != [] && PostReason(c, i, Survivors(i.ids, i.failed), candidate, timing))
  }

  /** `classify_failover`; the error is `max` of no survivors. */
  method ClassifyFailover(i: FailoverInput, timing: Timing) returns (r: Result<(Verdict, seq<Reason>), ()>)
    ensures r.Err? <==> forall n :: n in i.ids ==> n == i.failed
    ensures r.Ok? ==> r.value.0 == VerdictFor(r.value.1)
    ensures r.Ok? ==> forall x :: x in r.value.1 <==>
              !x.baseline && FailoverReason(x.code, i, ExpectedCandidate(i.ids, i.failed).value, timing)
    ensures r.Ok? ==> forall j, k :: 0 <= j < k < |r.value.1| ==> r.value.1[j] != r.value.1[k]
  {
    var expected := ExpectedCandidate(i.ids, i.failed);
    if expected.Err? { return Err(()); }
    var candidate := expected.value;
    var codes := Flag(!i.stopped, MasterNotStopped);
    var post := [NoObservations];
    if i.post != [] { post := PostReasons(i, Survivors(i.ids, i.failed), candidate, timing); }
    var reasons := Dedupe(codes + post);
    return Ok((VerdictFor(reasons), reasons));
  }

  // ----- longest run -------------------------------------------------------------------------

  ghost predicate Streak(samples: seq<Sample>, p: Sample -> bool, i: nat, j: nat) {
    i <= j < |samples| && forall k :: i <= k <= j ==> p(samples[k])
  }

  /** Where the streak that ends at sample j began. */
  function StreakStart(samples: seq<Sample>, p: Sample -> bool, j: nat): (i: nat)
    requires j < |samples| && p(samples[j])
    ensures Streak(samples, p, i, j) && (i > 0 ==> !p(samples[i - 1]))
  {
    if j > 0 && p(samples[j - 1]) then StreakStart(samples, p, j - 1) else j
  }

  /** The longest streak among those that end before k. */
  function LongestBefore(samples: seq<Sample>, p: Sample -> bool, k: nat): (r: real)
    requires k <= |samples|
    ensures r >= 0.0
  {
    if k == 0 then 0.0
    else
      var before := LongestBefore(samples, p, k - 1);
      if !p(samples[k - 1]) then before
      else
        var length := samples[k - 1].t - samples[StreakStart(samples, p, k - 1)].t;
        if length > before then length else before
  }

  lemma {:induction false} LongestIsLongest(samples: seq<Sample>, p: Sample -> bool, k: nat, i: nat, j: nat)
    requires Sorted(samples) && k <= |samples| && j < k && Streak(samples, p, i, j)
    ensures samples[j].t - samples[i].t <= LongestBefore(samples, p, k)
  {
    if j < k - 1 {
      LongestIsLongest(samples, p, k - 1, i, j);
    } else {
      var start := StreakStart(samples, p, j);
      assert start == 0 || !p(samples[start - 1]);
    }
  }

  lemma {:induction false} LongestIsReached(samples: seq<Sample>, p: Sample -> bool, k: nat)
    requires k <= |samples|
    ensures LongestBefore(samples, p, k) == 0.0
            || exists i: nat, j: nat ::
                 Streak(samples, p, i, j) && samples[j].t - samples[i].t == LongestBefore(samples, p, k)
  {
    if k > 0 {
      LongestIsReached(samples, p, k - 1);
      if p(samples[k - 1]) { assert Streak(samples, p, StreakStart(samples, p, k - 1), k - 1); }
    }
  }

  /** `_longest_run`: the longest time over which consecutive samples all satisfy p. */
  method LongestRun(samples: seq<Sample>, p: Sample -> bool) returns (longest: real)
    ensures longest == LongestBefore(samples, p, |samples|)
  {
    longest := 0.0;
    var run: Option<real> := None;
    for k := 0 to |samples|
      invariant run.Some? <==> k > 0 && p(samples[k - 1])
      invariant run.Some? ==> run.value == samples[StreakStart(samples, p, k - 1)].t
      invariant longest == LongestBefore(samples, p, k)
    {
      if p(samples[k]) {
        if run.None? { run := Some(samples[k].t); }
        if samples[k].t - run.value > longest { longest := samples[k].t - run.value; }
      } else {
        run := None;
      }
    }
  }

  // ----- what PASS means -----------------------------------------------------------------------

  ghost predicate NoSurvivorReason(i: FailoverInput, survivors: seq<Id>, candidate: Id) {
    forall c :: !SurvivorReason(c, i, survivors, candidate)
  }

  ghost predicate NoPromotionReason(i: FailoverInput, survivors: seq<Id>, candidate: Id, timing: Timing)
    requires i.post != []
  {
    forall c :: !PromotionReason(c, i, survivors, candidate, timing)
  }

  ghost predicate NoLastHubReason(i: FailoverInput, survivors: seq<Id>, candidate: Id) {
    forall c :: !LastHubReason(c, i.post, survivors, candidate, i.failed)
  }

  ghost predicate Serves(s: Sample, n: Id) { n in s.nodes && s.nodes[n].ok }

  ghost predicate Leads(s: Sample, n: Id) { Serves(s, n) && s.nodes[n].role == Master }

  /** Whoever answers gives its own name, the killed master stays silent from two seconds on,
      and no survivor but the candidate is ever MASTER. */
  ghost predicate SurvivorsHold(i: FailoverInput, survivors: seq<Id>, candidate: Id) {
    && (forall s, n :: s in i.post && Serves(s, n) ==> s.nodes[n].id == Some(n))
    && (forall s :: s in i.post && s.t >= i.kill + 2.0 ==> !Serves(s, i.failed))
    && (forall s, n :: s in i.post && n in survivors && Leads(s, n) ==> n == candidate)
  }

  /** The f-th sample is the first to show the candidate as MASTER. */
  ghost predicate FirstLed(post: seq<Sample>, candidate: Id, f: nat) {
    f < |post| && Leads(post[f], candidate) && forall i :: 0 <= i < f ==> !Leads(post[i], candidate)
  }

  /** Every survivor that answers from sample q on has its final role. */
  ghost predicate RolesFinal(post: seq<Sample>, survivors: seq<Id>, candidate: Id, q: nat) {
    forall i: nat, n :: q <= i < |post| && n in survivors && Serves(post[i], n) ==>
      post[i].nodes[n].role == if n == candidate then Master else Follower
  }

  /** q is the first sample, not before the time t, from which on all roles are final. */
  ghost predicate SettlesFrom(post: seq<Sample>, survivors: seq<Id>, candidate: Id, t: real, q: nat) {
    && q < |post| && post[q].t >= t && RolesFinal(post, survivors, candidate, q)
    && forall i: nat {:trigger RolesFinal(post, survivors, candidate, i)} ::
         i < q && post[i].t >= t ==> !RolesFinal(post, survivors, candidate, i)
  }

  /** The candidate was first seen as MASTER within the allowed delay, and the final roles were then
      reached and held to the end. */
  ghost predicate PromotedInTime(
    i: FailoverInput, survivors: seq<Id>, candidate: Id, timing: Timing, f: nat, q: nat)
  {
    && FirstLed(i.post, candidate, f) && timing.minDelay <= i.post[f].t - i.kill <= timing.deadline
    && SettlesFrom(i.post, survivors, candidate, i.post[f].t, q)
    && i.post[|i.post| - 1].t - i.post[q].t >= timing.hold
  }

  /** The samples from m on are those at the time t or later. */
  ghost predicate Cut(post: seq<Sample>, t: real, m: nat) {
    && m <= |post| && (forall i :: 0 <= i < m ==> post[i].t < t) && forall i :: m <= i < |post| ==> post[i].t >= t
  }

  /** From sample q's time on, every survivor is observed. */
  ghost predicate WatchedFrom(i: FailoverInput, survivors: seq<Id>, timing: Timing, q: nat)
    requires q < |i.post|
  {
    exists m: nat :: m < |i.post| && Cut(i.post, i.post[q].t, m)
                     && Watched(i.post[m..], survivors, i.post[q].t, i.post[|i.post| - 1].t, timing)
  }

  /** The promotion was in time, and every survivor was observed from where the roles settled. */
  ghost predicate PromotionHolds(i: FailoverInput, survivors: seq<Id>, candidate: Id, timing: Timing) {
    exists f: nat, q: nat ::
      PromotedInTime(i, survivors, candidate, timing, f, q) && WatchedFrom(i, survivors, timing, q)
  }

  /** The last answer of the hub lists the survivors in their final roles, and not the killed node. */
  ghost predicate LastHubHolds(i: FailoverInput, survivors: seq<Id>, candidate: Id) {
    exists j: nat :: j < |i.post| && AnswersLast(i.post, j) && ListsRoles(i.post[j].hub.roles, survivors, candidate)
                     && i.failed !in i.post[j].hub.roles
  }

  ghost predicate AnswersLast(post: seq<Sample>, j: nat)
    requires j < |post|
  {
    post[j].hub.ok && forall k :: j < k < |post| ==> !post[k].hub.ok
  }

  // ----- the same, as it is computed ---------------------------------------------------------

  ghost predicate OnTime(i: FailoverInput, survivors: seq<Id>, candidate: Id, timing: Timing, q: nat)
    requires i.post != []
  {
    var first := FirstPromotion(i.post, candidate);
    && first.Some?
    && var t := i.post[first.value].t;
    && timing.minDelay <= t - i.kill <= timing.deadline
    && HeldSince(i, survivors, candidate, After(i.post, t), q, timing)
  }

  ghost predicate WatchedSince(i: FailoverInput, survivors: seq<Id>, timing: Timing, after: seq<Sample>, q: nat)
    requires i.post != [] && q < |after|
  {
    && After(after, after[q].t) != []
    && Watched(After(after, after[q].t), survivors, after[q].t, i.post[|i.post| - 1].t, timing)
  }

  ghost predicate PromotionPasses(i: FailoverInput, survivors: seq<Id>, candidate: Id, timing: Timing)
    requires i.post != []
  {
    exists q: nat :: OnTime(i, survivors, candidate, timing, q)
      && WatchedSince(i, survivors, timing, After(i.post, i.post[FirstPromotion(i.post, candidate).value].t), q)
  }

  ghost predicate LastHubPasses(i: FailoverInput, survivors: seq<Id>, candidate: Id) {
    var last := LastHub(i.post);
    last.Some? && ShowsRoles(last.value, survivors, candidate) && i.failed !in last.value.roles
  }

  lemma CutOneMore(samples: seq<Sample>, t: real, m: nat)
    requires Sorted(samples) && samples != [] && Cut(samples[..|samples| - 1], t, m)
    ensures samples[|samples| - 1].t >= t ==> Cut(samples, t, m)
    ensures samples[|samples| - 1].t < t ==> m == |samples| - 1 && Cut(samples, t, |samples|)
  {
    var front := samples[..|samples| - 1];
    assert forall i :: 0 <= i < |front| ==> front[i] == samples[i];
    var atCut := if m < |front| then front[m].t else t;
    assert atCut >= t;
  }

  lemma {:induction false} AfterIsSuffix(samples: seq<Sample>, t: real) returns (m: nat)
    requires Sorted(samples)
    ensures Cut(samples, t, m) && After(samples, t) == samples[m..]
  {
    if samples == [] {
      m := 0;
    } else {
      var front, last := samples[..|samples| - 1], samples[|samples| - 1];
      m := AfterIsSuffix(front, t);
      CutOneMore(samples, t, m);
      if last.t >= t { assert samples[m..] == front[m..] + [last]; } else { m := |samples|; }
    }
  }

  lemma CutIsUnique(post: seq<Sample>, t: real, m: nat, n: nat)
    requires Cut(post, t, m) && Cut(post, t, n)
    ensures m == n
  {
    var atM, atN := if m < |post| then post[m].t else t, if n < |post| then post[n].t else t;
    assert atM >= t && atN >= t;
  }

  lemma FinalMeans(post: seq<Sample>, survivors: seq<Id>, candidate: Id, k: nat, q: nat)
    requires k + q <= |post|
    ensures AllFinal(post[k..][q..], survivors, candidate) <==> RolesFinal(post, survivors, candidate, k + q)
  {
    var tail := post[k..][q..];
    assert tail == post[k + q..];
    forall i | 0 <= i < |tail| ensures tail[i] == post[k + q + i] {
    }
    if AllFinal(tail, survivors, candidate) {
      forall i, n | k + q <= i < |post| && n in survivors && Serves(post[i], n)
        ensures post[i].nodes[n].role == if n == candidate then Master else Follower
      {
        assert Final(tail[i - k - q], survivors, candidate);
      }
    }
  }

  lemma SettlesMeans(post: seq<Sample>, survivors: seq<Id>, candidate: Id, t: real, k: nat, q: nat)
    requires Cut(post, t, k) && k + q < |post|
    ensures SettlesAt(post[k..], survivors, candidate, q) <==> SettlesFrom(post, survivors, candidate, t, k + q)
  {
    FinalMeans(post, survivors, candidate, k, q);
    forall i: nat | i < q
      ensures AllFinal(post[k..][i..], survivors, candidate) <==> RolesFinal(post, survivors, candidate, k + i)
    {
      FinalMeans(post, survivors, candidate, k, i);
    }
    if SettlesAt(post[k..], survivors, candidate, q) {
      forall i: nat | i < k + q && post[i].t >= t ensures !RolesFinal(post, survivors, candidate, i) {
        assert i >= k;
        assert !AllFinal(post[k..][i - k..], survivors, candidate);
      }
    }
    if SettlesFrom(post, survivors, candidate, t, k + q) {
      forall i | 0 <= i < q ensures !AllFinal(post[k..][i..], survivors, candidate) {
        assert post[k + i].t >= t;
        assert !RolesFinal(post, survivors, candidate, k + i);
      }
    }
  }

  lemma FirstIsLed(post: seq<Sample>, candidate: Id, f: nat)
    ensures FirstLed(post, candidate, f) <==> FirstPromotion(post, candidate) == Some(f)
  {
    forall i | 0 <= i < |post| ensures post[i].IsMaster(candidate) <==> Leads(post[i], candidate) {
    }
  }

  lemma HeldMeans(i: FailoverInput, survivors: seq<Id>, candidate: Id, timing: Timing, t: real, k: nat, q: nat)
    requires Cut(i.post, t, k) && k + q < |i.post|
    ensures HeldSince(i, survivors, candidate, i.post[k..], q, timing) <==>
            SettlesFrom(i.post, survivors, candidate, t, k + q)
            && i.post[|i.post| - 1].t - i.post[k + q].t >= timing.hold
  {
    SettlesMeans(i.post, survivors, candidate, t, k, q);
    assert i.post[k..][q] == i.post[k + q];
  }

  lemma OnTimeMeans(i: FailoverInput, survivors: seq<Id>, candidate: Id, timing: Timing, f: nat, k: nat, q: nat)
    requires i.post != [] && FirstPromotion(i.post, candidate) == Some(f) && FirstLed(i.post, candidate, f)
    requires Cut(i.post, i.post[f].t, k) && After(i.post, i.post[f].t) == i.post[k..] && k + q < |i.post|
    ensures OnTime(i, survivors, candidate, timing, q) <==> PromotedInTime(i, survivors, candidate, timing, f, k + q)
  {
    HeldMeans(i, survivors, candidate, timing, i.post[f].t, k, q);
  }

  lemma AfterInSuffix(post: seq<Sample>, k: nat, t: real) returns (n: nat)
    requires Sorted(post) && k <= |post|
    ensures Cut(post[k..], t, n) && After(post[k..], t) == post[k..][n..]
  {
    SortedTail(post, k);
    n := AfterIsSuffix(post[k..], t);
  }

  lemma TwoCuts(post: seq<Sample>, t: real, k: nat, q: nat) returns (m: nat)
    requires Sorted(post) && Cut(post, t, k) && k + q < |post|
    ensures m < |post| && Cut(post, post[k + q].t, m) && After(post[k..], post[k + q].t) == post[m..]
  {
    var n := AfterInSuffix(post, k, post[k + q].t);
    CutOfSuffix(post, t, k, q, n);
    SuffixOfSuffix(post, k, n);
    m := k + n;
  }

  lemma SuffixOfSuffix<T>(s: seq<T>, k: nat, n: nat)
    requires k + n <= |s|
    ensures s[k..][n..] == s[k + n..]
  {
  }

  lemma SortedTail(post: seq<Sample>, k: nat)
    requires Sorted(post) && k <= |post|
    ensures Sorted(post[k..])
  {
  }

  lemma CutOfSuffix(post: seq<Sample>, t: real, k: nat, q: nat, n: nat)
    requires Cut(post, t, k) && k + q < |post| && Cut(post[k..], post[k + q].t, n)
    ensures k + n < |post| && Cut(post, post[k + q].t, k + n)
  {
    var tail, t' := post[k..], post[k + q].t;
    assert tail[q].t == t';
    forall i | k <= i < |post| ensures post[i] == tail[i - k] {
    }
  }

  lemma WatchedMeans(i: FailoverInput, survivors: seq<Id>, timing: Timing, t: real, k: nat, q: nat)
    requires Sorted(i.post) && Cut(i.post, t, k) && k + q < |i.post|
    ensures WatchedSince(i, survivors, timing, i.post[k..], q) <==> WatchedFrom(i, survivors, timing, k + q)
  {
    var m := TwoCuts(i.post, t, k, q);
    assert i.post[k..][q] == i.post[k + q];
    var t' := i.post[k + q].t;
    forall n: nat | Cut(i.post, t', n) ensures n == m {
      CutIsUnique(i.post, t', m, n);
    }
  }

  lemma PassingHolds(i: FailoverInput, survivors: seq<Id>, candidate: Id, timing: Timing)
    requires i.post != [] && Sorted(i.post)
    ensures PromotionPasses(i, survivors, candidate, timing) ==> PromotionHolds(i, survivors, candidate, timing)
    ensures (exists q: nat :: OnTime(i, survivors, candidate, timing, q)) ==>
              exists f: nat, p: nat :: PromotedInTime(i, survivors, candidate, timing, f, p)
  {
    if FirstPromotion(i.post, candidate).Some? {
      var f := FirstPromotion(i.post, candidate).value;
      var t := i.post[f].t;
      FirstIsLed(i.post, candidate, f);
      var k := AfterIsSuffix(i.post, t);
      forall q: nat | OnTime(i, survivors, candidate, timing, q)
        ensures PromotedInTime(i, survivors, candidate, timing, f, k + q)
        ensures WatchedSince(i, survivors, timing, i.post[k..], q) <==> WatchedFrom(i, survivors, timing, k + q)
      {
        OnTimeMeans(i, survivors, candidate, timing, f, k, q);
        WatchedMeans(i, survivors, timing, t, k, q);
      }
    }
  }

  lemma HeldIsLater(i: FailoverInput, survivors: seq<Id>, candidate: Id, timing: Timing, f: nat, p: nat)
    returns (k: nat, q: nat)
    requires Sorted(i.post) && PromotedInTime(i, survivors, candidate, timing, f, p)
    ensures FirstLed(i.post, candidate, f) && p == k + q && p < |i.post|
    ensures Cut(i.post, i.post[f].t, k) && After(i.post, i.post[f].t) == i.post[k..]
  {
    k := AfterIsSuffix(i.post, i.post[f].t);
    q := AtOrAfterCut(i.post, i.post[f].t, k, p);
  }

  lemma HoldingIsOnTime(
    i: FailoverInput, survivors: seq<Id>, candidate: Id, timing: Timing, f: nat, k: nat, q: nat)
    requires k + q < |i.post| && PromotedInTime(i, survivors, candidate, timing, f, k + q)
    requires Cut(i.post, i.post[f].t, k) && After(i.post, i.post[f].t) == i.post[k..]
    ensures FirstPromotion(i.post, candidate) == Some(f) && OnTime(i, survivors, candidate, timing, q)
  {
    FirstIsLed(i.post, candidate, f);
    OnTimeMeans(i, survivors, candidate, timing, f, k, q);
  }

  lemma HoldingPasses(i: FailoverInput, survivors: seq<Id>, candidate: Id, timing: Timing, f: nat, p: nat)
    requires i.post != [] && Sorted(i.post) && PromotedInTime(i, survivors, candidate, timing, f, p)
    ensures exists q: nat :: OnTime(i, survivors, candidate, timing, q)
    ensures WatchedFrom(i, survivors, timing, p) ==> PromotionPasses(i, survivors, candidate, timing)
  {
    var k, q := HeldIsLater(i, survivors, candidate, timing, f, p);
    HoldingIsOnTime(i, survivors, candidate, timing, f, k, q);
    if WatchedFrom(i, survivors, timing, p) { WatchedPasses(i, survivors, candidate, timing, f, k, q); }
  }

  lemma WatchedPasses(i: FailoverInput, survivors: seq<Id>, candidate: Id, timing: Timing, f: nat, k: nat, q: nat)
    requires i.post != [] && Sorted(i.post) && FirstPromotion(i.post, candidate) == Some(f)
    requires Cut(i.post, i.post[f].t, k) && After(i.post, i.post[f].t) == i.post[k..] && k + q < |i.post|
    requires OnTime(i, survivors, candidate, timing, q) && WatchedFrom(i, survivors, timing, k + q)
    ensures PromotionPasses(i, survivors, candidate, timing)
  {
    WatchedMeans(i, survivors, timing, i.post[f].t, k, q);
    PassesAt(i, survivors, candidate, timing, q);
  }

  lemma AtOrAfterCut(post: seq<Sample>, t: real, k: nat, p: nat) returns (q: nat)
    requires Cut(post, t, k) && p < |post| && post[p].t >= t
    ensures p == k + q
  {
    q := p - k;
  }

  lemma PassesAt(i: FailoverInput, survivors: seq<Id>, candidate: Id, timing: Timing, q: nat)
    requires i.post != [] && OnTime(i, survivors, candidate, timing, q)
    requires WatchedSince(i, survivors, timing, After(i.post, i.post[FirstPromotion(i.post, candidate).value].t), q)
    ensures PromotionPasses(i, survivors, candidate, timing)
  {
  }

  /** The computed conditions are the ones above. */
  lemma PassingIsHolding(i: FailoverInput, survivors: seq<Id>, candidate: Id, timing: Timing)
    requires i.post != [] && Sorted(i.post)
    ensures PromotionPasses(i, survivors, candidate, timing) <==> PromotionHolds(i, survivors, candidate, timing)
    ensures (exists q: nat :: OnTime(i, survivors, candidate, timing, q)) <==>
              exists f: nat, p: nat :: PromotedInTime(i, survivors, candidate, timing, f, p)
  {
    PassingHolds(i, survivors, candidate, timing);
    forall f: nat, p: nat | PromotedInTime(i, survivors, candidate, timing, f, p)
      ensures exists q: nat :: OnTime(i, survivors, candidate, timing, q)
      ensures WatchedFrom(i, survivors, timing, p) ==> PromotionPasses(i, survivors, candidate, timing)
    {
      HoldingPasses(i, survivors, candidate, timing, f, p);
    }
  }

  lemma LastHubIsLast(i: FailoverInput, survivors: seq<Id>, candidate: Id)
    ensures LastHubPasses(i, survivors, candidate) <==> LastHubHolds(i, survivors, candidate)
  {
    var last := LastHub(i.post);
    if last.Some? {
      var j :| 0 <= j < |i.post| && i.post[j].hub == last.value && i.post[j].hub.ok && SilentAfter(i.post, j);
      assert AnswersLast(i.post, j);
      assert ShowsRoles(last.value, survivors, candidate) <==> ListsRoles(last.value.roles, survivors, candidate);
      forall k: nat | k < |i.post| && AnswersLast(i.post, k) ensures k == j {
      }
    }
  }

  ghost predicate Distinct(ids: seq<Id>) { forall i, j :: 0 <= i < j < |ids| ==> ids[i] != ids[j] }

  lemma DistinctMasters(s: Sample, nodes: seq<Id>, candidate: Id)
    requires Distinct(nodes)
    requires forall n :: n in nodes && s.IsMaster(n) ==> n == candidate
    ensures |MastersAmong(s, nodes)| < 2
  {
    if nodes != [] {
      DistinctMasters(s, nodes[1..], candidate);
      if s.IsMaster(nodes[0]) {
        assert candidate !in nodes[1..];
        var rest := MastersAmong(s, nodes[1..]);
        assert rest == [] || rest[0] in rest;
      }
    }
  }

  lemma {:induction false} SurvivorsStayDistinct(ids: seq<Id>, failed: Id)
    requires Distinct(ids)
    ensures Distinct(Survivors(ids, failed))
  {
    if ids != [] {
      SurvivorsStayDistinct(ids[1..], failed);
      var rest := Survivors(ids[1..], failed);
      assert ids[0] !in ids[1..];
      forall k | 0 <= k < |rest| ensures rest[k] != ids[0] { assert rest[k] in rest; }
    }
  }

  lemma SurvivorsMean(i: FailoverInput, survivors: seq<Id>, candidate: Id)
    ensures NoSurvivorReason(i, survivors, candidate) ==> SurvivorsHold(i, survivors, candidate)
    ensures Distinct(survivors) && SurvivorsHold(i, survivors, candidate) ==> NoSurvivorReason(i, survivors, candidate)
  {
    if Distinct(survivors) && SurvivorsHold(i, survivors, candidate) {
      forall k | 0 <= k < |i.post|
        ensures !WrongName(i.post[k]) && !StillServing(i.post[k], i.failed, i.kill)
                && !WrongMaster(i.post[k], survivors, candidate) && |MastersAmong(i.post[k], survivors)| < 2
      {
        assert i.post[k] in i.post;
        DistinctMasters(i.post[k], survivors, candidate);
      }
    }
    if NoSurvivorReason(i, survivors, candidate) {
      assert !SurvivorReason(IdentityMismatch, i, survivors, candidate)
             && !SurvivorReason(FailedMasterServing, i, survivors, candidate)
             && !SurvivorReason(NonCandidatePromoted, i, survivors, candidate);
      forall k | 0 <= k < |i.post|
        ensures !WrongName(i.post[k]) && !StillServing(i.post[k], i.failed, i.kill)
                && !WrongMaster(i.post[k], survivors, candidate)
      {
        assert !AnyWrongName(i.post) && !AnyStillServing(i.post, i.failed, i.kill);
        assert !AnyWrongMaster(i.post, survivors, candidate);
      }
    }
  }

  /** The window from a sample of a sorted list on holds its own samples. */
  lemma HoldWindow(post: seq<Sample>, after: seq<Sample>, q: nat)
    requires Sorted(post) && post != [] && Sorted(after) && q < |after| && forall s :: s in after ==> s in post
    ensures var hold := After(after, after[q].t);
            hold != [] && Sorted(hold) && Inside(hold, after[q].t, post[|post| - 1].t)
  {
    var hold := After(after, after[q].t);
    AfterStaysSorted(after, after[q].t);
    assert after[q] in after && after[q] in hold;
    forall k | 0 <= k < |hold| ensures after[q].t <= hold[k].t <= post[|post| - 1].t {
      assert hold[k] in hold;
      assert hold[k] in post;
    }
    assert after[q].t <= hold[0].t;
  }

  lemma GapsSinceMean(
    i: FailoverInput, survivors: seq<Id>, candidate: Id, timing: Timing, after: seq<Sample>, q: nat)
    requires i.post != [] && Sorted(i.post) && Sorted(after) && timing.maxGap >= 0.0
    requires q < |after| && forall s :: s in after ==> s in i.post
    ensures NoGapReason(After(after, after[q].t), survivors, after[q].t, i.post[|i.post| - 1].t, timing) <==>
            WatchedSince(i, survivors, timing, after, q)
  {
    HoldWindow(i.post, after, q);
    GapsMean(After(after, after[q].t), survivors, after[q].t, i.post[|i.post| - 1].t, timing);
  }

  /** The three reasons that are not about observation. */
  lemma OnTimeOrReason(i: FailoverInput, survivors: seq<Id>, candidate: Id, timing: Timing)
    requires i.post != []
    ensures (exists q: nat :: OnTime(i, survivors, candidate, timing, q)) <==>
            && !PromotionReason(PrematurePromotion, i, survivors, candidate, timing)
            && !PromotionReason(NoPromotion, i, survivors, candidate, timing)
            && !PromotionReason(NotConverged, i, survivors, candidate, timing)
    ensures forall c :: PromotionReason(c, i, survivors, candidate, timing) ==>
              c in {PrematurePromotion, NoPromotion, NotConverged, ObservabilityGap}
  {
    var first := FirstPromotion(i.post, candidate);
    if first.Some? {
      var t := i.post[first.value].t;
      var after := After(i.post, t);
      forall q: nat
        ensures OnTime(i, survivors, candidate, timing, q) <==>
                timing.minDelay <= t - i.kill <= timing.deadline
                && HeldSince(i, survivors, candidate, after, q, timing)
      {
      }
      if q: nat :| HeldSince(i, survivors, candidate, after, q, timing) {
        assert timing.minDelay <= t - i.kill <= timing.deadline ==> OnTime(i, survivors, candidate, timing, q);
      }
    }
  }

  lemma GapReasonMeans(i: FailoverInput, survivors: seq<Id>, candidate: Id, timing: Timing, q: nat)
    requires i.post != [] && Sorted(i.post) && timing.maxGap >= 0.0 && OnTime(i, survivors, candidate, timing, q)
    ensures !PromotionReason(ObservabilityGap, i, survivors, candidate, timing) <==>
            WatchedSince(i, survivors, timing, After(i.post, i.post[FirstPromotion(i.post, candidate).value].t), q)
  {
    var t := i.post[FirstPromotion(i.post, candidate).value].t;
    var after := After(i.post, t);
    AfterStaysSorted(i.post, t);
    GapsSinceMean(i, survivors, candidate, timing, after, q);
    forall p: nat | HeldSince(i, survivors, candidate, after, p, timing) ensures p == q {
      SettlesOnce(after, survivors, candidate, p, q);
    }
  }

  lemma PromotionMeans(i: FailoverInput, survivors: seq<Id>, candidate: Id, timing: Timing)
    requires i.post != [] && Sorted(i.post) && timing.maxGap >= 0.0
    ensures NoPromotionReason(i, survivors, candidate, timing) <==> PromotionPasses(i, survivors, candidate, timing)
  {
    OnTimeOrReason(i, survivors, candidate, timing);
    forall q: nat | OnTime(i, survivors, candidate, timing, q)
      ensures !PromotionReason(ObservabilityGap, i, survivors, candidate, timing) <==>
              WatchedSince(i, survivors, timing, After(i.post, i.post[FirstPromotion(i.post, candidate).value].t), q)
    {
      GapReasonMeans(i, survivors, candidate, timing, q);
    }
  }

  lemma LastHubMeans(i: FailoverInput, survivors: seq<Id>, candidate: Id)
    ensures NoLastHubReason(i, survivors, candidate) <==> LastHubHolds(i, survivors, candidate)
  {
    LastHubIsLast(i, survivors, candidate);
    if NoLastHubReason(i, survivors, candidate) {
      assert !LastHubReason(HubUnobservable, i.post, survivors, candidate, i.failed)
             && !LastHubReason(HubNotConverged, i.post, survivors, candidate, i.failed)
             && !LastHubReason(HubFailedMasterPresent, i.post, survivors, candidate, i.failed);
    }
  }

  /** What a PASS of a failover stands for. */
  ghost predicate FailoverForSure(i: FailoverInput, candidate: Id, timing: Timing) {
    var survivors := Survivors(i.ids, i.failed);
    && i.stopped && i.post != []
    && SurvivorsHold(i, survivors, candidate)
    && PromotionHolds(i, survivors, candidate, timing)
    && LastHubHolds(i, survivors, candidate)
    && i.written == 0
    && (i.probe.Some? ==> i.probe == Some(Refused) && forall n :: n in i.logged ==> i.logged[n])
  }

  /** The one probe goes to the candidate. */
  lemma TheProbeMeans(i: FailoverInput, candidate: Id)
    ensures ProbesRefused(ProbesOf(i, candidate)) <==>
            (i.probe.Some? ==> i.probe == Some(Refused) && forall n :: n in i.logged ==> i.logged[n])
    ensures ProbeAdmitted(ProbesOf(i, candidate)) <==> i.probe == Some(Accepted) || i.probe == Some(Unexpected)
  {
    if i.probe.Some? {
      var r := ProbesOf(i, candidate).results.value;
      assert candidate in r && r[candidate] == i.probe.value;
    }
  }

  lemma SplitPostReasons(i: FailoverInput, survivors: seq<Id>, candidate: Id, timing: Timing)
    requires i.post != []
    ensures (forall c :: !PostReason(c, i, survivors, candidate, timing)) <==>
            && NoSurvivorReason(i, survivors, candidate)
            && NoPromotionReason(i, survivors, candidate, timing)
            && NoLastHubReason(i, survivors, candidate)
            && i.written == 0
            && NoProbeReason(ProbesOf(i, candidate))
  {
    if forall c :: !PostReason(c, i, survivors, candidate, timing) {
      assert !PostReason(StateWritten, i, survivors, candidate, timing);
      forall c
        ensures !SurvivorReason(c, i, survivors, candidate) && !PromotionReason(c, i, survivors, candidate, timing)
                && !LastHubReason(c, i.post, survivors, candidate, i.failed) && !ProbeReason(c, ProbesOf(i, candidate))
      {
        assert !PostReason(c, i, survivors, candidate, timing);
      }
    }
  }

  lemma FailoverReasonsMean(i: FailoverInput, candidate: Id, timing: Timing)
    requires Sorted(i.post) && timing.maxGap >= 0.0
    ensures (forall c :: !FailoverReason(c, i, candidate, timing)) ==> FailoverForSure(i, candidate, timing)
    ensures Distinct(i.ids) && FailoverForSure(i, candidate, timing) ==>
              forall c :: !FailoverReason(c, i, candidate, timing)
  {
    var survivors := Survivors(i.ids, i.failed);
    assert i.stopped || FailoverReason(MasterNotStopped, i, candidate, timing);
    if i.post == [] {
      assert FailoverReason(NoObservations, i, candidate, timing);
    } else {
      if Distinct(i.ids) { SurvivorsStayDistinct(i.ids, i.failed); }
      SurvivorsMean(i, survivors, candidate);
      PromotionMeans(i, survivors, candidate, timing);
      PassingIsHolding(i, survivors, candidate, timing);
      LastHubMeans(i, survivors, candidate);
      ProbesMean(ProbesOf(i, candidate));
      TheProbeMeans(i, candidate);
      SplitPostReasons(i, survivors, candidate, timing);
      assert (forall c :: !FailoverReason(c, i, candidate, timing)) <==>
             i.stopped && forall c :: !PostReason(c, i, survivors, candidate, timing) by {
        if i.stopped && forall c :: !FailoverReason(c, i, candidate, timing) {
          forall c ensures !PostReason(c, i, survivors, candidate, timing) {
            assert !FailoverReason(c, i, candidate, timing);
          }
        }
      }
    }
  }

  /** What a FAIL of a failover stands for. */
  ghost predicate FailoverViolated(i: FailoverInput, candidate: Id, timing: Timing) {
    !i.stopped || (i.post != [] && PostViolated(i, Survivors(i.ids, i.failed), candidate, timing))
  }

  ghost predicate PostViolated(i: FailoverInput, survivors: seq<Id>, candidate: Id, timing: Timing) {
    || !SurvivorsHold(i, survivors, candidate)
    || !InTime(i, survivors, candidate, timing)
    || LastHubDisagrees(i, survivors, candidate)
    || i.written > 0 || i.probe == Some(Accepted) || i.probe == Some(Unexpected)
  }

  ghost predicate InTime(i: FailoverInput, survivors: seq<Id>, candidate: Id, timing: Timing) {
    exists f: nat, q: nat :: PromotedInTime(i, survivors, candidate, timing, f, q)
  }

  ghost predicate LastHubDisagrees(i: FailoverInput, survivors: seq<Id>, candidate: Id) {
    exists j: nat :: j < |i.post| && AnswersLast(i.post, j) && HubDisagrees(i, survivors, candidate, j)
  }

  /** The hub's answer in sample j misplaces a survivor, or still lists the killed node. */
  ghost predicate HubDisagrees(i: FailoverInput, survivors: seq<Id>, candidate: Id, j: nat)
    requires j < |i.post|
  {
    !ListsRoles(i.post[j].hub.roles, survivors, candidate) || i.failed in i.post[j].hub.roles
  }

  lemma LastHubViolation(i: FailoverInput, survivors: seq<Id>, candidate: Id)
    ensures LastHubDisagrees(i, survivors, candidate) <==>
            LastHubReason(HubNotConverged, i.post, survivors, candidate, i.failed)
            || LastHubReason(HubFailedMasterPresent, i.post, survivors, candidate, i.failed)
    ensures forall c :: LastHubReason(c, i.post, survivors, candidate, i.failed) ==>
              c in {HubUnobservable, HubNotConverged, HubFailedMasterPresent}
  {
    var last := LastHub(i.post);
    if last.Some? {
      var j :| 0 <= j < |i.post| && i.post[j].hub == last.value && i.post[j].hub.ok && SilentAfter(i.post, j);
      assert AnswersLast(i.post, j);
      assert ShowsRoles(last.value, survivors, candidate) <==> ListsRoles(last.value.roles, survivors, candidate);
      forall k: nat | k < |i.post| && AnswersLast(i.post, k) ensures k == j {
      }
    }
  }

  ghost predicate TwoLead(s: Sample, survivors: seq<Id>) {
    exists i, j :: 0 <= i < j < |survivors| && Leads(s, survivors[i]) && Leads(s, survivors[j])
  }

  lemma {:induction false} MastersAmongCount(s: Sample, nodes: seq<Id>)
    ensures |MastersAmong(s, nodes)| >= 2 <==> TwoLead(s, nodes)
    ensures |MastersAmong(s, nodes)| >= 1 <==> exists n :: n in nodes && Leads(s, n)
  {
    if nodes != [] {
      var rest := nodes[1..];
      MastersAmongCount(s, rest);
      if i, j :| 0 <= i < j < |rest| && Leads(s, rest[i]) && Leads(s, rest[j]) {
        assert Leads(s, nodes[i + 1]) && Leads(s, nodes[j + 1]);
      }
      if i, j :| 0 <= i < j < |nodes| && Leads(s, nodes[i]) && Leads(s, nodes[j]) {
        assert nodes[j] == rest[j - 1];
        if i > 0 { assert nodes[i] == rest[i - 1]; }
      }
      if n :| n in rest && Leads(s, n) && Leads(s, nodes[0]) {
        var j :| 0 <= j < |rest| && rest[j] == n;
        assert nodes[j + 1] == n;
      }
    }
  }

  /** Which fault gives which of the survivor reasons. */
  lemma SurvivorReasonsMean(i: FailoverInput, survivors: seq<Id>, candidate: Id)
    ensures SurvivorReason(IdentityMismatch, i, survivors, candidate) <==> exists s :: s in i.post && Misnamed(s)
    ensures SurvivorReason(FailedMasterServing, i, survivors, candidate)
            <==> exists s :: s in i.post && s.t >= i.kill + 2.0 && Serves(s, i.failed)
    ensures SurvivorReason(NonCandidatePromoted, i, survivors, candidate)
            <==> exists s :: s in i.post && exists n :: n in survivors && n != candidate && Leads(s, n)
    ensures SurvivorReason(MultipleMasters, i, survivors, candidate)
            <==> exists s :: s in i.post && TwoLead(s, survivors)
  {
    forall k | 0 <= k < |i.post|
      ensures i.post[k] in i.post && (WrongName(i.post[k]) <==> Misnamed(i.post[k]))
      ensures |MastersAmong(i.post[k], survivors)| >= 2 <==> TwoLead(i.post[k], survivors)
      ensures WrongMaster(i.post[k], survivors, candidate)
              <==> exists n :: n in survivors && n != candidate && Leads(i.post[k], n)
    {
      MastersAmongCount(i.post[k], survivors);
    }
  }

  /** Which delay or missing hold gives which of the promotion reasons. */
  lemma PromotionReasonsMean(i: FailoverInput, survivors: seq<Id>, candidate: Id, timing: Timing, f: nat)
    requires i.post != [] && FirstLed(i.post, candidate, f)
    ensures PromotionReason(PrematurePromotion, i, survivors, candidate, timing)
            <==> i.post[f].t - i.kill < timing.minDelay
    ensures PromotionReason(NoPromotion, i, survivors, candidate, timing)
            <==> i.post[f].t - i.kill > timing.deadline
  {
    FirstIsLed(i.post, candidate, f);
  }

  /** Without a promotion that is the one reason given here. */
  lemma NobodyPromoted(i: FailoverInput, survivors: seq<Id>, candidate: Id, timing: Timing, c: Code)
    requires i.post != [] && forall f: nat :: f < |i.post| ==> !Leads(i.post[f], candidate)
    ensures PromotionReason(c, i, survivors, candidate, timing) <==> c == NoPromotion
  {
    var first := FirstPromotion(i.post, candidate);
    if first.Some? {
      FirstIsLed(i.post, candidate, first.value);
    }
  }

  lemma PromotionCodes(i: FailoverInput, survivors: seq<Id>, candidate: Id, timing: Timing, c: Code)
    requires i.post != [] && PromotionReason(c, i, survivors, candidate, timing)
    ensures c in {PrematurePromotion, NoPromotion, NotConverged, ObservabilityGap}
  {
  }

  ghost predicate TimingFails(i: FailoverInput, survivors: seq<Id>, candidate: Id, timing: Timing)
    requires i.post != []
  {
    exists c :: c in {PrematurePromotion, NoPromotion, NotConverged}
                && PromotionReason(c, i, survivors, candidate, timing)
  }

  ghost predicate HubFails(i: FailoverInput, survivors: seq<Id>, candidate: Id) {
    exists c :: c in {HubNotConverged, HubFailedMasterPresent}
                && LastHubReason(c, i.post, survivors, candidate, i.failed)
  }

  ghost predicate ProbeFails(probes: Probes) {
    exists c :: c in {ProbeAccepted, ProbeUnexpected} && ProbeReason(c, probes)
  }

  /** One of the parts gives a reason that is not about observation. */
  ghost predicate PartViolates(i: FailoverInput, survivors: seq<Id>, candidate: Id, timing: Timing)
    requires i.post != []
  {
    || !NoSurvivorReason(i, survivors, candidate)
    || TimingFails(i, survivors, candidate, timing)
    || HubFails(i, survivors, candidate)
    || i.written > 0
    || ProbeFails(ProbesOf(i, candidate))
  }

  lemma ReasonIsOfAPart(c: Code, i: FailoverInput, survivors: seq<Id>, candidate: Id, timing: Timing)
    requires i.post != [] && PostReason(c, i, survivors, candidate, timing) && c !in OBSERVATION_PROBLEMS
    ensures PartViolates(i, survivors, candidate, timing)
  {
    if PromotionReason(c, i, survivors, candidate, timing) { PromotionCodes(i, survivors, candidate, timing, c); }
  }

  ghost predicate PostFails(i: FailoverInput, survivors: seq<Id>, candidate: Id, timing: Timing)
    requires i.post != []
  {
    exists c :: PostReason(c, i, survivors, candidate, timing) && c !in OBSERVATION_PROBLEMS
  }

  lemma SurvivorFails(i: FailoverInput, survivors: seq<Id>, candidate: Id, timing: Timing)
    requires i.post != []
    ensures !NoSurvivorReason(i, survivors, candidate) ==> PostFails(i, survivors, candidate, timing)
  {
    if c :| SurvivorReason(c, i, survivors, candidate) { assert PostReason(c, i, survivors, candidate, timing); }
  }

  lemma CodeFails(c: Code, i: FailoverInput, survivors: seq<Id>, candidate: Id, timing: Timing)
    requires i.post != [] && c !in OBSERVATION_PROBLEMS
    ensures PromotionReason(c, i, survivors, candidate, timing) ==> PostFails(i, survivors, candidate, timing)
    ensures LastHubReason(c, i.post, survivors, candidate, i.failed) ==> PostFails(i, survivors, candidate, timing)
    ensures c.StateWritten? && i.written > 0 ==> PostFails(i, survivors, candidate, timing)
    ensures ProbeReason(c, ProbesOf(i, candidate)) ==> PostFails(i, survivors, candidate, timing)
  {
    if PostReason(c, i, survivors, candidate, timing) { assert PostFails(i, survivors, candidate, timing); }
  }

  lemma PartFails(i: FailoverInput, survivors: seq<Id>, candidate: Id, timing: Timing)
    requires i.post != []
    ensures PartViolates(i, survivors, candidate, timing) ==> PostFails(i, survivors, candidate, timing)
  {
    if !NoSurvivorReason(i, survivors, candidate) {
      SurvivorFails(i, survivors, candidate, timing);
    } else if c: Code :| c in {PrematurePromotion, NoPromotion, NotConverged}
                         && PromotionReason(c, i, survivors, candidate, timing) {
      CodeFails(c, i, survivors, candidate, timing);
    } else if c: Code :| c in {HubNotConverged, HubFailedMasterPresent}
                         && LastHubReason(c, i.post, survivors, candidate, i.failed) {
      CodeFails(c, i, survivors, candidate, timing);
    } else if i.written > 0 {
      CodeFails(StateWritten, i, survivors, candidate, timing);
    } else if c: Code :| c in {ProbeAccepted, ProbeUnexpected} && ProbeReason(c, ProbesOf(i, candidate)) {
      CodeFails(c, i, survivors, candidate, timing);
    }
  }

  lemma FailingParts(i: FailoverInput, survivors: seq<Id>, candidate: Id, timing: Timing)
    requires i.post != []
    ensures PostFails(i, survivors, candidate, timing) ==> PartViolates(i, survivors, candidate, timing)
  {
    if c :| PostReason(c, i, survivors, candidate, timing) && c !in OBSERVATION_PROBLEMS {
      ReasonIsOfAPart(c, i, survivors, candidate, timing);
    }
  }

  lemma PostViolatedMeans(i: FailoverInput, survivors: seq<Id>, candidate: Id, timing: Timing)
    requires i.post != [] && Sorted(i.post) && Distinct(survivors)
    ensures PostViolated(i, survivors, candidate, timing) <==> PartViolates(i, survivors, candidate, timing)
  {
    SurvivorsMean(i, survivors, candidate);
    InTimeMeans(i, survivors, candidate, timing);
    HubFailsMeans(i, survivors, candidate);
    ProbeFailsMeans(ProbesOf(i, candidate));
    TheProbeMeans(i, candidate);
  }

  lemma HubFailsMeans(i: FailoverInput, survivors: seq<Id>, candidate: Id)
    ensures LastHubDisagrees(i, survivors, candidate) <==> HubFails(i, survivors, candidate)
  {
    LastHubViolation(i, survivors, candidate);
  }

  lemma ProbeFailsMeans(probes: Probes)
    ensures ProbeAdmitted(probes) <==> ProbeFails(probes)
  {
    ProbesAdmittedMean(probes);
  }

  lemma InTimeMeans(i: FailoverInput, survivors: seq<Id>, candidate: Id, timing: Timing)
    requires i.post != [] && Sorted(i.post)
    ensures InTime(i, survivors, candidate, timing) <==> !TimingFails(i, survivors, candidate, timing)
  {
    OnTimeOrReason(i, survivors, candidate, timing);
    PassingIsHolding(i, survivors, candidate, timing);
  }

  lemma FailsWhen(i: FailoverInput, candidate: Id, timing: Timing)
    ensures (exists c :: FailoverReason(c, i, candidate, timing) && c !in OBSERVATION_PROBLEMS) <==>
            !i.stopped || (i.post != [] && PostFails(i, Survivors(i.ids, i.failed), candidate, timing))
  {
    var survivors := Survivors(i.ids, i.failed);
    if !i.stopped { assert FailoverReason(MasterNotStopped, i, candidate, timing); }
    if i.post != [] && PostFails(i, survivors, candidate, timing) {
      var c :| PostReason(c, i, survivors, candidate, timing) && c !in OBSERVATION_PROBLEMS;
      assert FailoverReason(c, i, candidate, timing);
    }
  }

  lemma FailoverViolationsMean(i: FailoverInput, candidate: Id, timing: Timing)
    requires Sorted(i.post) && Distinct(i.ids)
    ensures (exists c :: FailoverReason(c, i, candidate, timing) && c !in OBSERVATION_PROBLEMS)
            <==> FailoverViolated(i, candidate, timing)
  {
    var survivors := Survivors(i.ids, i.failed);
    FailsWhen(i, candidate, timing);
    if i.post != [] {
      SurvivorsStayDistinct(i.ids, i.failed);
      PostViolatedMeans(i, survivors, candidate, timing);
      PartFails(i, survivors, candidate, timing);
      FailingParts(i, survivors, candidate, timing);
    }
  }

  /** PASS of a failover always stands for what it says, and with distinct node ids it is given
      exactly then; FAIL is given exactly for a violation. */
  lemma FailoverPassIsExact(i: FailoverInput, candidate: Id, timing: Timing, reasons: seq<Reason>)
    requires Sorted(i.post) && timing.maxGap >= 0.0
    requires forall r :: r in reasons <==> !r.baseline && FailoverReason(r.code, i, candidate, timing)
    ensures VerdictFor(reasons) == PASS ==> FailoverForSure(i, candidate, timing)
    ensures Distinct(i.ids) ==> (VerdictFor(reasons) == PASS <==> FailoverForSure(i, candidate, timing))
    ensures Distinct(i.ids) ==> (VerdictFor(reasons) == FAIL <==> FailoverViolated(i, candidate, timing))
  {
    var given := c => FailoverReason(c, i, candidate, timing);
    PassMeansNoReason(reasons, given);
    assert (forall c :: !FailoverReason(c, i, candidate, timing)) <==> (forall c :: !given(c)) by {
      forall c ensures given(c) <==> FailoverReason(c, i, candidate, timing) {}
    }
    FailoverReasonsMean(i, candidate, timing);
    assert (exists c :: FailoverReason(c, i, candidate, timing) && c !in OBSERVATION_PROBLEMS)
           <==> (exists c :: given(c) && c !in OBSERVATION_PROBLEMS) by {
      forall c ensures given(c) <==> FailoverReason(c, i, candidate, timing) {}
    }
    if Distinct(i.ids) { FailoverViolationsMean(i, candidate, timing); }
  }

  /** What a PASS means, in plain terms: nobody but the greatest survivor is ever MASTER, and nobody
      at all before promoted, which lies within the allowed delay; after settled every answer shows
      the final roles, for at least the hold time up to the last sample; and from then on no
      survivor is silent for longer than the allowed gap. */
  lemma PassedFailoverIsSound(i: FailoverInput, candidate: Id, timing: Timing, reasons: seq<Reason>)
    returns (promoted: real, settled: real)
    requires Sorted(i.post) && timing.maxGap >= 0.0 && ExpectedCandidate(i.ids, i.failed) == Ok(candidate)
    requires forall x :: x in reasons <==> !x.baseline && FailoverReason(x.code, i, candidate, timing)
    requires VerdictFor(reasons) == PASS
    ensures i.post != []
    ensures IsGreatest(candidate, set n | n in i.ids && n != i.failed)
    ensures timing.minDelay <= promoted - i.kill <= timing.deadline
    ensures promoted <= settled <= i.post[|i.post| - 1].t - timing.hold
    ensures forall s, n :: s in i.post && n in i.ids && n != i.failed && Leads(s, n) ==>
              n == candidate && s.t >= promoted
    ensures forall s, n :: s in i.post && s.t > settled && n in i.ids && n != i.failed && Serves(s, n) ==>
              s.nodes[n].role == if n == candidate then Master else Follower
    ensures forall n :: n in i.ids && n != i.failed ==>
              NeverSilent(i.post, n, settled, i.post[|i.post| - 1].t, timing.maxGap)
  {
    PassIsSure(i, candidate, timing, reasons);
    var survivors := Survivors(i.ids, i.failed);
    var f: nat, q: nat :|
      PromotedInTime(i, survivors, candidate, timing, f, q) && WatchedFrom(i, survivors, timing, q);
    promoted, settled := i.post[f].t, i.post[q].t;
    NobodyElseLeads(i, survivors, candidate, f);
    FinalAfter(i.post, survivors, candidate, q);
    ObservedAfter(i, survivors, timing, q);
  }

  lemma PassIsSure(i: FailoverInput, candidate: Id, timing: Timing, reasons: seq<Reason>)
    requires Sorted(i.post) && timing.maxGap >= 0.0
    requires forall x :: x in reasons <==> !x.baseline && FailoverReason(x.code, i, candidate, timing)
    requires VerdictFor(reasons) == PASS
    ensures i.post != [] && SurvivorsHold(i, Survivors(i.ids, i.failed), candidate)
    ensures PromotionHolds(i, Survivors(i.ids, i.failed), candidate, timing)
  {
    FailoverPassIsExact(i, candidate, timing, reasons);
  }

  lemma NobodyElseLeads(i: FailoverInput, survivors: seq<Id>, candidate: Id, f: nat)
    requires Sorted(i.post) && SurvivorsHold(i, survivors, candidate) && FirstLed(i.post, candidate, f)
    ensures forall s, n :: s in i.post && n in survivors && Leads(s, n) ==> n == candidate && s.t >= i.post[f].t
  {
    forall s, n | s in i.post && n in survivors && Leads(s, n) ensures n == candidate && s.t >= i.post[f].t {
      var k :| 0 <= k < |i.post| && i.post[k] == s;
    }
  }

  lemma FinalAfter(post: seq<Sample>, survivors: seq<Id>, candidate: Id, q: nat)
    requires Sorted(post) && q < |post| && RolesFinal(post, survivors, candidate, q)
    ensures forall s, n :: s in post && s.t > post[q].t && n in survivors && Serves(s, n) ==>
              s.nodes[n].role == if n == candidate then Master else Follower
  {
    forall s, n | s in post && s.t > post[q].t && n in survivors && Serves(s, n)
      ensures s.nodes[n].role == if n == candidate then Master else Follower
    {
      var k :| 0 <= k < |post| && post[k] == s;
    }
  }

  lemma ObservedAfter(i: FailoverInput, survivors: seq<Id>, timing: Timing, q: nat)
    requires q < |i.post| && WatchedFrom(i, survivors, timing, q)
    ensures forall n :: n in survivors ==>
              NeverSilent(i.post, n, i.post[q].t, i.post[|i.post| - 1].t, timing.maxGap)
  {
    var start, end := i.post[q].t, i.post[|i.post| - 1].t;
    var m: nat :| m < |i.post| && Cut(i.post, start, m) && Watched(i.post[m..], survivors, start, end, timing);
    forall n, a: real, b: real | n in survivors && start <= a && b <= end && b - a > timing.maxGap
      ensures AnsweredWithin(i.post, n, a, b)
    {
      assert AnsweredWithin(i.post[m..], n, a, b);
    }
  }
}
