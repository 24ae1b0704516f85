/** Run records and campaign totals (validation/statistical-resilience/statistical_resilience.py),
    and their agreement with what the failover orchestrator reports. */
module CampaignRuns {
  import opened Basics
  import opened Percentiles
  import Orchestrator = FailoverOrchestrator

  // ----- records ------------------------------------------------------------------------------

  datatype Field = T0T1 | T1T3 | T3T4 | T0T4

  const FIELDS: seq<Field> := [T0T1, T1T3, T3T4, T0T4]

  datatype Number = Finite(value: real) | NotFinite | NotNumeric
  datatype Textual = Null | NotText | Text(text: string)
  datatype Class = ValidRun | InvalidRun

  /** A record as it comes in: `complete` when no required field is missing, None where the type
      or the word is not an accepted one, `extras` when environment and provenance are mappings
      or absent. */
  datatype Raw = Raw(
    complete: bool, runId: string, experiment: string, classification: Option<Class>,
    timing: Option<map<Field, Number>>, converged: Option<bool>, splitBrain: Option<bool>,
    promoted: Textual, reason: Textual, extras: bool)

  datatype Run = Run(
    runId: string, experiment: string, classification: Class, timing: map<Field, real>,
    promoted: Option<string>, converged: bool, splitBrain: bool, reason: Option<string>)

  datatype RunError =
    | MissingField | BlankRunId | BlankExperiment | BadClassification | BadTiming
    | MissingTiming(field: Field) | BadNumber(field: Field) | NotBoolean | BadNode | BadReason
    | ValidWithoutNode | ValidWithReason | InvalidWithoutReason | BadExtras

  /** One timing value: an error unless it is a finite number that is not negative. */
  function CheckNumber(x: Number): Option<real> { if x.Finite? && x.value >= 0.0 then Some(x.value) else None }

  function AddTiming(acc: map<Field, real>, timing: map<Field, Number>, required: bool, f: Field)
    : Result<map<Field, real>, RunError>
  {
    if f !in timing then if required then Err(MissingTiming(f)) else Ok(acc)
    else if CheckNumber(timing[f]).None? then Err(BadNumber(f))
    else Ok(acc[f := CheckNumber(timing[f]).value])
  }

  function Timings(timing: map<Field, Number>, required: bool, fields: seq<Field>): Result<map<Field, real>, RunError> {
    if fields == [] then Ok(map[])
    else
      match Timings(timing, required, fields[..|fields| - 1])
      case Err(e) => Err(e)
      case Ok(acc) => AddTiming(acc, timing, required, fields[|fields| - 1])
  }

  lemma {:induction false} FirstBadTimingDecides(timing: map<Field, Number>, required: bool, fields: seq<Field>, n: nat)
    requires n <= |fields| && Timings(timing, required, fields[..n]).Err?
    ensures Timings(timing, required, fields) == Timings(timing, required, fields[..n])
    decreases |fields| - n
  {
    if n < |fields| {
      assert fields[..n + 1][..n] == fields[..n];
      FirstBadTimingDecides(timing, required, fields, n + 1);
    } else {
      assert fields[..n] == fields;
    }
  }

  /** The two timing loops of `validate_run`: the first bad field decides the error. */
  method NormaliseTiming(timing: map<Field, Number>, required: bool) returns (r: Result<map<Field, real>, RunError>)
    ensures r == Timings(timing, required, FIELDS)
  {
    var acc: map<Field, real> := map[];
    for i := 0 to |FIELDS|
      invariant Timings(timing, required, FIELDS[..i]) == Ok(acc)
    {
      assert FIELDS[..i + 1][..i] == FIELDS[..i];
      var step := AddTiming(acc, timing, required, FIELDS[i]);
      if step.Err? {
        FirstBadTimingDecides(timing, required, FIELDS, i + 1);
        return step;
      }
      acc := step.value;
    }
    assert FIELDS[..|FIELDS|] == FIELDS;
    return Ok(acc);
  }

  /** A text, stripped; a blank one counts as none. */
  function TextOrNone(t: Textual): Option<string> {
    if t.Text? && Strip(t.text) != [] then Some(Strip(t.text)) else None
  }

  /** `validate_run`. */
  function Validate(raw: Raw): Result<Run, RunError> {
    if !raw.complete then Err(MissingField)
    else if Strip(raw.runId) == [] then Err(BlankRunId)
    else if Strip(raw.experiment) == [] then Err(BlankExperiment)
    else if raw.classification.None? then Err(BadClassification)
    else if raw.timing.None? then Err(BadTiming)
    else
      var valid := raw.classification.value == ValidRun;
      var timing := Timings(raw.timing.value, valid, FIELDS);
      var node, reason := TextOrNone(raw.promoted), TextOrNone(raw.reason);
      if timing.Err? then Err(timing.error)
      else if raw.converged.None? || raw.splitBrain.None? then Err(NotBoolean)
      else if raw.promoted.NotText? then Err(BadNode)
      else if raw.reason.NotText? then Err(BadReason)
      else if valid && node.None? then Err(ValidWithoutNode)
      else if valid && reason.Some? then Err(ValidWithReason)
      else if !valid && reason.None? then Err(InvalidWithoutReason)
      else if !raw.extras then Err(BadExtras)
      else Ok(Run(Strip(raw.runId), Strip(raw.experiment), raw.classification.value, timing.value,
                  node, raw.converged.value, raw.splitBrain.value, reason))
  }

  lemma {:induction false} TimingsAre(timing: map<Field, Number>, required: bool, fields: seq<Field>)
    requires Timings(timing, required, fields).Ok?
    ensures var m := Timings(timing, required, fields).value;
            && (forall f :: f in m <==> f in fields && f in timing)
            && (forall f :: f in m ==> timing[f] == Finite(m[f]) && m[f] >= 0.0)
            && (required ==> forall f :: f in fields ==> f in m)
  {
    if fields != [] {
      TimingsAre(timing, required, fields[..|fields| - 1]);
      assert fields == fields[..|fields| - 1] + [fields[|fields| - 1]];
    }
  }

  lemma {:induction false} GoodTimingsPass(timing: map<Field, Number>, required: bool, fields: seq<Field>)
    requires forall f :: f in fields && f in timing ==> CheckNumber(timing[f]).Some?
    requires required ==> forall f :: f in fields ==> f in timing
    ensures Timings(timing, required, fields).Ok?
  {
    if fields != [] {
      assert fields == fields[..|fields| - 1] + [fields[|fields| - 1]];
      GoodTimingsPass(timing, required, fields[..|fields| - 1]);
    }
  }

  lemma FieldsAreAll()
    ensures forall f: Field :: f in FIELDS
  {
    forall f: Field ensures f in FIELDS {
      match f {
        case T0T1 => assert FIELDS[0] == f;
        case T1T3 => assert FIELDS[1] == f;
        case T3T4 => assert FIELDS[2] == f;
        case T0T4 => assert FIELDS[3] == f;
      }
    }
  }

  /** The timings a record may carry: finite, not negative, and for a valid run all four. */
  ghost predicate GoodTimings(timing: map<Field, Number>, required: bool) {
    && (forall f :: f in timing ==> timing[f].Finite? && timing[f].value >= 0.0)
    && (required ==> T0T1 in timing && T1T3 in timing && T3T4 in timing && T0T4 in timing)
  }

  ghost predicate NonBlank(t: Textual) { t.Text? && Strip(t.text) != [] }

  lemma GoodTimingsExactly(timing: map<Field, Number>, required: bool)
    ensures Timings(timing, required, FIELDS).Ok? <==> GoodTimings(timing, required)
    ensures GoodTimings(timing, required) ==>
              Timings(timing, required, FIELDS).value == map f | f in timing && timing[f].Finite? :: timing[f].value
  {
    FieldsAreAll();
    if Timings(timing, required, FIELDS).Ok? {
      TimingsAre(timing, required, FIELDS);
      var m := Timings(timing, required, FIELDS).value;
      assert forall f :: f in m ==> timing[f] == Finite(m[f]);
    } else if GoodTimings(timing, required) {
      forall f: Field ensures required ==> f in timing {
        match f { case T0T1 => case T1T3 => case T3T4 => case T0T4 => }
      }
      GoodTimingsPass(timing, required, FIELDS);
    }
  }

  /** Exactly which records are accepted. */
  lemma AcceptedExactlyWhen(raw: Raw)
    ensures Validate(raw).Ok? <==>
            && raw.complete && raw.extras && Strip(raw.runId) != [] && Strip(raw.experiment) != []
            && raw.classification.Some? && raw.converged.Some? && raw.splitBrain.Some?
            && raw.timing.Some? && GoodTimings(raw.timing.value, raw.classification.value == ValidRun)
            && raw.promoted != NotText && raw.reason != NotText
            && (NonBlank(raw.reason) <==> raw.classification.value == InvalidRun)
            && (raw.classification.value == ValidRun ==> NonBlank(raw.promoted))
  {
    if raw.timing.Some? && raw.classification.Some? {
      GoodTimingsExactly(raw.timing.value, raw.classification.value == ValidRun);
    }
  }

  /** What an accepted record becomes, field by field. */
  lemma AcceptedBecomes(raw: Raw)
    requires Validate(raw).Ok?
    ensures raw.timing.Some?
    ensures var r := Validate(raw).value;
            && r.runId == Strip(raw.runId) && r.experiment == Strip(raw.experiment)
            && Some(r.classification) == raw.classification
            && Some(r.converged) == raw.converged && Some(r.splitBrain) == raw.splitBrain
            && r.promoted == (if NonBlank(raw.promoted) then Some(Strip(raw.promoted.text)) else None)
            && r.reason == (if NonBlank(raw.reason) then Some(Strip(raw.reason.text)) else None)
            && r.timing.Keys == raw.timing.value.Keys
            && forall f :: f in r.timing ==> raw.timing.value[f] == Finite(r.timing[f])
  {
    GoodTimingsExactly(raw.timing.value, raw.classification.value == ValidRun);
    var m := raw.timing.value;
    assert Validate(raw).value.timing == map f | f in m && m[f].Finite? :: m[f].value;
  }

  /** What holds of every normalised record. */
  ghost predicate Normal(r: Run) {
    && r.runId == Strip(r.runId) != [] && r.experiment == Strip(r.experiment) != []
    && (r.promoted.Some? ==> r.promoted.value == Strip(r.promoted.value) != [])
    && (r.reason.Some? ==> r.reason.value == Strip(r.reason.value) != [])
    && (forall f :: f in r.timing ==> r.timing[f] >= 0.0)
    && (r.reason.None? <==> r.classification == ValidRun)
    && (r.classification == ValidRun ==> r.promoted.Some? && forall f: Field :: f in r.timing)
  }

  lemma StripSettles(s: string)
    ensures Strip(Strip(s)) == Strip(s)
    ensures TextOrNone(Text(s)).Some? ==> TextOrNone(Text(s)).value == Strip(TextOrNone(Text(s)).value) != []
  {
    StripTwice(s);
  }

  lemma ValidatedTimings(raw: Raw)
    requires Validate(raw).Ok?
    ensures var r := Validate(raw).value;
            && (forall f :: f in r.timing ==> r.timing[f] >= 0.0)
            && (r.classification == ValidRun ==> forall f: Field :: f in r.timing)
  {
    FieldsAreAll();
    TimingsAre(raw.timing.value, raw.classification.value == ValidRun, FIELDS);
  }

  lemma ValidatedIsNormal(raw: Raw)
    ensures Validate(raw).Ok? ==> Normal(Validate(raw).value)
  {
    if Validate(raw).Ok? {
      ValidatedTimings(raw);
      StripSettles(raw.runId);
      StripSettles(raw.experiment);
      if raw.promoted.Text? { StripSettles(raw.promoted.text); }
      if raw.reason.Text? { StripSettles(raw.reason.text); }
    }
  }

  function OptionalText(t: Option<string>): Textual { if t.None? then Null else Text(t.value) }

  /** A normalised record as a record to validate. */
  function AsRaw(r: Run): Raw {
    Raw(true, r.runId, r.experiment, Some(r.classification), Some(map f | f in r.timing :: Finite(r.timing[f])),
        Some(r.converged), Some(r.splitBrain), OptionalText(r.promoted), OptionalText(r.reason), true)
  }

  lemma NormalTimings(timing: map<Field, real>, required: bool)
    requires forall f :: f in timing ==> timing[f] >= 0.0
    requires required ==> forall f: Field :: f in timing
    ensures Timings(map f | f in timing :: Finite(timing[f]), required, FIELDS) == Ok(timing)
  {
    var raw := map f | f in timing :: Finite(timing[f]);
    FieldsAreAll();
    GoodTimingsPass(raw, required, FIELDS);
    TimingsAre(raw, required, FIELDS);
    var m := Timings(raw, required, FIELDS).value;
    assert forall f :: f in m ==> Finite(m[f]) == raw[f];
    assert m == timing;
  }

  /** Validation is idempotent: every normal record is accepted as it is. */
  lemma NormalIsAccepted(r: Run)
    requires Normal(r)
    ensures Validate(AsRaw(r)) == Ok(r)
  {
    NormalTimings(r.timing, r.classification == ValidRun);
    assert TextOrNone(OptionalText(r.promoted)) == r.promoted;
    assert TextOrNone(OptionalText(r.reason)) == r.reason;
  }

  /** Whether a record is accepted does not depend on what it says about convergence and split
      brain, which are passed on as they are: an accepted valid record converged exactly when its
      own field says so. */
  lemma AcceptanceIgnoresOutcome(raw: Raw, converged: bool, split: bool)
    requires raw.converged.Some? && raw.splitBrain.Some?
    ensures Validate(raw.(converged := Some(converged), splitBrain := Some(split))) ==
            match Validate(raw)
            case Ok(r) => Ok(r.(converged := converged, splitBrain := split))
            case Err(e) => Err(e)
    ensures Validate(raw).Ok? ==> Validate(raw).value.converged == raw.converged.value
                                  && Validate(raw).value.splitBrain == raw.splitBrain.value
  {
  }

  /** A record that is accepted as valid and says that nothing converged. */
  lemma ValidNeedNotHaveConverged() returns (raw: Raw)
    ensures raw.classification == Some(ValidRun) && raw.converged == Some(false) && raw.splitBrain == Some(true)
    ensures Validate(raw).Ok?
  {
    var timing := map[T0T1 := 0.0, T1T3 := 0.0, T3T4 := 0.0, T0T4 := 0.0];
    var r := Run(['r'], ['e'], ValidRun, timing, Some(['n']), false, true, None);
    forall f: Field ensures f in timing { match f case T0T1 => case T1T3 => case T3T4 => case T0T4 => }
    NormalIsAccepted(r);
    raw := AsRaw(r);
  }

  // ----- what the orchestrator reports ------------------------------------------------------------

  function Start(f: Field): Orchestrator.Event { match f case T0T1 => 0 case T1T3 => 1 case T3T4 => 3 case T0T4 => 0 }

  function End(f: Field): Orchestrator.Event { match f case T0T1 => 1 case T1T3 => 3 case T3T4 => 4 case T0T4 => 4 }

  /** `timing_ms`, before rounding. */
  function TimingMs(t: Orchestrator.Timeline): map<Field, Number> {
    map f: Field | Start(f) in t && End(f) in t :: Finite((t[End(f)] - t[Start(f)]) * 1000.0)
  }

  /** The record of a finished run; `render` is the text of a reason. */
  function Evidence(
    o: Orchestrator.Outcome, split: bool, runId: string, experiment: string, render: Orchestrator.Reason -> string): Raw
    requires o.Finished? && !o.verdict.NoReasonGiven?
  {
    Raw(true, runId, experiment, Some(if o.verdict == Orchestrator.Valid then ValidRun else InvalidRun),
        Some(TimingMs(o.timeline)), Some(o.converged), Some(split),
        if o.promoted.None? then Null else Text(Strip(o.promoted.value)),
        if o.verdict.Invalid? then Text(render(o.verdict.reason)) else Null, true)
  }

  lemma TimelineGivesTimings(t: Orchestrator.Timeline)
    requires Orchestrator.IsPrefix(t)
    ensures forall f :: f in TimingMs(t) ==> CheckNumber(TimingMs(t)[f]).Some?
    ensures 4 in t ==> forall f: Field :: f in TimingMs(t)
  {
    forall f | f in TimingMs(t) ensures CheckNumber(TimingMs(t)[f]).Some? {
      assert t[Start(f)] <= t[End(f)];
    }
  }

  /** The part of a report that its record depends on. */
  ghost predicate Gist(o: Orchestrator.Outcome, split: bool)
    requires o.Finished?
  {
    && Orchestrator.IsPrefix(o.timeline)
    && (o.verdict == Orchestrator.Valid ==>
          4 in o.timeline && o.converged && !split && o.promoted.Some? && Strip(o.promoted.value) != [])
    && (o.verdict != Orchestrator.Valid ==> o.verdict.Invalid? && !Orchestrator.IsEmptyReason(o.verdict.reason))
  }

  lemma ReportsGist(c: Orchestrator.Setup, w: Orchestrator.World, o: Orchestrator.Outcome, split: bool)
    requires o.Finished? && Orchestrator.Reports(c, w, o) && (split <==> Orchestrator.SawSplitBrain(c, w, o.rounds))
    ensures Gist(o, split)
  {
    if o.converged { Orchestrator.PromotedIsNamed(w.rounds(o.rounds - 1), o.promoted); }
  }

  lemma EvidenceTimings(t: Orchestrator.Timeline, required: bool)
    requires Orchestrator.IsPrefix(t) && (required ==> 4 in t)
    ensures Timings(TimingMs(t), required, FIELDS).Ok?
  {
    TimelineGivesTimings(t);
    FieldsAreAll();
    GoodTimingsPass(TimingMs(t), required, FIELDS);
  }

  /** What a record needs to be accepted. */
  lemma AcceptedWhen(raw: Raw)
    requires raw.complete && raw.extras && Strip(raw.runId) != [] && Strip(raw.experiment) != []
    requires raw.classification.Some? && raw.timing.Some? && raw.converged.Some? && raw.splitBrain.Some?
    requires Timings(raw.timing.value, raw.classification.value == ValidRun, FIELDS).Ok?
    requires !raw.promoted.NotText? && !raw.reason.NotText?
    requires if raw.classification.value == ValidRun then TextOrNone(raw.promoted).Some? && TextOrNone(raw.reason).None?
             else TextOrNone(raw.reason).Some?
    ensures Validate(raw).Ok?
  {
  }

  lemma GistValidates(
    o: Orchestrator.Outcome, split: bool, runId: string, experiment: string, render: Orchestrator.Reason -> string)
    requires o.Finished? && Gist(o, split) && Strip(runId) != [] && Strip(experiment) != []
    requires o.verdict.Invalid? ==> Strip(render(o.verdict.reason)) != []
    ensures Validate(Evidence(o, split, runId, experiment, render)).Ok?
  {
    EvidenceTimings(o.timeline, o.verdict == Orchestrator.Valid);
    if o.promoted.Some? { StripTwice(o.promoted.value); }
    AcceptedWhen(Evidence(o, split, runId, experiment, render));
  }

  /** Before rounding, the phases of a converged record add up to its total. */
  lemma PhasesAddUp(t: Orchestrator.Timeline)
    requires Orchestrator.IsPrefix(t) && 4 in t
    ensures var ms := TimingMs(t);
            && (forall f: Field :: f in ms && ms[f].Finite?)
            && ms[T0T1].value + ms[T1T3].value + ms[T3T4].value == ms[T0T4].value
            && ms[T0T1].value == (t[1] - t[0]) * 1000.0 && ms[T1T3].value == (t[3] - t[1]) * 1000.0
            && ms[T3T4].value == (t[4] - t[3]) * 1000.0 && ms[T0T4].value == (t[4] - t[0]) * 1000.0
  {
    TimelineGivesTimings(t);
    assert t[1] - t[0] + (t[3] - t[1]) + (t[4] - t[3]) == t[4] - t[0];
  }

  /** Whatever the orchestrator reports is a record the campaign accepts, with the orchestrator's
      own classification; a valid one converged and saw no split brain. */
  lemma OrchestratedRunsValidate(
    c: Orchestrator.Setup, w: Orchestrator.World, o: Orchestrator.Outcome, split: bool,
    runId: string, experiment: string, render: Orchestrator.Reason -> string)
    requires o.Finished? && Orchestrator.Reports(c, w, o) && (split <==> Orchestrator.SawSplitBrain(c, w, o.rounds))
    requires Strip(runId) != [] && Strip(experiment) != []
    requires forall r :: !Orchestrator.IsEmptyReason(r) ==> Strip(render(r)) != []
    ensures Gist(o, split)
    ensures var v := Validate(Evidence(o, split, runId, experiment, render));
            && v.Ok? && Normal(v.value)
            && (v.value.classification == ValidRun <==> o.verdict == Orchestrator.Valid)
            && (v.value.classification == ValidRun ==> v.value.converged && !v.value.splitBrain)
  {
    ReportsGist(c, w, o, split);
    RecordOfGist(o, split, runId, experiment, render);
  }

  lemma RecordOfGist(
    o: Orchestrator.Outcome, split: bool, runId: string, experiment: string, render: Orchestrator.Reason -> string)
    requires o.Finished? && Gist(o, split) && Strip(runId) != [] && Strip(experiment) != []
    requires o.verdict.Invalid? ==> Strip(render(o.verdict.reason)) != []
    ensures var v := Validate(Evidence(o, split, runId, experiment, render));
            && v.Ok? && Normal(v.value)
            && (v.value.classification == ValidRun <==> o.verdict == Orchestrator.Valid)
            && (v.value.classification == ValidRun ==> v.value.converged && !v.value.splitBrain)
  {
    GistValidates(o, split, runId, experiment, render);
    ValidatedIsNormal(Evidence(o, split, runId, experiment, render));
  }

  /** The record of a finished run carries its timings, its outcome and its promoted node. */
  lemma RecordCarriesTheRun(
    o: Orchestrator.Outcome, split: bool, runId: string, experiment: string, render: Orchestrator.Reason -> string)
    requires o.Finished? && Gist(o, split) && Strip(runId) != [] && Strip(experiment) != []
    requires o.verdict.Invalid? ==> Strip(render(o.verdict.reason)) != []
    ensures Validate(Evidence(o, split, runId, experiment, render)).Ok?
    ensures var r := Validate(Evidence(o, split, runId, experiment, render)).value;
            && r.runId == Strip(runId) && r.experiment == Strip(experiment)
            && r.converged == o.converged && r.splitBrain == split
            && (o.promoted.Some? && Strip(o.promoted.value) != [] ==> r.promoted == Some(Strip(o.promoted.value)))
            && (o.promoted.None? ==> r.promoted.None?)
            && (o.verdict.Invalid? ==> r.reason == Some(Strip(render(o.verdict.reason))))
            && (T0T4 in r.timing <==> 4 in o.timeline)
            && (T0T4 in r.timing ==> r.timing[T0T4] == (o.timeline[4] - o.timeline[0]) * 1000.0)
  {
    GistValidates(o, split, runId, experiment, render);
    AcceptedBecomes(Evidence(o, split, runId, experiment, render));
    if o.promoted.Some? { StripTwice(o.promoted.value); }
    if 4 in o.timeline { assert T0T4 in TimingMs(o.timeline); }
  }

  // ----- campaigns ------------------------------------------------------------------------------------

  datatype CampaignError = BadRun(error: RunError) | NoRuns | DuplicateIds | NoValidRun | MixedExperiments

  datatype Campaign = Campaign(
    experiment: string, total: nat, valid: nat, invalid: nat, timing: map<Field, Summary>,
    converged: nat, splitBrains: nat, promoted: map<string, nat>)

  function ValidateAll(raws: seq<Raw>): (r: Result<seq<Run>, RunError>)
    ensures r.Ok? ==> |r.value| == |raws| && forall i :: 0 <= i < |raws| ==> Validate(raws[i]) == Ok(r.value[i])
  {
    if raws == [] then Ok([])
    else
      match ValidateAll(raws[..|raws| - 1])
      case Err(e) => Err(e)
      case Ok(runs) =>
        match Validate(raws[|raws| - 1])
        case Err(e) => Err(e)
        case Ok(run) => Ok(runs + [run])
  }

  function Select(runs: seq<Run>, p: Run -> bool): (r: seq<Run>)
    ensures forall x :: x in r <==> x in runs && p(x)
    ensures |r| <= |runs|
  {
    if runs == [] then []
    else Select(runs[..|runs| - 1], p) + if p(runs[|runs| - 1]) then [runs[|runs| - 1]] else []
  }

  predicate IsValid(r: Run) { r.classification == ValidRun }
  predicate IsInvalid(r: Run) { r.classification == InvalidRun }
  predicate DidConverge(r: Run) { r.converged }
  predicate SawSplit(r: Run) { r.splitBrain }

  lemma {:induction false} ValidAndInvalidMakeAll(runs: seq<Run>)
    ensures |Select(runs, IsValid)| + |Select(runs, IsInvalid)| == |runs|
  {
    if runs != [] { ValidAndInvalidMakeAll(runs[..|runs| - 1]); }
  }

  function Times(runs: seq<Run>, f: Field): (r: seq<real>)
    requires forall i :: 0 <= i < |runs| ==> f in runs[i].timing
    ensures |r| == |runs| && forall i :: 0 <= i < |runs| ==> r[i] == runs[i].timing[f]
  {
    seq(|runs|, i requires 0 <= i < |runs| => runs[i].timing[f])
  }

  function Promotions(runs: seq<Run>, node: string): nat {
    if runs == [] then 0
    else Promotions(runs[..|runs| - 1], node) + if runs[|runs| - 1].promoted == Some(node) then 1 else 0
  }

  predicate Distinct(runs: seq<Run>) { forall i, j :: 0 <= i < j < |runs| ==> runs[i].runId != runs[j].runId }

  predicate OneExperiment(runs: seq<Run>) {
    forall i :: 0 <= i < |runs| ==> runs[i].experiment == runs[0].experiment
  }

  /** Why a campaign is refused. */
  function Refusal(raws: seq<Raw>): Option<CampaignError> {
    var all := ValidateAll(raws);
    if all.Err? then Some(BadRun(all.error))
    else if raws == [] then Some(NoRuns)
    else if !Distinct(all.value) then Some(DuplicateIds)
    else if Select(all.value, IsValid) == [] then Some(NoValidRun)
    else if !OneExperiment(all.value) then Some(MixedExperiments)
    else None
  }

  ghost predicate SharesId(raws: seq<Raw>) {
    exists i, j :: 0 <= i < j < |raws| && Strip(raws[i].runId) == Strip(raws[j].runId)
  }

  ghost predicate AllAccepted(raws: seq<Raw>) { forall i :: 0 <= i < |raws| ==> Validate(raws[i]).Ok? }

  ghost predicate HasValid(raws: seq<Raw>) {
    exists i :: 0 <= i < |raws| && raws[i].classification == Some(ValidRun)
  }

  ghost predicate SharesExperiment(raws: seq<Raw>) {
    forall i :: 0 <= i < |raws| ==> Strip(raws[i].experiment) == Strip(raws[0].experiment)
  }

  lemma AllBecome(raws: seq<Raw>, i: nat)
    requires ValidateAll(raws).Ok? && i < |raws|
    ensures var r := ValidateAll(raws).value[i];
            && r.runId == Strip(raws[i].runId) && r.experiment == Strip(raws[i].experiment)
            && Some(r.classification) == raws[i].classification
            && Some(r.converged) == raws[i].converged && Some(r.splitBrain) == raws[i].splitBrain
  {
    AcceptedBecomes(raws[i]);
  }

  lemma IdsAreShared(raws: seq<Raw>)
    requires ValidateAll(raws).Ok?
    ensures Distinct(ValidateAll(raws).value) <==> !SharesId(raws)
    ensures raws != [] ==> (OneExperiment(ValidateAll(raws).value) <==> SharesExperiment(raws))
  {
    var runs := ValidateAll(raws).value;
    forall i | 0 <= i < |raws|
      ensures runs[i].runId == Strip(raws[i].runId) && runs[i].experiment == Strip(raws[i].experiment)
    {
      AllBecome(raws, i);
    }
  }

  /** Why a campaign is refused, in the order of the checks; the first record refused decides. */
  lemma RefusesExactly(raws: seq<Raw>)
    ensures Refusal(raws).None? <==>
            AllAccepted(raws) && raws != [] && !SharesId(raws) && HasValid(raws) && SharesExperiment(raws)
    ensures Refusal(raws) == Some(NoRuns) <==> raws == []
    ensures Refusal(raws) == Some(DuplicateIds) <==> AllAccepted(raws) && SharesId(raws)
    ensures Refusal(raws) == Some(NoValidRun) <==> AllAccepted(raws) && raws != [] && !SharesId(raws) && !HasValid(raws)
    ensures Refusal(raws) == Some(MixedExperiments)
            <==> AllAccepted(raws) && !SharesId(raws) && HasValid(raws) && !SharesExperiment(raws)
  {
    AcceptedTogether(raws);
    if ValidateAll(raws).Ok? {
      IdsAreShared(raws);
      SomeValid(raws);
    }
    if raws != [] { RefusesByCheck(raws); }
  }

  lemma RefusesByCheck(raws: seq<Raw>)
    requires raws != []
    ensures Refusal(raws) ==
            var all := ValidateAll(raws);
            if all.Err? then Some(BadRun(all.error))
            else if !Distinct(all.value) then Some(DuplicateIds)
            else if Select(all.value, IsValid) == [] then Some(NoValidRun)
            else if !OneExperiment(all.value) then Some(MixedExperiments)
            else None
  {
  }

  lemma {:induction false} AcceptedTogether(raws: seq<Raw>)
    ensures ValidateAll(raws).Ok? <==> AllAccepted(raws)
  {
    if raws != [] {
      var front := raws[..|raws| - 1];
      AcceptedTogether(front);
      assert forall j :: 0 <= j < |front| ==> front[j] == raws[j];
    }
  }

  lemma SomeValid(raws: seq<Raw>)
    requires ValidateAll(raws).Ok?
    ensures Select(ValidateAll(raws).value, IsValid) == [] <==> !HasValid(raws)
  {
    var runs := ValidateAll(raws).value;
    if Select(runs, IsValid) != [] {
      var r := Select(runs, IsValid)[0];
      assert r in Select(runs, IsValid);
      var k :| 0 <= k < |runs| && runs[k] == r;
      AllBecome(raws, k);
      assert raws[k].classification == Some(ValidRun);
    }
    if i :| 0 <= i < |raws| && raws[i].classification == Some(ValidRun) {
      AllBecome(raws, i);
      assert runs[i] in runs && IsValid(runs[i]);
      assert runs[i] in Select(runs, IsValid);
    }
  }

  /** The error of a bad record is that of the first one. */
  lemma {:induction false} FirstBadRecordDecides(raws: seq<Raw>, i: nat)
    requires i < |raws| && Validate(raws[i]).Err? && forall j :: 0 <= j < i ==> Validate(raws[j]).Ok?
    ensures ValidateAll(raws) == Err(Validate(raws[i]).error)
  {
    var front := raws[..|raws| - 1];
    assert forall j :: 0 <= j < |front| ==> front[j] == raws[j];
    if i < |front| {
      FirstBadRecordDecides(front, i);
    } else {
      AcceptedTogether(front);
      assert ValidateAll(front).Ok?;
    }
  }

  ghost function Chosen(runs: seq<Run>, p: Run -> bool): set<nat> { set i: nat | i < |runs| && p(runs[i]) }

  lemma ChosenGrows(runs: seq<Run>, p: Run -> bool)
    requires runs != []
    ensures var front, last := runs[..|runs| - 1], |runs| - 1;
            Chosen(runs, p) == Chosen(front, p) + if p(runs[last]) then {last} else {}
  {
  }

  /** The records of a kind, by position. */
  lemma {:induction false} SelectCounts(runs: seq<Run>, p: Run -> bool)
    ensures |Select(runs, p)| == |Chosen(runs, p)|
  {
    if runs != [] {
      var front, last := runs[..|runs| - 1], |runs| - 1;
      SelectCounts(front, p);
      ChosenGrows(runs, p);
      assert last !in Chosen(front, p);
    }
  }

  /** Every run has all four timings. */
  ghost predicate AllTimed(valid: seq<Run>) {
    forall i, f: Field :: 0 <= i < |valid| ==> f in valid[i].timing && valid[i].timing[f] >= 0.0
  }

  ghost predicate AllPromoted(valid: seq<Run>) { forall i :: 0 <= i < |valid| ==> valid[i].promoted.Some? }

  lemma ValidOnesAreTimed(raws: seq<Raw>)
    requires ValidateAll(raws).Ok?
    ensures var valid := Select(ValidateAll(raws).value, IsValid); AllTimed(valid) && AllPromoted(valid)
  {
    var runs := ValidateAll(raws).value;
    var valid := Select(runs, IsValid);
    forall i | 0 <= i < |valid|
      ensures valid[i].promoted.Some? && forall f: Field :: f in valid[i].timing && valid[i].timing[f] >= 0.0
    {
      assert valid[i] in valid;
      var k :| 0 <= k < |runs| && runs[k] == valid[i];
      ValidatedIsNormal(raws[k]);
    }
  }

  /** The summary of one timing field; valid runs always have samples to summarise. */
  function FieldSummary(valid: seq<Run>, f: Field): (s: Summary)
    requires valid != [] && AllTimed(valid)
    ensures Summarize(Times(valid, f)) == Ok(s) && s.count == |valid|
  {
    var samples := Times(valid, f);
    assert forall x :: x in samples ==> x >= 0.0;
    Summarize(samples).value
  }

  /** The loop that fills the timing table, field by field. */
  method FillTable<V>(entry: Field --> V) returns (table: map<Field, V>)
    requires forall f: Field :: entry.requires(f)
    ensures forall f: Field :: f in table && table[f] == entry(f)
  {
    table := map[];
    for i := 0 to |FIELDS|
      invariant forall j :: 0 <= j < i ==> FIELDS[j] in table && table[FIELDS[j]] == entry(FIELDS[j])
    {
      table := table[FIELDS[i] := entry(FIELDS[i])];
    }
    FieldsAreAll();
    forall f: Field ensures f in table && table[f] == entry(f) {
      assert f in FIELDS;
      var j :| 0 <= j < |FIELDS| && FIELDS[j] == f;
    }
  }

  function CountOf(m: map<string, nat>, n: string): nat { if n in m then m[n] else 0 }

  /** m holds every promoted node with the number of its promotions. */
  ghost predicate Tallies(m: map<string, nat>, runs: seq<Run>) {
    && (forall n :: CountOf(m, n) == Promotions(runs, n))
    && forall n :: n in m ==> m[n] > 0
  }

  lemma TallyOneMore(m: map<string, nat>, runs: seq<Run>, r: Run)
    requires Tallies(m, runs) && r.promoted.Some?
    ensures Tallies(m[r.promoted.value := CountOf(m, r.promoted.value) + 1], runs + [r])
  {
    var m' := m[r.promoted.value := CountOf(m, r.promoted.value) + 1];
    assert (runs + [r])[..|runs|] == runs;
    forall n ensures CountOf(m', n) == Promotions(runs + [r], n) {
      assert CountOf(m, n) == Promotions(runs, n);
    }
  }

  /** The counting loop over promoted nodes. */
  method CountPromotions(valid: seq<Run>) returns (promoted: map<string, nat>)
    requires AllPromoted(valid)
    ensures Tallies(promoted, valid)
  {
    promoted := map[];
    for i := 0 to |valid|
      invariant Tallies(promoted, valid[..i])
    {
      assert valid[..i + 1] == valid[..i] + [valid[i]];
      TallyOneMore(promoted, valid[..i], valid[i]);
      var node := valid[i].promoted.value;
      promoted := promoted[node := CountOf(promoted, node) + 1];
    }
    assert valid[..|valid|] == valid;
  }

  lemma ValidShareTheExperiment(raws: seq<Raw>)
    requires Refusal(raws).None?
    ensures raws != [] && Select(ValidateAll(raws).value, IsValid) != []
    ensures Select(ValidateAll(raws).value, IsValid)[0].experiment == Strip(raws[0].experiment)
  {
    var runs := ValidateAll(raws).value;
    var first := Select(runs, IsValid)[0];
    assert first in Select(runs, IsValid);
    var k :| 0 <= k < |runs| && runs[k] == first;
    AllBecome(raws, 0);
  }

  /** The valid ones of the records, normalised and in their order; none if a record is refused. */
  function ValidRuns(raws: seq<Raw>): seq<Run> {
    if ValidateAll(raws).Ok? then Select(ValidateAll(raws).value, IsValid) else []
  }

  ghost function Labelled(raws: seq<Raw>, c: Class): set<nat> {
    set i: nat | i < |raws| && raws[i].classification == Some(c)
  }

  ghost function SaidConverged(raws: seq<Raw>): set<nat> {
    set i: nat | i < |raws| && raws[i].converged == Some(true)
  }

  ghost function SaidSplit(raws: seq<Raw>): set<nat> {
    set i: nat | i < |raws| && raws[i].splitBrain == Some(true)
  }

  lemma ChosenAre(raws: seq<Raw>, p: Run -> bool, said: set<nat>)
    requires ValidateAll(raws).Ok? && forall i :: i in said ==> i < |raws|
    requires forall i: nat :: i < |raws| ==> (p(ValidateAll(raws).value[i]) <==> i in said)
    ensures |Select(ValidateAll(raws).value, p)| == |said|
  {
    var runs := ValidateAll(raws).value;
    SelectCounts(runs, p);
    assert Chosen(runs, p) == said;
  }

  lemma LabelsAreCounted(raws: seq<Raw>)
    requires ValidateAll(raws).Ok?
    ensures |Select(ValidateAll(raws).value, IsValid)| == |Labelled(raws, ValidRun)|
    ensures |Select(ValidateAll(raws).value, IsInvalid)| == |Labelled(raws, InvalidRun)|
  {
    forall i: nat | i < |raws|
      ensures IsValid(ValidateAll(raws).value[i]) <==> i in Labelled(raws, ValidRun)
      ensures IsInvalid(ValidateAll(raws).value[i]) <==> i in Labelled(raws, InvalidRun)
    {
      AllBecome(raws, i);
    }
    ChosenAre(raws, IsValid, Labelled(raws, ValidRun));
    ChosenAre(raws, IsInvalid, Labelled(raws, InvalidRun));
  }

  lemma OutcomesAreCounted(raws: seq<Raw>)
    requires ValidateAll(raws).Ok?
    ensures |Select(ValidateAll(raws).value, DidConverge)| == |SaidConverged(raws)|
    ensures |Select(ValidateAll(raws).value, SawSplit)| == |SaidSplit(raws)|
  {
    forall i: nat | i < |raws|
      ensures DidConverge(ValidateAll(raws).value[i]) <==> i in SaidConverged(raws)
      ensures SawSplit(ValidateAll(raws).value[i]) <==> i in SaidSplit(raws)
    {
      AllBecome(raws, i);
    }
    ChosenAre(raws, DidConverge, SaidConverged(raws));
    ChosenAre(raws, SawSplit, SaidSplit(raws));
  }

  /** `summarize_campaign`. */
  method SummarizeCampaign(raws: seq<Raw>) returns (r: Result<Campaign, CampaignError>)
    ensures r.Err? <==> Refusal(raws).Some?
    ensures r.Err? ==> r.error == Refusal(raws).value
    ensures r.Ok? ==>
              && r.value.experiment == Strip(raws[0].experiment)
              && r.value.total == |raws| == r.value.valid + r.value.invalid && r.value.valid > 0
              && r.value.valid == |Labelled(raws, ValidRun)| && r.value.invalid == |Labelled(raws, InvalidRun)|
              && ValidRuns(raws) != [] && AllTimed(ValidRuns(raws))
              && (forall f: Field :: f in r.value.timing && r.value.timing[f] == FieldSummary(ValidRuns(raws), f))
              && r.value.converged == |SaidConverged(raws)| <= r.value.total
              && r.value.splitBrains == |SaidSplit(raws)| <= r.value.total
              && Tallies(r.value.promoted, ValidRuns(raws))
  {
    var refusal := Refusal(raws);
    if refusal.Some? { return Err(refusal.value); }
    var runs := ValidateAll(raws).value;
    var valid, invalid := Select(runs, IsValid), Select(runs, IsInvalid);
    ValidAndInvalidMakeAll(runs);
    ValidOnesAreTimed(raws);
    ValidShareTheExperiment(raws);
    LabelsAreCounted(raws);
    OutcomesAreCounted(raws);
    var timing := FillTable((f: Field) requires AllTimed(valid) && valid != [] => FieldSummary(valid, f));
    var promoted := CountPromotions(valid);
    return Ok(Campaign(valid[0].experiment, |runs|, |valid|, |invalid|, timing,
                       |Select(runs, DidConverge)|, |Select(runs, SawSplit)|, promoted));
  }

  lemma {:induction false} EveryPromotionIsCounted(valid: seq<Run>, nodes: seq<string>)
    requires forall i, j :: 0 <= i < j < |nodes| ==> nodes[i] != nodes[j]
    requires forall i :: 0 <= i < |valid| ==> valid[i].promoted.Some? && valid[i].promoted.value in nodes
    ensures Total(valid, nodes) == |valid|
  {
    if valid == [] {
      NoneForNobody(nodes);
    } else {
      var front, last := valid[..|valid| - 1], valid[|valid| - 1];
      EveryPromotionIsCounted(front, nodes);
      OneMorePromotion(valid, nodes);
    }
  }

  /** The promotions of these nodes, added up. */
  function Total(valid: seq<Run>, nodes: seq<string>): nat {
    if nodes == [] then 0 else Promotions(valid, nodes[0]) + Total(valid, nodes[1..])
  }

  lemma {:induction false} NoneForNobody(nodes: seq<string>)
    ensures Total([], nodes) == 0
  {
    if nodes != [] { NoneForNobody(nodes[1..]); }
  }

  lemma {:induction false} OneMorePromotion(valid: seq<Run>, nodes: seq<string>)
    requires valid != [] && forall i, j :: 0 <= i < j < |nodes| ==> nodes[i] != nodes[j]
    ensures var last := valid[|valid| - 1].promoted;
            Total(valid, nodes) == Total(valid[..|valid| - 1], nodes)
                                   + if last.Some? && last.value in nodes then 1 else 0
  {
    if nodes != [] { OneMorePromotion(valid, nodes[1..]); }
  }
}
