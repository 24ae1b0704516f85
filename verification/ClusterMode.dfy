/** Cluster mode resolution (nexus_cluster_mode.py): fail-closed, and pure. */
module ClusterMode {
  import opened Basics

  datatype Mode = Single | Distributed | Unconfigured

  datatype ClusterConfig = ClusterConfig(mode: Mode, size: Option<nat>, majority: Option<nat>)

  datatype ConfigError = SizeNotDecimal | SizeNotPositive | SingleConflict | DistributedNeedsTwo | UnknownMode

  function Majority(size: nat): nat { size / 2 + 1 }

  /** A set variable is stripped; a blank one counts as absent. */
  function Read(value: Option<string>): (r: Option<string>)
    ensures r.Some? ==> r.value != []
  {
    if value.None? || Strip(value.value) == [] then None else Some(Strip(value.value))
  }

  predicate Digit(c: char) { '0' <= c <= '9' }

  function DecimalValue(s: string): nat
    requires forall i :: 0 <= i < |s| ==> Digit(s[i])
  {
    if s == [] then 0
    else
      var last := s[|s| - 1];
      assert Digit(last);
      10 * DecimalValue(s[..|s| - 1]) + (last as int - '0' as int)
  }

  function ParseSize(raw: string): Result<nat, ConfigError> {
    if raw == [] || exists i :: 0 <= i < |raw| && !Digit(raw[i]) then Err(SizeNotDecimal)
    else if DecimalValue(raw) < 1 then Err(SizeNotPositive)
    else Ok(DecimalValue(raw))
  }

  function LowerChar(c: char): char { if 'A' <= c <= 'Z' then (c as int + 32) as char else c }

  function Lower(s: string): (r: string)
    ensures |r| == |s| && forall i :: 0 <= i < |s| ==> r[i] == LowerChar(s[i])
  {
    if s == [] then [] else [LowerChar(s[0])] + Lower(s[1..])
  }

  /** `resolve_cluster_mode` on the two environment variables. */
  function Resolve(modeVar: Option<string>, sizeVar: Option<string>): Result<ClusterConfig, ConfigError> {
    var rawMode := Read(modeVar);
    var rawSize := Read(sizeVar);
    var size := if rawSize.None? then Ok(None)
                else match ParseSize(rawSize.value) case Ok(n) => Ok(Some(n)) case Err(e) => Err(e);
    if size.Err? then Err(size.error)
    else if rawMode.None? then
      if size.value.None? || size.value.value == 1 then Ok(ClusterConfig(Unconfigured, size.value, None))
      else Ok(ClusterConfig(Distributed, size.value, Some(Majority(size.value.value))))
    else if Lower(rawMode.value) == "single" then
      if size.value.Some? && size.value.value != 1 then Err(SingleConflict)
      else Ok(ClusterConfig(Single, Some(1), Some(1)))
    else if Lower(rawMode.value) == "distributed" then
      if size.value.None? || size.value.value < 2 then Err(DistributedNeedsTwo)
      else Ok(ClusterConfig(Distributed, size.value, Some(Majority(size.value.value))))
    else Err(UnknownMode)
  }

  /** What every accepted configuration satisfies: a majority exists exactly outside the
      unconfigured mode, and it is then the least number of members no two disjoint groups
      can both reach. */
  ghost predicate Sound(c: ClusterConfig) {
    && (c.majority.None? <==> c.mode == Unconfigured)
    && (c.mode == Single <==> c.size == Some(1) && c.majority.Some?)
    && (c.mode == Distributed ==> c.size.Some? && c.size.value >= 2)
    && (c.mode == Unconfigured ==> c.size.None? || c.size.value == 1)
    && (c.majority.Some? ==>
          c.size.Some? && c.majority.value <= c.size.value < 2 * c.majority.value <= c.size.value + 2)
  }

  lemma ResolvedIsSound(modeVar: Option<string>, sizeVar: Option<string>)
    ensures Resolve(modeVar, sizeVar).Ok? ==> Sound(Resolve(modeVar, sizeVar).value)
  {
    var rawSize := Read(sizeVar);
    if rawSize.Some? && ParseSize(rawSize.value).Ok? { assert ParseSize(rawSize.value).value >= 1; }
  }

  function Digits(n: nat): (r: string)
    requires n > 0
    ensures r != [] && forall i :: 0 <= i < |r| ==> Digit(r[i])
  {
    (if n < 10 then [] else Digits(n / 10)) + [(n % 10 + '0' as int) as char]
  }

  lemma {:induction false} DigitsAreRead(n: nat)
    requires n > 0
    ensures DecimalValue(Digits(n)) == n
  {
    var d := Digits(n);
    assert d[..|d| - 1] == if n < 10 then [] else Digits(n / 10);
    if n >= 10 { DigitsAreRead(n / 10); }
  }

  /** Every size can be configured, and without a mode it decides alone. */
  lemma EverySizeResolves(n: nat)
    requires n > 0
    ensures Strip(Digits(n)) == Digits(n)
    ensures Resolve(None, Some(Digits(n))) ==
            Ok(if n == 1 then ClusterConfig(Unconfigured, Some(1), None)
               else ClusterConfig(Distributed, Some(n), Some(Majority(n))))
  {
    DigitsAreRead(n);
    var d := Digits(n);
    assert !Blank(d[0]) && !Blank(d[|d| - 1]);
  }

  // ----- every answer -------------------------------------------------------------------------

  ghost predicate Given(v: Option<string>) { v.Some? && Strip(v.value) != [] }

  /** s is the lower-case word w in any mixture of cases. */
  ghost predicate Spells(s: string, w: string) {
    |s| == |w| && forall i :: 0 <= i < |w| ==> s[i] == w[i] || s[i] as int + 32 == w[i] as int
  }

  ghost predicate Says(v: Option<string>, w: string) { v.Some? && Spells(Strip(v.value), w) }

  ghost predicate AllDigits(s: string) { forall i :: 0 <= i < |s| ==> '0' <= s[i] <= '9' }

  /** The size variable is absent, or a decimal of value n. */
  ghost predicate Sizes(v: Option<string>, n: Option<nat>) {
    if !Given(v) then n == None
    else n.Some? && n.value > 0 && AllDigits(Strip(v.value)) && DecimalValue(Strip(v.value)) == n.value
  }

  lemma SpelledIsLower(s: string, w: string)
    requires forall i :: 0 <= i < |w| ==> 'a' <= w[i] <= 'z'
    ensures Lower(s) == w <==> Spells(s, w)
  {
  }

  lemma {:induction false} ZeroMeansZeros(s: string)
    requires AllDigits(s)
    ensures DecimalValue(s) == 0 <==> forall i :: 0 <= i < |s| ==> s[i] == '0'
  {
    if s != [] { ZeroMeansZeros(s[..|s| - 1]); }
  }

  lemma {:induction false} LeadingZero(s: string)
    requires AllDigits(s)
    ensures DecimalValue(['0'] + s) == DecimalValue(s)
  {
    if s != [] {
      var t := ['0'] + s;
      assert t[..|t| - 1] == ['0'] + s[..|s| - 1];
      LeadingZero(s[..|s| - 1]);
    } else {
      assert ['0'] + s == ['0'] && ['0'][..0] == [];
    }
  }

  /** A size is refused exactly when it is given and is no decimal, or is zero. */
  lemma SizeIsRefused(modeVar: Option<string>, sizeVar: Option<string>)
    ensures Resolve(modeVar, sizeVar) == Err(SizeNotDecimal) <==> Given(sizeVar) && !AllDigits(Strip(sizeVar.value))
    ensures Resolve(modeVar, sizeVar) == Err(SizeNotPositive)
            <==> Given(sizeVar) && forall i :: 0 <= i < |Strip(sizeVar.value)| ==> Strip(sizeVar.value)[i] == '0'
  {
    if Given(sizeVar) && AllDigits(Strip(sizeVar.value)) { ZeroMeansZeros(Strip(sizeVar.value)); }
  }

  lemma SizeIsRead(sizeVar: Option<string>, n: Option<nat>)
    requires Sizes(sizeVar, n)
    ensures n.None? ==> Read(sizeVar).None?
    ensures n.Some? ==> Read(sizeVar).Some? && ParseSize(Read(sizeVar).value) == Ok(n.value)
  {
    if Given(sizeVar) { assert forall i :: 0 <= i < |Strip(sizeVar.value)| ==> Digit(Strip(sizeVar.value)[i]); }
  }

  lemma ModeIsRead(modeVar: Option<string>)
    ensures Given(modeVar) <==> Read(modeVar).Some?
    ensures Says(modeVar, "single") <==> Read(modeVar).Some? && Lower(Read(modeVar).value) == "single"
    ensures Says(modeVar, "distributed") <==> Read(modeVar).Some? && Lower(Read(modeVar).value) == "distributed"
  {
    if modeVar.Some? {
      SpelledIsLower(Strip(modeVar.value), "single");
      SpelledIsLower(Strip(modeVar.value), "distributed");
    }
  }

  /** What each mode answers for a size that is absent or good. */
  lemma ResolvesExactly(modeVar: Option<string>, sizeVar: Option<string>, n: Option<nat>)
    requires Sizes(sizeVar, n)
    ensures !Given(modeVar) ==>
              Resolve(modeVar, sizeVar) ==
              Ok(if n.None? || n.value == 1 then ClusterConfig(Unconfigured, n, None)
                 else ClusterConfig(Distributed, n, Some(n.value / 2 + 1)))
    ensures Says(modeVar, "single") ==>
              Resolve(modeVar, sizeVar) ==
              if n.Some? && n.value > 1 then Err(SingleConflict) else Ok(ClusterConfig(Single, Some(1), Some(1)))
    ensures Says(modeVar, "distributed") ==>
              Resolve(modeVar, sizeVar) ==
              if n.Some? && n.value > 1 then Ok(ClusterConfig(Distributed, n, Some(n.value / 2 + 1)))
              else Err(DistributedNeedsTwo)
    ensures Resolve(modeVar, sizeVar) == Err(UnknownMode)
            <==> Given(modeVar) && !Says(modeVar, "single") && !Says(modeVar, "distributed")
  {
    SizeIsRead(sizeVar, n);
    ModeIsRead(modeVar);
  }
}
