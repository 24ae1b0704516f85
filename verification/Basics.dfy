/** Vocabulary shared by every module: option and result types, identifiers and
    their normalisation, and the code-point order Python uses to compare strings. */
module Basics {

  datatype Option<+T> = None | Some(value: T)

  datatype Result<+T, +E> = Ok(value: T) | Err(error: E)

  /** Task and node identifiers. Registries normalise them with `Strip` on entry. */
  type Id = string

  predicate Blank(c: char) {
    c == ' ' || c == '\t' || c == '\n' || c == '\r' || c == '\U{000b}' || c == '\U{000c}'
  }

  const BLANKS := {' ', '\t', '\n', '\r', '\U{000b}', '\U{000c}'}

  /** `str.strip()` on the ASCII white-space characters. */
  function Strip(s: string): (r: string)
    ensures |r| <= |s|
    ensures r != [] ==> !Blank(r[0]) && !Blank(r[|r| - 1])
    decreases |s|
  {
    if s == [] then []
    else if Blank(s[0]) then Strip(s[1..])
    else if Blank(s[|s| - 1]) then Strip(s[..|s| - 1])
    else s
  }

  ghost predicate AllBlank(s: string) { forall i :: 0 <= i < |s| ==> s[i] in BLANKS }

  lemma BlanksAtTheFront(s: string, before: string, core: string, after: string)
    requires s != [] && s[0] in BLANKS && s[1..] == before + core + after && AllBlank(before)
    ensures s == ([s[0]] + before) + core + after && AllBlank([s[0]] + before)
  {
    assert s == [s[0]] + s[1..];
  }

  lemma BlanksAtTheBack(s: string, before: string, core: string, after: string)
    requires s != [] && s[|s| - 1] in BLANKS && s[..|s| - 1] == before + core + after && AllBlank(after)
    ensures s == before + core + (after + [s[|s| - 1]]) && AllBlank(after + [s[|s| - 1]])
  {
    assert s == s[..|s| - 1] + [s[|s| - 1]];
  }

  /** Stripping takes white space off both ends and nothing else. */
  lemma {:induction false} StripTakesEnds(s: string) returns (before: string, after: string)
    ensures s == before + Strip(s) + after && AllBlank(before) && AllBlank(after)
    ensures Strip(s) != [] ==> Strip(s)[0] !in BLANKS && Strip(s)[|Strip(s)| - 1] !in BLANKS
    decreases |s|
  {
    before, after := [], [];
    if s != [] && Blank(s[0]) {
      before, after := StripTakesEnds(s[1..]);
      BlanksAtTheFront(s, before, Strip(s), after);
      before := [s[0]] + before;
    } else if s != [] && Blank(s[|s| - 1]) {
      before, after := StripTakesEnds(s[..|s| - 1]);
      BlanksAtTheBack(s, before, Strip(s), after);
      after := after + [s[|s| - 1]];
    }
  }

  lemma StripTwice(s: string)
    ensures Strip(Strip(s)) == Strip(s)
  {
  }

  /** Lexicographic order by code point: Python's `<=` on strings. */
  predicate LexLe(a: string, b: string) {
    a == [] || (b != [] && (a[0] < b[0] || (a[0] == b[0] && LexLe(a[1..], b[1..]))))
  }

  lemma SharedHead(a: string, b: string, n: nat)
    requires n < |a| && n < |b| && a[0] == b[0]
    ensures a[..n + 1] == b[..n + 1] <==> a[1..][..n] == b[1..][..n]
  {
    var x, y := a[1..][..n], b[1..][..n];
    assert a[..n + 1] == [a[0]] + x && b[..n + 1] == [b[0]] + y;
    assert ([a[0]] + x)[1..] == x && ([b[0]] + y)[1..] == y;
  }

  /** a and b agree on their first n characters, and there a ends or has the smaller character. */
  ghost predicate DiffersAt(a: string, b: string, n: nat) {
    n <= |a| && n <= |b| && a[..n] == b[..n] && (n == |a| || (n < |b| && a[n] < b[n]))
  }

  lemma DiffersLater(a: string, b: string, n: nat)
    requires a != [] && b != [] && a[0] == b[0]
    ensures DiffersAt(a, b, n + 1) <==> DiffersAt(a[1..], b[1..], n)
  {
    if n < |a| && n < |b| { SharedHead(a, b, n); }
  }

  lemma DiffersAtOnce(a: string, b: string)
    requires a != [] && b != [] && a[0] != b[0]
    ensures (exists n: nat :: DiffersAt(a, b, n)) <==> a[0] < b[0]
  {
    assert a[..0] == b[..0];
    if a[0] < b[0] { assert DiffersAt(a, b, 0); }
    forall n: nat | n > 0 ensures !DiffersAt(a, b, n) {
      if n <= |a| && n <= |b| { assert a[..n][0] == a[0] && b[..n][0] == b[0]; }
    }
  }

  /** The first difference decides, and a prefix comes first. */
  lemma {:induction false} LexLeIsFirstDifference(a: string, b: string)
    ensures LexLe(a, b) <==> exists n: nat :: DiffersAt(a, b, n)
  {
    if a == [] {
      assert DiffersAt(a, b, 0);
    } else if b != [] && a[0] == b[0] {
      LexLeIsFirstDifference(a[1..], b[1..]);
      if n: nat :| DiffersAt(a[1..], b[1..], n) {
        DiffersLater(a, b, n);
        assert DiffersAt(a, b, n + 1);
      }
      if n: nat :| DiffersAt(a, b, n) { DiffersLater(a, b, n - 1); }
    } else if b != [] {
      DiffersAtOnce(a, b);
    }
  }

  predicate LexLt(a: string, b: string) {
    a != b && LexLe(a, b)
  }

  lemma {:induction false} LexTotal(a: string, b: string)
    ensures LexLe(a, b) || LexLe(b, a)
  {
    if a != [] && b != [] && a[0] == b[0] { LexTotal(a[1..], b[1..]); }
  }

  lemma {:induction false} LexAntisymmetric(a: string, b: string)
    requires LexLe(a, b) && LexLe(b, a)
    ensures a == b
  {
    if a != [] && b != [] {
      LexAntisymmetric(a[1..], b[1..]);
      assert a == [a[0]] + a[1..] && b == [b[0]] + b[1..];
    }
  }

  lemma {:induction false} LexTransitive(a: string, b: string, c: string)
    requires LexLe(a, b) && LexLe(b, c)
    ensures LexLe(a, c)
  {
    if a != [] && a[0] == b[0] && b[0] == c[0] { LexTransitive(a[1..], b[1..], c[1..]); }
  }

  ghost predicate IsGreatest(m: string, ids: set<string>) {
    m in ids && forall x :: x in ids ==> LexLe(x, m)
  }

  lemma GreatestIsUnique(m: string, n: string, ids: set<string>)
    requires IsGreatest(m, ids) && IsGreatest(n, ids)
    ensures m == n
  {
    LexAntisymmetric(m, n);
  }

  /** Python's `max` of a list of identifiers. */
  function Greatest(ids: seq<Id>): (m: Id)
    requires ids != []
    ensures IsGreatest(m, set n | n in ids)
  {
    LexTotal(ids[0], ids[0]);
    if |ids| == 1 then ids[0]
    else
      var n := Greatest(ids[1..]);
      assert forall x :: x in ids ==> x == ids[0] || x in ids[1..];
      LexTotal(ids[0], n);
      if LexLe(n, ids[0]) then
        assert forall x :: x in ids[1..] ==> LexLe(x, ids[0]) by {
          forall x | x in ids[1..] ensures LexLe(x, ids[0]) { LexTransitive(x, n, ids[0]); }
        }
        ids[0]
      else n
  }

  lemma {:induction false} SubsetIsSmaller<T>(a: set<T>, b: set<T>)
    requires a <= b
    ensures |a| <= |b|
  {
    if a != {} {
      var x :| x in a;
      SubsetIsSmaller(a - {x}, b - {x});
    }
  }
}
