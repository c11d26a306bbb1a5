/** The text operations the pipeline builds its prompts and programs from. */
module Strings {

  /** True when Python's `re.sub` would copy `s` verbatim as a replacement:
      `s` holds no backslash, so no escape is processed. */
  predicate IsPlain(s: string) {
    '\\' !in s
  }

  /** Text that may be used as a replacement string of a substitution. */
  type Plain = s: string | IsPlain(s)

  /** `sep.join(parts)`. */
  function Join(parts: seq<string>, sep: string): (r: string)
    ensures |parts| == 0 ==> r == ""
    ensures |parts| == 1 ==> r == parts[0]
    ensures (forall i | 0 <= i < |parts| :: IsPlain(parts[i])) && IsPlain(sep) ==> IsPlain(r)
  {
    if |parts| == 0 then ""
    else if |parts| == 1 then parts[0]
    else parts[0] + sep + Join(parts[1..], sep)
  }

  /** `pat` occurs somewhere in `s`. */
  predicate Occurs(s: string, pat: string) {
    exists i | 0 <= i <= |s| - |pat| :: OccursAt(s, pat, i)
  }

  /** `pat` occurs in `s` at position `i`. */
  predicate OccursAt(s: string, pat: string, i: int)
    requires 0 <= i <= |s| - |pat|
  {
    s[i..i + |pat|] == pat
  }

  /** `re.sub(P, repl, s)` for a pattern P that matches the literal text `pat`
      (such as `\{input\}` for `{input}`): every occurrence of `pat`, scanning
      left to right without overlap, is replaced by `repl`. */
  function Sub(s: string, pat: string, repl: Plain): (r: string)
    requires |pat| > 0
    ensures IsPlain(s) ==> IsPlain(r)
    decreases |s|
  {
    if |s| < |pat| then s
    else if s[..|pat|] == pat then repl + Sub(s[|pat|..], pat, repl)
    else [s[0]] + Sub(s[1..], pat, repl)
  }

  /** A text without the placeholder comes out of a substitution unchanged. */
  lemma {:induction false} SubAbsent(s: string, pat: string, repl: Plain)
    requires |pat| > 0
    requires !Occurs(s, pat)
    ensures Sub(s, pat, repl) == s
    decreases |s|
  {
    if |s| >= |pat| {
      assert !OccursAt(s, pat, 0);
      assert s[0..|pat|] == s[..|pat|];
      forall i | 0 <= i <= |s[1..]| - |pat|
        ensures !OccursAt(s[1..], pat, i)
      {
        assert s[1..][i..i + |pat|] == s[i + 1..i + 1 + |pat|];
        assert !OccursAt(s, pat, i + 1);
      }
      SubAbsent(s[1..], pat, repl);
    }
  }

  /** The text before the first occurrence of the placeholder is kept, that
      occurrence is replaced, and the substitution goes on after it. */
  lemma {:induction false} SubFirst(a: string, pat: string, b: string, repl: Plain)
    requires |pat| > 0
    requires forall i | 0 <= i < |a| :: !OccursAt(a + pat, pat, i)
    ensures Sub(a + pat + b, pat, repl) == a + repl + Sub(b, pat, repl)
    decreases |a|
  {
    if |a| == 0 {
      var s := a + pat + b;
      assert s[..|pat|] == pat && s[|pat|..] == b;
    } else {
      SubFirstStep(a, pat, b, repl);
      NoEarlierTail(a, pat);
      SubFirst(a[1..], pat, b, repl);
      ConsTail(a, repl, Sub(b, pat, repl));
    }
  }

  /** Putting the first character back in front of the rest. */
  lemma ConsTail(a: string, y: string, x: string)
    requires |a| > 0
    ensures [a[0]] + (a[1..] + y + x) == a + y + x
  {
    assert a == [a[0]] + a[1..];
  }

  /** Before the first occurrence, the substitution copies one character. */
  lemma SubFirstStep(a: string, pat: string, b: string, repl: Plain)
    requires |pat| > 0 && |a| > 0
    requires !OccursAt(a + pat, pat, 0)
    ensures Sub(a + pat + b, pat, repl) == [a[0]] + Sub(a[1..] + pat + b, pat, repl)
  {
    var s := a + pat + b;
    assert s[..|pat|] == (a + pat)[0..|pat|];
    assert s[1..] == a[1..] + pat + b;
  }

  /** No occurrence before `pat` in `a + pat` means none in `a[1..] + pat`. */
  lemma NoEarlierTail(a: string, pat: string)
    requires |a| > 0
    requires forall i | 0 <= i < |a| :: !OccursAt(a + pat, pat, i)
    ensures forall i | 0 <= i < |a| - 1 :: !OccursAt(a[1..] + pat, pat, i)
  {
    forall i | 0 <= i < |a| - 1 ensures !OccursAt(a[1..] + pat, pat, i) {
      assert (a[1..] + pat)[i..i + |pat|] == (a + pat)[i + 1..i + 1 + |pat|];
      assert !OccursAt(a + pat, pat, i + 1);
    }
  }

  /** A text that is exactly the placeholder becomes exactly the replacement. */
  lemma SubWhole(pat: string, repl: Plain)
    requires |pat| > 0
    ensures Sub(pat, pat, repl) == repl
  {
    assert pat[..|pat|] == pat;
    assert pat[|pat|..] == [];
  }

  /** `s.split("(")[0]`: the predicate name of an atom, the text before its
      first parenthesis, or all of `s` when there is none. */
  function AtomName(s: string): (r: string)
    ensures r <= s
    ensures '(' !in r
    ensures |r| < |s| ==> s[|r|] == '('
  {
    if |s| == 0 || s[0] == '(' then "" else [s[0]] + AtomName(s[1..])
  }

  /** Appending to a log that already holds a prefix. */
  lemma AppendAssoc<T>(a: seq<T>, b: seq<T>, c: seq<T>)
    ensures (a + b) + c == a + (b + c)
  {
  }

  /** `[x for v in xss for x in v]`. */
  function Flatten<T>(xss: seq<seq<T>>): (r: seq<T>)
    ensures forall x | x in r :: exists i | 0 <= i < |xss| :: x in xss[i]
    ensures forall i, x | 0 <= i < |xss| && x in xss[i] :: x in r
  {
    if |xss| == 0 then [] else Flatten(xss[..|xss| - 1]) + xss[|xss| - 1]
  }

  lemma FlattenSnoc<T>(xss: seq<seq<T>>, xs: seq<T>)
    ensures Flatten(xss + [xs]) == Flatten(xss) + xs
  {
    assert (xss + [xs])[..|xss|] == xss;
  }
}
