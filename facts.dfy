/** Fact extraction: `re.findall` with the patterns
      \b[a-zA-Z][\w_]*\([^)]*\)      (current revision)
      \b[a-zA-Z][\w_]*\([^)]*\)\.    (older revision, "dotted")
    written out as a left-to-right scanner over ASCII text. */
module Facts {
  import opened Wrappers
  import opened Strings

  predicate IsLetter(c: char) {
    'a' <= c <= 'z' || 'A' <= c <= 'Z'
  }

  /** `\w` restricted to ASCII. */
  predicate IsWordChar(c: char) {
    IsLetter(c) || '0' <= c <= '9' || c == '_'
  }

  /** End of the run of word characters that starts at `k`. */
  function WordEnd(s: string, k: nat): (e: nat)
    requires k <= |s|
    ensures k <= e <= |s|
    ensures forall j | k <= j < e :: IsWordChar(s[j])
    ensures e < |s| ==> !IsWordChar(s[e])
    decreases |s| - k
  {
    if k < |s| && IsWordChar(s[k]) then WordEnd(s, k + 1) else k
  }

  /** Position of the first `)` at or after `k`. */
  function CloseParen(s: string, k: nat): (r: Option<nat>)
    requires k <= |s|
    ensures r.Some? ==> k <= r.value < |s| && s[r.value] == ')'
    ensures r.Some? ==> forall j | k <= j < r.value :: s[j] != ')'
    ensures r.None? ==> forall j | k <= j < |s| :: s[j] != ')'
    decreases |s| - k
  {
    if k == |s| then None
    else if s[k] == ')' then Some(k)
    else CloseParen(s, k + 1)
  }

  /** End (exclusive) of `[a-zA-Z][\w_]*\([^)]*\)` matched at the start of
      `s`.  The greedy `[\w_]*` must stop right before `(`, and `[^)]*` runs
      to the first `)`, so backtracking never finds another match. */
  function AtomEnd(s: string): (r: Option<nat>)
    requires |s| > 0
    ensures r.Some? ==> 0 < r.value <= |s|
  {
    var k := WordEnd(s, 1);
    if k < |s| && s[k] == '(' then
      match CloseParen(s, k + 1)
      case None => None
      case Some(c) => Some(c + 1)
    else None
  }

  /** End (exclusive) of the match at the start of `s`, if one starts
      there.  `afterWord` says whether the character before `s` is a word
      character: `\b` before a letter holds at the start of the text or
      after a non-word character. */
  function MatchHere(s: string, afterWord: bool, dotted: bool): (r: Option<nat>)
    requires |s| > 0
    ensures r.Some? ==> 0 < r.value <= |s|
  {
    if afterWord || !IsLetter(s[0]) then None
    else match AtomEnd(s)
      case None => None
      case Some(e) =>
        if !dotted then Some(e)
        else if e < |s| && s[e] == '.' then Some(e + 1)
        else None
  }

  /** The non-overlapping matches found scanning `s` left to right; a scan
      resumes right after each match, or one character further on. */
  function Scan(s: string, afterWord: bool, dotted: bool): seq<string>
    decreases |s|
  {
    if |s| == 0 then []
    else match MatchHere(s, afterWord, dotted)
      case Some(e) => [s[..e]] + Scan(s[e..], IsWordChar(s[e - 1]), dotted)
      case None => Scan(s[1..], IsWordChar(s[0]), dotted)
  }

  /** `re.findall(pattern, s)`. */
  function FindAll(s: string, dotted: bool): seq<string> {
    Scan(s, false, dotted)
  }

  /** `[f"{f}." for f in fs]`. */
  function AppendDot(fs: seq<string>): (r: seq<string>)
    ensures |r| == |fs|
    ensures forall i | 0 <= i < |fs| :: r[i] == fs[i] + "."
  {
    seq(|fs|, i requires 0 <= i < |fs| => fs[i] + ".")
  }

  /** The facts the current revision takes from one model response
      (llmasp.py, lines 328-329). */
  function Extract(text: string): seq<string> {
    AppendDot(FindAll(text, false))
  }

  /** `m` is a letter, word characters, `(` at `k`, characters other than
      `)`, and a final `)`. */
  predicate ShapedAt(m: string, k: int) {
    && 3 <= |m| && 1 <= k < |m| - 1
    && IsLetter(m[0]) && m[k] == '(' && m[|m| - 1] == ')'
    && (forall j | 1 <= j < k :: IsWordChar(m[j]))
    && (forall j | k < j < |m| - 1 :: m[j] != ')')
  }

  /** `m` is an atom in the shape the undotted pattern matches. */
  predicate FactShape(m: string) {
    exists k | 1 <= k < |m| - 1 :: ShapedAt(m, k)
  }

  /** `m` is what the pattern matches: an atom, followed by `.` when dotted. */
  predicate Matched(m: string, dotted: bool) {
    if dotted then |m| > 0 && m[|m| - 1] == '.' && FactShape(m[..|m| - 1])
    else FactShape(m)
  }

  /** A dotted match ends in `).` after at least a letter and `(`. */
  lemma DottedEnd(f: string)
    requires Matched(f, true)
    ensures |f| >= 4 && f[|f| - 2..] == ")."
  {
    var m := f[..|f| - 1];
    var k :| 1 <= k < |m| - 1 && ShapedAt(m, k);
    assert f[|f| - 2] == m[|m| - 1];
  }

  /** Every match has the pattern's shape. */
  lemma MatchShape(s: string, afterWord: bool, dotted: bool)
    requires |s| > 0 && MatchHere(s, afterWord, dotted).Some?
    ensures Matched(s[..MatchHere(s, afterWord, dotted).value], dotted)
  {
    var k := WordEnd(s, 1);
    var c := CloseParen(s, k + 1).value;
    var m := s[..c + 1];
    assert ShapedAt(m, k) by {
      forall j | 1 <= j < k ensures IsWordChar(m[j]) {
        assert m[j] == s[j];
      }
      forall j | k < j < |m| - 1 ensures m[j] != ')' {
        assert m[j] == s[j];
      }
    }
    if dotted {
      var e := MatchHere(s, afterWord, dotted).value;
      assert s[..e][..|s[..e]| - 1] == m;
    }
  }

  /** Every scanned match has the pattern's shape. */
  lemma {:induction false} ScanShape(s: string, afterWord: bool, dotted: bool)
    ensures forall f | f in Scan(s, afterWord, dotted) :: Matched(f, dotted)
    decreases |s|
  {
    if |s| > 0 {
      match MatchHere(s, afterWord, dotted)
      case Some(e) =>
        MatchShape(s, afterWord, dotted);
        ScanShape(s[e..], IsWordChar(s[e - 1]), dotted);
      case None =>
        ScanShape(s[1..], IsWordChar(s[0]), dotted);
    }
  }

  /** Each fact of the current revision is an atom of the pattern's shape
      with `.` appended. */
  lemma ExtractShape(text: string)
    ensures forall f | f in Extract(text) :: Matched(f, true)
  {
    var ms := FindAll(text, false);
    ScanShape(text, false, false);
    forall f | f in Extract(text) ensures Matched(f, true) {
      var i :| 0 <= i < |ms| && f == ms[i] + ".";
      assert ms[i] in ms;
      assert f[..|f| - 1] == ms[i];
    }
  }

  /** An atom at the start of a text, followed by `.`, is matched whole. */
  lemma MatchAtom(m: string, t: string, dotted: bool)
    requires FactShape(m)
    ensures MatchHere(m + "." + t, false, dotted) == Some(if dotted then |m| + 1 else |m|)
  {
    var u := m + "." + t;
    var k :| 1 <= k < |m| - 1 && ShapedAt(m, k);
    assert forall j | 0 <= j < |m| :: u[j] == m[j];
    assert WordEnd(u, 1) == k;
    assert CloseParen(u, k + 1) == Some(|m| - 1);
    assert u[|m|] == '.';
  }

  /** Scanning a text that starts with an atom and `.` finds that atom first
      and resumes on the text after the `.`. */
  lemma ScanAtom(m: string, t: string, dotted: bool)
    requires FactShape(m)
    ensures Scan(m + "." + t, false, dotted) == [if dotted then m + "." else m] + Scan(t, false, dotted)
  {
    var u := m + "." + t;
    MatchAtom(m, t, dotted);
    var k :| 1 <= k < |m| - 1 && ShapedAt(m, k);
    assert u[|m| - 1] == ')' && u[|m|] == '.';
    if dotted {
      assert u[..|m| + 1] == m + "." && u[|m| + 1..] == t;
    } else {
      assert u[..|m|] == m && u[|m|..] == "." + t;
      assert ("." + t)[1..] == t;
    }
  }

  /** Text in which no `(` follows a word character, and which ends in a
      non-word character: no run of word characters in it is directly
      followed by `(`, so no atom starts in it. */
  predicate Prose(p: string) {
    && (forall j | 0 < j < |p| && p[j] == '(' :: !IsWordChar(p[j - 1]))
    && (|p| > 0 ==> !IsWordChar(p[|p| - 1]))
  }

  /** Prose holds no match, and scanning resumes after it as at the start
      of a text. */
  lemma {:induction false} ScanSkipsProse(p: string, u: string, afterWord: bool, dotted: bool)
    requires Prose(p)
    requires |p| == 0 ==> !afterWord
    ensures Scan(p + u, afterWord, dotted) == Scan(u, false, dotted)
    decreases |p|
  {
    if |p| > 0 {
      var s := p + u;
      if !afterWord && IsLetter(s[0]) {
        var k := WordEnd(s, 1);
        assert s[0] == p[0] && s[|p| - 1] == p[|p| - 1];
        assert k < |p| && s[k] == p[k];
        assert s[k - 1] == p[k - 1] && IsWordChar(p[k - 1]);
      }
      assert MatchHere(s, afterWord, dotted).None?;
      assert Scan(s, afterWord, dotted) == Scan(s[1..], IsWordChar(p[0]), dotted);
      assert s[1..] == p[1..] + u;
      assert Prose(p[1..]) by {
        forall j | 0 < j < |p| - 1 && p[1..][j] == '(' ensures !IsWordChar(p[1..][j - 1]) {
          assert p[1..][j] == p[j + 1] && p[1..][j - 1] == p[j];
        }
      }
      ScanSkipsProse(p[1..], u, IsWordChar(p[0]), dotted);
    } else {
      assert p + u == u;
    }
  }

  /** `[m] + fs` with dots appended is `m.` followed by `fs` with dots. */
  lemma AppendDotCons(m: string, fs: seq<string>)
    ensures AppendDot([m] + fs) == [m + "."] + AppendDot(fs)
  {
    var a, b := AppendDot([m] + fs), [m + "."] + AppendDot(fs);
    forall i | 0 <= i < |a| ensures a[i] == b[i] {
      if i > 0 {
        assert ([m] + fs)[i] == fs[i - 1];
      }
    }
  }

  /** An atom after a preamble such as `Sure: ` is the first match. */
  lemma FindAfterProse(p: string, m: string, t: string)
    requires Prose(p)
    requires FactShape(m)
    ensures FindAll(p + m + "." + t, false) == [m] + FindAll(t, false)
  {
    assert p + m + "." + t == p + (m + "." + t);
    ScanSkipsProse(p, m + "." + t, false, false);
    ScanAtom(m, t, false);
  }

  /** A fact after a preamble such as `Sure: ` is extracted, and so are the
      facts after it. */
  lemma ExtractAfterProse(p: string, m: string, t: string)
    requires Prose(p)
    requires FactShape(m)
    ensures Extract(p + m + "." + t) == [m + "."] + Extract(t)
  {
    FindAfterProse(p, m, t);
    AppendDotCons(m, FindAll(t, false));
  }

  /** A newline between two facts is skipped. */
  lemma ScanNewline(rest: string, dotted: bool)
    ensures Scan("\n" + rest, false, dotted) == Scan(rest, false, dotted)
  {
    assert ("\n" + rest)[1..] == rest;
  }

  lemma JoinDotted(ms: seq<string>)
    requires |ms| > 1
    ensures Join(AppendDot(ms), "\n") == ms[0] + "." + ("\n" + Join(AppendDot(ms[1..]), "\n"))
  {
    assert AppendDot(ms)[1..] == AppendDot(ms[1..]);
  }

  /** Scanning the joined facts: the first fact, then the scan of the rest. */
  lemma ScanJoinedCons(ms: seq<string>, dotted: bool)
    requires |ms| > 1 && FactShape(ms[0])
    requires FindAll(Join(AppendDot(ms[1..]), "\n"), dotted) == if dotted then AppendDot(ms[1..]) else ms[1..]
    ensures FindAll(Join(AppendDot(ms), "\n"), dotted) == if dotted then AppendDot(ms) else ms
  {
    var m := ms[0];
    var rest := Join(AppendDot(ms[1..]), "\n");
    JoinDotted(ms);
    ScanAtom(m, "\n" + rest, dotted);
    ScanNewline(rest, dotted);
    if dotted {
      assert AppendDot(ms) == [m + "."] + AppendDot(ms[1..]);
    } else {
      assert ms == [m] + ms[1..];
    }
  }

  /** Scanning facts joined by newlines finds exactly those facts again.
      This is why extraction is idempotent. */
  lemma {:induction false} ScanJoined(ms: seq<string>, dotted: bool)
    requires forall i | 0 <= i < |ms| :: FactShape(ms[i])
    ensures FindAll(Join(AppendDot(ms), "\n"), dotted) == if dotted then AppendDot(ms) else ms
  {
    if |ms| == 1 {
      ScanAtom(ms[0], "", dotted);
      assert Join(AppendDot(ms), "\n") == ms[0] + "." + "";
      assert Scan("", false, dotted) == [];
    } else if |ms| > 1 {
      ScanJoined(ms[1..], dotted);
      ScanJoinedCons(ms, dotted);
    }
  }

  /** Extracting facts from the newline-joined facts of a response gives the
      same facts (current revision). */
  lemma ExtractIdempotent(text: string)
    ensures Extract(Join(Extract(text), "\n")) == Extract(text)
  {
    var ms := FindAll(text, false);
    ScanShape(text, false, false);
    forall i | 0 <= i < |ms| ensures FactShape(ms[i]) {
      assert ms[i] in ms;
    }
    ScanJoined(ms, false);
  }

  /** The same for the older revision, whose matches keep their `.`. */
  lemma FindAllDottedIdempotent(text: string)
    ensures FindAll(Join(FindAll(text, true), "\n"), true) == FindAll(text, true)
  {
    var fs := FindAll(text, true);
    ScanShape(text, false, true);
    var ms := seq(|fs|, i requires 0 <= i < |fs| => if |fs[i]| > 0 then fs[i][..|fs[i]| - 1] else "");
    forall i | 0 <= i < |fs| ensures FactShape(ms[i]) && fs[i] == ms[i] + "." {
      assert fs[i] in fs;
      assert fs[i] == fs[i][..|fs[i]| - 1] + [fs[i][|fs[i]| - 1]];
    }
    assert AppendDot(ms) == fs;
    ScanJoined(ms, true);
  }

  /** Facts in the shape extraction produces, one per line, are extracted
      back unchanged. */
  lemma ExtractJoined(fs: seq<string>)
    requires forall f | f in fs :: Matched(f, true)
    ensures Extract(Join(fs, "\n")) == fs
  {
    var ms := seq(|fs|, i requires 0 <= i < |fs| => if |fs[i]| > 0 then fs[i][..|fs[i]| - 1] else "");
    forall i | 0 <= i < |fs| ensures FactShape(ms[i]) && fs[i] == ms[i] + "." {
      assert fs[i] in fs;
      assert fs[i] == fs[i][..|fs[i]| - 1] + [fs[i][|fs[i]| - 1]];
    }
    assert AppendDot(ms) == fs;
    ScanJoined(ms, false);
  }

  /** A response that is exactly `item(apples).` yields exactly that fact. */
  lemma SingleFactResponse()
    ensures Extract("item(apples).") == ["item(apples)."]
  {
    var m := "item(apples)";
    assert ShapedAt(m, 4);
    ScanJoined([m], false);
    assert AppendDot([m])[0] == "item(apples).";
  }

  /** A response that introduces its fact with prose yields just the fact. */
  lemma PreambleResponse()
    ensures Extract("Sure: item(apples).") == ["item(apples)."]
  {
    var p, m := "Sure: ", "item(apples)";
    assert ShapedAt(m, 4);
    assert !IsWordChar(p[|p| - 1]);
    ExtractAfterProse(p, m, "");
    assert Extract("") == [];
    PreambleText();
  }

  /** A parenthetical remark before the fact is skipped too: its `(`
      follows a space, not a word. */
  lemma ParentheticalResponse()
    ensures Extract("I think (maybe) item(x).") == ["item(x)."]
  {
    var p, m := "I think (maybe) ", "item(x)";
    assert ShapedAt(m, 4);
    assert forall j | 0 < j < |p| && p[j] == '(' :: j == 8;
    assert !IsWordChar(p[7]) && !IsWordChar(p[|p| - 1]);
    ExtractAfterProse(p, m, "");
    assert Extract("") == [];
    ParentheticalText();
  }

  /** The literals of `ParentheticalResponse`, split at the atom. */
  lemma ParentheticalText()
    ensures "I think (maybe) " + "item(x)" + "." + "" == "I think (maybe) item(x)."
    ensures "item(x)" + "." == "item(x)."
  {
  }

  /** The literals of `PreambleResponse`, split at the atom. */
  lemma PreambleText()
    ensures "Sure: " + "item(apples)" + "." + "" == "Sure: item(apples)."
    ensures "item(apples)" + "." == "item(apples)."
  {
  }
}
