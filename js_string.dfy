/**
 The two pieces of JavaScript string behaviour the chat client relies on:
 `String.prototype.trim` (used to detect blank input) and the regular
 expression `\S+@\S+\.\S+` that both authentication forms run with `.test`.
 Both are defined by the same white-space class: the characters `\s` matches
 are exactly the ones `trim` strips (WhiteSpace and LineTerminator of
 ECMA-262).
 */
module JsString {

  /** The ECMA-262 WhiteSpace and LineTerminator code points. */
  predicate IsSpace(c: char)
  {
    c == ' ' || c == '\t' || c == '\n' || c == '\r' || c == '\U{000B}' || c == '\U{000C}'
    || c == '\U{00A0}' || c == '\U{1680}' || ('\U{2000}' <= c <= '\U{200A}')
    || c == '\U{2028}' || c == '\U{2029}' || c == '\U{202F}' || c == '\U{205F}'
    || c == '\U{3000}' || c == '\U{FEFF}'
  }

  /** Every character is white space (the empty string included). */
  predicate IsBlank(s: string)
  {
    forall i :: 0 <= i < |s| ==> IsSpace(s[i])
  }

  /** Leading white space removed: the result is a suffix of `s` that starts
      with a non-space character (or is empty), and everything cut is space. */
  function TrimStart(s: string): (r: string)
    ensures |r| <= |s| && r == s[|s| - |r|..]
    ensures forall i :: 0 <= i < |s| - |r| ==> IsSpace(s[i])
    ensures r == [] || !IsSpace(r[0])
  {
    if s != [] && IsSpace(s[0]) then TrimStart(s[1..]) else s
  }

  /** Trailing white space removed: the result is a prefix of `s` that ends
      with a non-space character (or is empty), and everything cut is space. */
  function TrimEnd(s: string): (r: string)
    ensures |r| <= |s| && r == s[..|r|]
    ensures forall i :: |r| <= i < |s| ==> IsSpace(s[i])
    ensures r == [] || !IsSpace(r[|r| - 1])
  {
    if s != [] && IsSpace(s[|s| - 1]) then TrimEnd(s[..|s| - 1]) else s
  }

  /** `s.trim()` */
  function Trim(s: string): string
  {
    TrimEnd(TrimStart(s))
  }

  /** `s.trim()` is the empty string exactly when `s` is blank, so the
      falsy test `!s.trim()` and `s.trim() === ""` both mean "blank". */
  lemma TrimEmptyIffBlank(s: string)
    ensures Trim(s) == "" <==> IsBlank(s)
  {
    var t := TrimStart(s);
    if Trim(s) == "" {
      assert |t| == 0;
    } else {
      var r := Trim(s);
      var k := |s| - |t|;
      assert r[0] == t[0] == s[k];
      assert !IsSpace(s[k]);
    }
  }

  /** The trimmed string is the original with a blank prefix and a blank
      suffix cut off. */
  lemma {:induction false} TrimShape(s: string)
    ensures exists i, j :: CutsBlank(s, i, j, Trim(s))
  {
    var t := TrimStart(s);
    var r := TrimEnd(t);
    var i := |s| - |t|;
    var j := i + |r|;
    CutPrefixBlank(s, i);
    CutSuffixBlank(s, t, i, |r|);
    assert r == s[i..j] by {
      assert t == s[i..] && r == t[..|r|];
    }
    assert Trim(s) == r;
    assert CutsBlank(s, i, j, Trim(s));
  }

  /** `r` is `s` with the blank prefix `s[..i]` and the blank suffix
      `s[j..]` cut off. */
  ghost predicate CutsBlank(s: string, i: int, j: int, r: string)
  {
    0 <= i <= j <= |s| && r == s[i..j] && IsBlank(s[..i]) && IsBlank(s[j..])
  }

  /** The trimmed string neither starts nor ends with white space. */
  lemma TrimEdges(s: string)
    ensures Trim(s) == [] || (!IsSpace(Trim(s)[0]) && !IsSpace(Trim(s)[|Trim(s)| - 1]))
  {
    var t := TrimStart(s);
    var r := TrimEnd(t);
    if r != [] {
      assert r[0] == t[0];
    }
  }

  /** What `TrimStart` cuts off is blank. */
  lemma CutPrefixBlank(s: string, i: int)
    requires i == |s| - |TrimStart(s)|
    ensures 0 <= i <= |s| && IsBlank(s[..i])
  {
    forall k | 0 <= k < i ensures IsSpace(s[..i][k]) {
      assert s[..i][k] == s[k];
    }
  }

  /** What `TrimEnd` cuts off the suffix `t` of `s` starting at `i` is blank. */
  lemma CutSuffixBlank(s: string, t: string, i: int, n: int)
    requires 0 <= i <= |s| && t == s[i..] && n == |TrimEnd(t)|
    ensures i + n <= |s| && IsBlank(s[i + n..])
  {
    var j := i + n;
    forall k | 0 <= k < |s| - j ensures IsSpace(s[j..][k]) {
      assert s[j..][k] == t[n + k];
    }
  }

  /** No character of `s` in the index range `[lo, hi)` is white space. */
  predicate NoSpaceIn(s: string, lo: int, hi: int)
    requires 0 <= lo <= hi <= |s|
  {
    forall k :: lo <= k < hi ==> !IsSpace(s[k])
  }

  /** `t` as a whole is a word of `\S+@\S+\.\S+`: a non-space run, `@`, a
      non-space run, `.`, a non-space run, every run non-empty. */
  ghost predicate WholeMatch(t: string)
  {
    exists p, q :: MatchAt(t, p, q)
  }

  /** `t` splits as a word of the language at the `@` at `p` and the `.` at `q`. */
  ghost predicate MatchAt(t: string, p: int, q: int)
  {
    0 < p && p + 1 < q && q + 1 < |t|
    && t[p] == '@' && t[q] == '.'
    && NoSpaceIn(t, 0, p) && NoSpaceIn(t, p + 1, q) && NoSpaceIn(t, q + 1, |t|)
  }

  /** The regular-expression semantics of the unanchored test: some
      substring of `s` is a word of the language. */
  ghost predicate RegexTest(s: string)
  {
    exists i, j :: 0 <= i <= j <= |s| && WholeMatch(s[i..j])
  }

  /** `/\S+@\S+\.\S+/.test(s)`, as a search for an `@` at index `a` and a
      `.` at index `b` with a non-space character right before the `@`,
      only non-space characters between them (at least one), and a
      non-space character right after the `.`. */
  predicate EmailPatternTest(s: string)
  {
    exists a, b | 0 <= a < b < |s| :: EmailAt(s, a, b)
  }

  /** The search succeeds with the `@` at `a` and the `.` at `b`. */
  predicate EmailAt(s: string, a: int, b: int)
  {
    1 <= a && a + 2 <= b && b + 1 < |s|
    && s[a] == '@' && s[b] == '.' && !IsSpace(s[a - 1]) && NoSpaceIn(s, a + 1, b) && !IsSpace(s[b + 1])
  }

  /** An index witness gives a substring that the regular expression matches. */
  lemma EmailPatternTestSound(s: string)
    requires EmailPatternTest(s)
    ensures RegexTest(s)
  {
    var a, b :| 0 <= a < b < |s| && EmailAt(s, a, b);
    var t := s[a - 1..b + 2];
    var p, q := 1, b - a + 1;
    assert NoSpaceIn(t, 0, p) by {
      assert t[0] == s[a - 1];
    }
    assert NoSpaceIn(t, p + 1, q) by {
      forall k | p + 1 <= k < q ensures !IsSpace(t[k]) {
        assert t[k] == s[a - 1 + k];
      }
    }
    assert NoSpaceIn(t, q + 1, |t|) by {
      assert |t| == q + 2 && t[q + 1] == s[b + 1];
    }
    assert t[p] == s[a] && t[q] == s[b];
    WholeMatchWitness(t, p, q);
  }

  /** Indices meeting the conditions are a witness for a whole match. */
  lemma WholeMatchWitness(t: string, p: int, q: int)
    requires 0 < p && p + 1 < q && q + 1 < |t|
    requires t[p] == '@' && t[q] == '.'
    requires NoSpaceIn(t, 0, p) && NoSpaceIn(t, p + 1, q) && NoSpaceIn(t, q + 1, |t|)
    ensures WholeMatch(t)
  {
    assert MatchAt(t, p, q);
  }

  /** A non-space range of a slice is a non-space range of the whole. */
  lemma NoSpaceInSlice(s: string, i: int, j: int, lo: int, hi: int)
    requires 0 <= i <= j <= |s| && 0 <= lo <= hi <= j - i
    requires NoSpaceIn(s[i..j], lo, hi)
    ensures NoSpaceIn(s, i + lo, i + hi)
  {
    forall k | i + lo <= k < i + hi ensures !IsSpace(s[k]) {
      assert s[k] == s[i..j][k - i];
    }
  }

  /** A matched substring gives an index witness. */
  lemma EmailPatternTestComplete(s: string)
    requires RegexTest(s)
    ensures EmailPatternTest(s)
  {
    var i, j :| 0 <= i <= j <= |s| && WholeMatch(s[i..j]);
    var t := s[i..j];
    var p, q :| MatchAt(t, p, q);
    NoSpaceInSlice(s, i, j, 0, p);
    NoSpaceInSlice(s, i, j, p + 1, q);
    NoSpaceInSlice(s, i, j, q + 1, |t|);
    var a, b := i + p, i + q;
    assert s[a] == t[p] && s[b] == t[q];
    assert !IsSpace(s[a - 1]) by {
      assert i <= a - 1 < i + p;
    }
    assert !IsSpace(s[b + 1]) by {
      assert i + q + 1 <= b + 1 < i + |t|;
    }
    EmailWitness(s, a, b);
  }

  /** Indices meeting the conditions are a witness for the search. */
  lemma EmailWitness(s: string, a: int, b: int)
    requires 1 <= a && a + 2 <= b && b + 1 < |s|
    requires s[a] == '@' && s[b] == '.' && !IsSpace(s[a - 1])
    requires NoSpaceIn(s, a + 1, b) && !IsSpace(s[b + 1])
    ensures EmailPatternTest(s)
  {
    assert EmailAt(s, a, b);
  }

  /** The index search decides exactly the regular-expression test. */
  lemma EmailPatternTestIsRegex(s: string)
    ensures EmailPatternTest(s) <==> RegexTest(s)
  {
    if EmailPatternTest(s) {
      EmailPatternTestSound(s);
    }
    if RegexTest(s) {
      EmailPatternTestComplete(s);
    }
  }

  /** A string the pattern accepts is never blank, so in the forms the
      "required" check and the "format" check never report the same input. */
  lemma EmailPatternNotBlank(s: string)
    ensures EmailPatternTest(s) ==> !IsBlank(s) && '@' in s && '.' in s
  {
    if EmailPatternTest(s) {
      var a, b :| 0 <= a < b < |s| && EmailAt(s, a, b);
      assert !IsSpace(s[a - 1]);
    }
  }
}
