/**
 The JavaScript string operations the dashboard relies on: `indexOf`,
 `replace` with a string (not a regular expression) as the pattern, and
 `trim`. JavaScript strings are modelled as `seq<char>`.
 */
module JsString {
  import opened Wrappers

  /** `pat` is a prefix of `s`. */
  predicate StartsWith(s: string, pat: string)
  {
    |pat| <= |s| && s[..|pat|] == pat
  }

  /** `pat` occurs in `s` at position `j`. */
  predicate OccursAt(s: string, pat: string, j: int)
  {
    0 <= j && j + |pat| <= |s| && s[j..j + |pat|] == pat
  }

  /** Occurrences in `s` past its first character are those of `s[1..]`,
      shifted by one. */
  lemma OccursAtTail(s: string, pat: string)
    requires s != []
    ensures forall j :: 1 <= j ==> (OccursAt(s, pat, j) <==> OccursAt(s[1..], pat, j - 1))
  {
    forall j | 1 <= j
      ensures OccursAt(s, pat, j) <==> OccursAt(s[1..], pat, j - 1)
    {
      if j + |pat| <= |s| {
        assert s[1..][j - 1..j - 1 + |pat|] == s[j..j + |pat|];
      }
    }
  }

  /** The first position from `k` on at which `pat` occurs in `s`. */
  function IndexOfFrom(s: string, pat: string, k: nat): (r: Option<nat>)
    ensures r.Some? ==> k <= r.value && OccursAt(s, pat, r.value)
    ensures r.Some? ==> forall j :: k <= j < r.value ==> !OccursAt(s, pat, j)
    ensures r.None? ==> forall j :: k <= j ==> !OccursAt(s, pat, j)
    decreases |s| - k
  {
    if OccursAt(s, pat, k) then Some(k)
    else if k >= |s| then None
    else IndexOfFrom(s, pat, k + 1)
  }

  /** `s.indexOf(pat)`: the first position at which `pat` occurs in `s`,
      or `None` where JavaScript answers -1. */
  function IndexOf(s: string, pat: string): (r: Option<nat>)
    ensures r.Some? ==> OccursAt(s, pat, r.value)
    ensures r.Some? ==> forall j :: 0 <= j < r.value ==> !OccursAt(s, pat, j)
    ensures r.None? ==> forall j :: 0 <= j ==> !OccursAt(s, pat, j)
  {
    IndexOfFrom(s, pat, 0)
  }

  /** The number of positions at which `pat` occurs in `s` (overlapping
      occurrences counted separately). */
  function Occurrences(s: string, pat: string): nat
    decreases |s|
  {
    if |s| < |pat| then 0
    else (if StartsWith(s, pat) then 1 else 0) + (if s == [] then 0 else Occurrences(s[1..], pat))
  }

  /** `s.includes(pat)`. */
  predicate Contains(s: string, pat: string)
  {
    Occurrences(s, pat) > 0
  }

  /** No occurrence of `pat` can run across the seam between `x` and `y`:
      every such window would hold the last character of `x` and the
      first of `y`, and one of them is not a character of `pat`. */
  predicate Separated(x: string, y: string, pat: string)
  {
    x == [] || y == [] || x[|x| - 1] !in pat || y[0] !in pat
  }

  /** A window that starts inside `x` and runs past its end is not an occurrence. */
  lemma NoStraddle(x: string, y: string, pat: string)
    requires 0 < |x| < |pat| && Separated(x, y, pat)
    ensures !StartsWith(x + y, pat)
  {
    if |y| > 0 {
      var w := x + y;
      assert w[|x| - 1] == x[|x| - 1] && w[|x|] == y[0];
    }
  }

  /** Regroupings of a five-part concatenation. */
  lemma Regroup(a: string, b: string, c: string, d: string, e: string)
    ensures a + b + c + d + e == a + b + (c + d + e)
    ensures a + b + c + d + e == a + (b + c + d + e)
    ensures a + b + c + d + e == a + b + c + (d + e)
  {
  }

  /** `pat` is contained in `s` exactly when it occurs at some position. */
  lemma {:induction false} ContainsOccursAt(s: string, pat: string)
    ensures Contains(s, pat) <==> exists j :: OccursAt(s, pat, j)
    decreases |s|
  {
    if |s| >= |pat| {
      assert s[0..|pat|] == s[..|pat|];
      if StartsWith(s, pat) {
        assert OccursAt(s, pat, 0);
      } else {
        ContainsOccursAt(s[1..], pat);
        OccursAtTail(s, pat);
        if Contains(s[1..], pat) {
          var j :| OccursAt(s[1..], pat, j);
          assert OccursAt(s, pat, j + 1);
        }
        if exists j :: OccursAt(s, pat, j) {
          var j :| OccursAt(s, pat, j);
          assert OccursAt(s[1..], pat, j - 1);
        }
      }
    }
  }

  /** `indexOf` finds something exactly when there is an occurrence. */
  lemma IndexOfFindsOccurrence(s: string, pat: string)
    ensures IndexOf(s, pat).None? <==> !Contains(s, pat)
  {
    ContainsOccursAt(s, pat);
    if IndexOf(s, pat).Some? {
      assert OccursAt(s, pat, IndexOf(s, pat).value);
    }
  }

  /** A pattern whose first character never appears in `s` does not occur in it. */
  lemma {:induction false} AbsentFirstChar(s: string, pat: string)
    requires |pat| > 0 && pat[0] !in s
    ensures !Contains(s, pat)
    decreases |s|
  {
    if |s| >= |pat| {
      assert s[0] != pat[0];
      AbsentFirstChar(s[1..], pat);
    }
  }

  /** A string contains itself. */
  lemma ContainsSelf(s: string)
    ensures Contains(s, s)
  {
    assert StartsWith(s, s);
  }

  /** The characterisation in `IndexOf`'s contract pins its result down. */
  lemma IndexOfUnique(s: string, pat: string, k: nat)
    requires OccursAt(s, pat, k)
    requires forall j :: 0 <= j < k ==> !OccursAt(s, pat, j)
    ensures IndexOf(s, pat) == Some(k)
  {
  }

  /** A first occurrence inside `x` is the first occurrence inside `x + y`. */
  lemma IndexOfPrefix(x: string, y: string, pat: string)
    requires IndexOf(x, pat).Some?
    ensures IndexOf(x + y, pat) == IndexOf(x, pat)
  {
    var k := IndexOf(x, pat).value;
    var s := x + y;
    forall j | 0 <= j <= k
      ensures OccursAt(s, pat, j) <==> OccursAt(x, pat, j)
    {
      assert j + |pat| <= |x|;
      assert s[j..j + |pat|] == x[j..j + |pat|];
    }
    IndexOfUnique(s, pat, k);
  }

  /** Occurrences inside either half survive concatenation. */
  lemma {:induction false} OccurrencesConcatAtLeast(x: string, y: string, pat: string)
    requires |pat| > 0
    ensures Occurrences(x + y, pat) >= Occurrences(x, pat) + Occurrences(y, pat)
    decreases |x|
  {
    if x == [] {
      assert x + y == y;
    } else {
      assert (x + y)[1..] == x[1..] + y;
      OccurrencesConcatAtLeast(x[1..], y, pat);
      if StartsWith(x, pat) {
        assert (x + y)[..|pat|] == x[..|pat|];
      }
    }
  }

  /** A string contains each of its infixes. */
  lemma ContainsInfix(x: string, y: string, z: string)
    ensures Contains(x + y + z, y)
  {
    if |y| == 0 {
      assert StartsWith(x + y + z, y);
    } else {
      ContainsSelf(y);
      OccurrencesConcatAtLeast(x, y, y);
      OccurrencesConcatAtLeast(x + y, z, y);
    }
  }

  /** With no window across the seam, occurrences in `x + y` are exactly
      those in `x` and those in `y`. */
  lemma {:induction false} OccurrencesConcat(x: string, y: string, pat: string)
    requires |pat| > 0 && Separated(x, y, pat)
    ensures Occurrences(x + y, pat) == Occurrences(x, pat) + Occurrences(y, pat)
    decreases |x|
  {
    if x == [] {
      assert x + y == y;
    } else {
      assert (x + y)[1..] == x[1..] + y;
      OccurrencesConcat(x[1..], y, pat);
      if |x| >= |pat| {
        assert (x + y)[..|pat|] == x[..|pat|];
      } else {
        NoStraddle(x, y, pat);
      }
    }
  }

  /** With no occurrence in `x` and none across the seam, `x + y` has no
      occurrence starting inside `x`. */
  lemma NoneBeforeSeam(x: string, y: string, pat: string)
    requires |pat| > 0 && Separated(x, y, pat) && IndexOf(x, pat).None?
    ensures forall j :: 0 <= j < |x| ==> !OccursAt(x + y, pat, j)
  {
    var s := x + y;
    forall j | 0 <= j < |x|
      ensures !OccursAt(s, pat, j)
    {
      if j + |pat| <= |x| {
        assert s[j..j + |pat|] == x[j..j + |pat|];
        assert !OccursAt(x, pat, j);
      } else if j + |pat| <= |s| {
        assert s[j..j + |pat|][|x| - 1 - j] == x[|x| - 1];
        assert s[j..j + |pat|][|x| - j] == y[0];
      }
    }
  }

  /** `indexOf` finds the `pat` right after an `x` that holds none and
      cannot run into it. */
  lemma IndexOfAfterClear(x: string, pat: string, y: string)
    requires |pat| > 0 && !Contains(x, pat) && Separated(x, pat + y, pat)
    ensures IndexOf(x + pat + y, pat) == Some(|x|)
  {
    IndexOfFindsOccurrence(x, pat);
    NoneBeforeSeam(x, pat + y, pat);
    var s := x + pat + y;
    assert s == x + (pat + y);
    assert s[|x|..|x| + |pat|] == pat;
    IndexOfUnique(s, pat, |x|);
  }

  /** GetSubstitution from the ECMAScript definition of `String.prototype.replace`
      for a string pattern: `$$` gives `$`, `$&` the matched text, `` $` `` the text
      before the match, `$'` the text after it; with a string pattern there are no
      capture groups, so every other `$` (`$1`, `$<`) stands for itself. */
  function Substitution(rep: string, matched: string, before: string, after: string): string
    decreases |rep|
  {
    if rep == [] then []
    else if rep[0] == '$' && |rep| >= 2 && rep[1] == '$' then "$" + Substitution(rep[2..], matched, before, after)
    else if rep[0] == '$' && |rep| >= 2 && rep[1] == '&' then matched + Substitution(rep[2..], matched, before, after)
    else if rep[0] == '$' && |rep| >= 2 && rep[1] == '`' then before + Substitution(rep[2..], matched, before, after)
    else if rep[0] == '$' && |rep| >= 2 && rep[1] == '\'' then after + Substitution(rep[2..], matched, before, after)
    else [rep[0]] + Substitution(rep[1..], matched, before, after)
  }

  /** A replacement with no `$` pattern: no `$` is followed by `$`, `&`,
      `` ` `` or `'`, so every `$` in it (as in "$5 Pizza") stands for itself. */
  predicate Literal(rep: string)
  {
    forall i :: 0 <= i < |rep| - 1 && rep[i] == '$' ==> rep[i + 1] !in "$&`'"
  }

  /** A replacement with no `$` pattern is inserted verbatim. */
  lemma {:induction false} SubstitutionVerbatim(rep: string, matched: string, before: string, after: string)
    requires Literal(rep)
    ensures Substitution(rep, matched, before, after) == rep
    decreases |rep|
  {
    if rep != [] {
      assert rep[1..] + [] == rep[1..];
      assert Literal(rep[1..]) by {
        forall i | 0 <= i < |rep[1..]| - 1 && rep[1..][i] == '$'
          ensures rep[1..][i + 1] !in "$&`'"
        {
          assert rep[i + 1] == '$';
        }
      }
      SubstitutionVerbatim(rep[1..], matched, before, after);
      assert [rep[0]] + rep[1..] == rep;
    }
  }

  /** `s.replace(pat, rep)` with a string `pat`: only the first occurrence is
      replaced; without one, `s` is returned unchanged. */
  function ReplaceFirst(s: string, pat: string, rep: string): (r: string)
    ensures !Contains(s, pat) ==> r == s
  {
    IndexOfFindsOccurrence(s, pat);
    match IndexOf(s, pat)
    case None => s
    case Some(i) => s[..i] + Substitution(rep, pat, s[..i], s[i + |pat|..]) + s[i + |pat|..]
  }

  /** With an occurrence and a replacement with no `$` pattern, one `pat` is
      traded for one `rep`. */
  lemma ReplaceFirstLength(s: string, pat: string, rep: string)
    requires Contains(s, pat) && Literal(rep)
    ensures |ReplaceFirst(s, pat, rep)| == |s| - |pat| + |rep|
  {
    IndexOfFindsOccurrence(s, pat);
    var i := IndexOf(s, pat).value;
    SubstitutionVerbatim(rep, pat, s[..i], s[i + |pat|..]);
  }

  /** When no occurrence of `pat` starts inside `x`, `replace` rewrites the
      one right after `x` and keeps `x` and everything after that occurrence
      — later occurrences included — unchanged. */
  lemma ReplaceFirstAfter(x: string, pat: string, y: string, rep: string)
    requires forall j :: 0 <= j < |x| ==> !OccursAt(x + pat + y, pat, j)
    ensures ReplaceFirst(x + pat + y, pat, rep) == x + Substitution(rep, pat, x, y) + y
    ensures Literal(rep) ==> ReplaceFirst(x + pat + y, pat, rep) == x + rep + y
  {
    if Literal(rep) {
      SubstitutionVerbatim(rep, pat, x, y);
    }
    var s := x + pat + y;
    assert s[|x|..|x| + |pat|] == pat;
    IndexOfUnique(s, pat, |x|);
    assert s[..|x|] == x && s[|x| + |pat|..] == y;
  }

  /** When `x` already holds `pat`, `replace` on `x + y` leaves `y` as it is. */
  lemma ReplaceFirstKeepsTail(x: string, y: string, pat: string, rep: string)
    requires Contains(x, pat)
    ensures var r := ReplaceFirst(x + y, pat, rep); |y| <= |r| && r[|r| - |y|..] == y
  {
    IndexOfFindsOccurrence(x, pat);
    IndexOfPrefix(x, y, pat);
    var i := IndexOf(x, pat).value;
    var s := x + y;
    var before, after := s[..i], s[i + |pat|..];
    var sub := Substitution(rep, pat, before, after);
    assert ReplaceFirst(s, pat, rep) == before + sub + after;
    assert after == x[i + |pat|..] + y;
    assert before + sub + after == (before + sub + x[i + |pat|..]) + y;
  }

  /** `$&` stands for the matched text, so replacing with it changes nothing. */
  lemma ReplaceWithMatchIsIdentity(s: string, pat: string)
    ensures ReplaceFirst(s, pat, "$&") == s
  {
    var rep := "$&";
    assert rep[0] == '$' && rep[1] == '&' && rep[2..] == [];
    IndexOfFindsOccurrence(s, pat);
    if IndexOf(s, pat).Some? {
      var i := IndexOf(s, pat).value;
      assert Substitution(rep, pat, s[..i], s[i + |pat|..]) == pat;
      assert s[..i] + pat + s[i + |pat|..] == s;
    }
  }

  /** ECMAScript WhiteSpace and LineTerminator code points, the characters
      `trim` removes: TAB, VT, FF, ZWNBSP, LF, CR, LS, PS and every space
      separator (category Zs). */
  predicate IsWhitespace(c: char)
  {
    || c == '\t' || c == '\n' || c == '\U{B}' || c == '\U{C}' || c == '\r'
    || c == ' ' || c == '\U{A0}' || c == '\U{1680}'
    || ('\U{2000}' <= c <= '\U{200A}')
    || c == '\U{2028}' || c == '\U{2029}' || c == '\U{202F}' || c == '\U{205F}'
    || c == '\U{3000}' || c == '\U{FEFF}'
  }

  /** The first position from `k` on that does not hold whitespace, or `|s|`. */
  function SkipSpace(s: string, k: nat): (n: nat)
    requires k <= |s|
    ensures k <= n <= |s|
    ensures n < |s| ==> !IsWhitespace(s[n])
    ensures forall j :: k <= j < n ==> IsWhitespace(s[j])
    decreases |s| - k
  {
    if k < |s| && IsWhitespace(s[k]) then SkipSpace(s, k + 1) else k
  }

  /** The position just past the last character before `k` that is not
      whitespace, or 0. */
  function SkipSpaceBack(s: string, k: nat): (n: nat)
    requires k <= |s|
    ensures n <= k
    ensures 0 < n ==> !IsWhitespace(s[n - 1])
    ensures forall j :: n <= j < k ==> IsWhitespace(s[j])
  {
    if 0 < k && IsWhitespace(s[k - 1]) then SkipSpaceBack(s, k - 1) else k
  }

  /** Drops the leading whitespace. */
  function TrimStart(s: string): (r: string)
    ensures |r| <= |s| && r == s[|s| - |r|..]
    ensures r == [] || !IsWhitespace(r[0])
    ensures forall k :: 0 <= k < |s| - |r| ==> IsWhitespace(s[k])
  {
    s[SkipSpace(s, 0)..]
  }

  /** Drops the trailing whitespace. */
  function TrimEnd(s: string): (r: string)
    ensures |r| <= |s| && r == s[..|r|]
    ensures r == [] || !IsWhitespace(r[|r| - 1])
    ensures forall k :: |r| <= k < |s| ==> IsWhitespace(s[k])
  {
    s[..SkipSpaceBack(s, |s|)]
  }

  /** `s.trim()`. */
  function Trim(s: string): string
  {
    TrimEnd(TrimStart(s))
  }

  /** `trim` keeps the stretch of `s` left once the whitespace at both ends is
      gone, and that stretch starts and ends with a character that is not
      whitespace. */
  lemma TrimStripsBothEnds(s: string)
    ensures var r := Trim(s);
      r == [] || (!IsWhitespace(r[0]) && !IsWhitespace(r[|r| - 1]))
    ensures var r := Trim(s);
      exists i :: (0 <= i <= |s| - |r| && r == s[i..][..|r|]
        && (forall k :: 0 <= k < i ==> IsWhitespace(s[k]))
        && (forall k :: i + |r| <= k < |s| ==> IsWhitespace(s[k])))
  {
    var t := TrimStart(s);
    var r := TrimEnd(t);
    var i := |s| - |t|;
    assert r == s[i..][..|r|];
    assert forall k :: i + |r| <= k < |s| ==> s[k] == t[k - i];
  }

  /** `trim` yields the empty string exactly when every character is whitespace. */
  lemma TrimEmpty(s: string)
    ensures Trim(s) == [] <==> forall k :: 0 <= k < |s| ==> IsWhitespace(s[k])
  {
    var t := TrimStart(s);
    if Trim(s) == [] {
      assert t == [];
    } else if t != [] {
      assert !IsWhitespace(s[|s| - |t|]);
    }
  }
}
