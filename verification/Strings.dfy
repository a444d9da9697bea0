/** Text operations shared by the models: substring search, trimming, subsequences. */
module Strings {
  datatype Option<+T> = None | Some(value: T)

  predicate MatchesAt(s: string, pat: string, i: nat) {
    i + |pat| <= |s| && forall k :: 0 <= k < |pat| ==> s[i + k] == pat[k]
  }

  /** The least index at or after `from` where `pat` occurs, as `str.find` computes it. */
  function Find(s: string, pat: string, from: nat): (r: Option<nat>)
    requires from <= |s|
    ensures r.Some? ==> from <= r.value && r.value + |pat| <= |s|
    decreases |s| - from
  {
    if MatchesAt(s, pat, from) then Some(from)
    else if from == |s| then None
    else Find(s, pat, from + 1)
  }

  ghost predicate NoMatchIn(s: string, pat: string, lo: nat, hi: nat) {
    forall j :: lo <= j < hi ==> !MatchesAt(s, pat, j)
  }

  /** `r` is where `pat` first occurs at or after `from`. */
  ghost predicate FirstMatch(s: string, pat: string, from: nat, r: Option<nat>) {
    match r
    case None => NoMatchIn(s, pat, from, |s| + 1)
    case Some(i) => from <= i && MatchesAt(s, pat, i) && NoMatchIn(s, pat, from, i)
  }

  lemma {:induction false} FindFirst(s: string, pat: string, from: nat)
    requires from <= |s|
    ensures FirstMatch(s, pat, from, Find(s, pat, from))
    decreases |s| - from
  {
    if !MatchesAt(s, pat, from) && from < |s| { FindFirst(s, pat, from + 1); }
  }

  /** Nothing else is a first match. */
  lemma FindIs(s: string, pat: string, from: nat, r: Option<nat>)
    requires from <= |s| && FirstMatch(s, pat, from, r)
    ensures Find(s, pat, from) == r
  {
    FindFirst(s, pat, from);
  }

  predicate Contains(s: string, pat: string) {
    Find(s, pat, 0).Some?
  }

  lemma FreeMeans(s: string, pat: string)
    ensures !Contains(s, pat) <==> NoMatchIn(s, pat, 0, |s| + 1)
  {
    FindFirst(s, pat, 0);
  }

  /** No proper overlap: the first character of `pat` does not come back later in `pat`. */
  predicate Borderless(pat: string) {
    |pat| > 0 && forall k :: 0 < k < |pat| ==> pat[k] != pat[0]
  }

  /** In `a + pat + b` the first occurrence of a borderless `pat` sits right after a `pat`-free `a`. */
  lemma FindAfterFree(a: string, pat: string, b: string)
    requires Borderless(pat) && !Contains(a, pat)
    ensures Find(a + pat + b, pat, 0) == Some(|a|)
  {
    FindAfter(a + pat + b, 0, a, pat);
  }

  /** `w` at `i` is a slice of `s`. */
  lemma MatchIsSlice(s: string, w: string, i: nat)
    requires MatchesAt(s, w, i)
    ensures s[i..i + |w|] == w
  {
  }

  /** A borderless `pat` that follows a `pat`-free stretch is the first occurrence from there. */
  lemma FindAfter(s: string, from: nat, free: string, pat: string)
    requires Borderless(pat) && !Contains(free, pat)
    requires MatchesAt(s, free, from) && MatchesAt(s, pat, from + |free|)
    ensures Find(s, pat, from) == Some(from + |free|)
  {
    FreeMeans(free, pat);
    forall j | from <= j < from + |free| ensures !MatchesAt(s, pat, j) {
      var i := j - from;
      assert !MatchesAt(free, pat, i);
      if i + |pat| <= |free| {
        var k :| 0 <= k < |pat| && free[i + k] != pat[k];
        assert s[from + (i + k)] == free[i + k];
      } else {
        assert s[from + |free| + 0] == pat[0] != pat[|free| - i];
        assert s[j + (|free| - i)] == pat[0];
      }
    }
    FindIs(s, pat, from, Some(from + |free|));
  }

  lemma MatchIffSlice(s: string, pat: string, i: nat)
    requires i + |pat| <= |s|
    ensures MatchesAt(s, pat, i) <==> s[i..i + |pat|] == pat
  {
    var w := s[i..i + |pat|];
    forall k | 0 <= k < |pat| ensures w[k] == s[i + k] {}
  }

  lemma MatchInSuffix(s: string, pat: string, from: nat, j: nat)
    requires from <= |s|
    ensures MatchesAt(s[from..], pat, j) <==> MatchesAt(s, pat, from + j)
  {
    if from + j + |pat| <= |s| {
      assert s[from..][j..j + |pat|] == s[from + j..from + j + |pat|];
      MatchIffSlice(s[from..], pat, j);
      MatchIffSlice(s, pat, from + j);
    }
  }

  /** Searching from `from` is searching the rest of the text. */
  lemma FindSuffix(s: string, pat: string, from: nat)
    requires from <= |s|
    ensures Find(s, pat, from) == match Find(s[from..], pat, 0) case None => None case Some(i) => Some(from + i)
  {
    var r := Find(s[from..], pat, 0);
    FindFirst(s[from..], pat, 0);
    forall j | from <= j < (if r.Some? then from + r.value else |s| + 1) ensures !MatchesAt(s, pat, j) {
      MatchInSuffix(s, pat, from, j - from);
    }
    if r.Some? { MatchInSuffix(s, pat, from, r.value); }
    FindIs(s, pat, from, if r.Some? then Some(from + r.value) else None);
  }

  /** A piece of a `pat`-free text is `pat`-free. */
  lemma FreeSlice(s: string, pat: string, lo: nat, hi: nat)
    requires lo <= hi <= |s| && !Contains(s, pat)
    ensures !Contains(s[lo..hi], pat)
  {
    FreeMeans(s, pat);
    FreeMeans(s[lo..hi], pat);
    forall j | 0 <= j < hi - lo + 1 ensures !MatchesAt(s[lo..hi], pat, j) {
      assert !MatchesAt(s, pat, lo + j);
      if j + |pat| <= hi - lo {
        var k :| 0 <= k < |pat| && s[lo + j + k] != pat[k];
        assert s[lo..hi][j + k] == s[lo + j + k];
      }
    }
  }

  /** Nothing before the first occurrence. */
  lemma FreeBefore(s: string, pat: string)
    requires pat != "" && Contains(s, pat)
    ensures !Contains(s[..Find(s, pat, 0).value], pat)
  {
    var a := Find(s, pat, 0).value;
    FindFirst(s, pat, 0);
    FreeMeans(s[..a], pat);
    forall j | 0 <= j < a + 1 ensures !MatchesAt(s[..a], pat, j) {
      if j + |pat| <= a {
        assert !MatchesAt(s, pat, j);
        var k :| 0 <= k < |pat| && s[j + k] != pat[k];
        assert s[..a][j + k] == s[j + k];
      }
    }
  }

  /** A text that lacks one character of `pat` is `pat`-free. */
  lemma FreeWithout(s: string, pat: string, k: nat)
    requires k < |pat| && pat[k] !in s
    ensures !Contains(s, pat)
  {
    FreeMeans(s, pat);
    forall j: nat | j + |pat| <= |s| ensures !MatchesAt(s, pat, j) {
      assert s[j + k] != pat[k];
    }
  }

  /** A text shorter than `pat` is `pat`-free. */
  lemma FreeShort(s: string, pat: string)
    requires |s| < |pat|
    ensures !Contains(s, pat)
  {
    FreeMeans(s, pat);
  }

  function Slice(s: string, lo: nat, hi: nat): (r: string)
    requires lo <= hi <= |s|
    ensures |r| == hi - lo
  {
    s[lo..hi]
  }

  /** Whitespace as `str.strip` and `str.rstrip` see it. */
  predicate IsSpace(c: char) {
    || '\t' <= c <= '\r'
    || '\U{1C}' <= c <= ' '
    || c in {'\U{85}', '\U{A0}', '\U{1680}', '\U{2028}', '\U{2029}', '\U{202F}', '\U{205F}', '\U{3000}'}
    || '\U{2000}' <= c <= '\U{200A}'
  }

  function TrimStart(s: string): string {
    if s != "" && IsSpace(s[0]) then TrimStart(s[1..]) else s
  }

  function TrimEnd(s: string): string {
    if s != "" && IsSpace(s[|s| - 1]) then TrimEnd(s[..|s| - 1]) else s
  }

  function Strip(s: string): string {
    TrimEnd(TrimStart(s))
  }

  /** Neither end is whitespace. */
  predicate Tight(s: string) {
    s != "" ==> !IsSpace(s[0]) && !IsSpace(s[|s| - 1])
  }

  lemma {:induction false} TrimStartIs(s: string) returns (i: nat)
    ensures i <= |s| && TrimStart(s) == s[i..] && (i < |s| ==> !IsSpace(s[i]))
    ensures forall k :: 0 <= k < i ==> IsSpace(s[k])
  {
    if s != "" && IsSpace(s[0]) {
      var j := TrimStartIs(s[1..]);
      i := j + 1;
      assert s[1..][j..] == s[i..];
    } else {
      i := 0;
    }
  }

  lemma {:induction false} TrimEndIs(s: string) returns (i: nat)
    ensures i <= |s| && TrimEnd(s) == s[..i] && (i > 0 ==> !IsSpace(s[i - 1]))
    ensures forall k :: i <= k < |s| ==> IsSpace(s[k])
  {
    if s != "" && IsSpace(s[|s| - 1]) {
      i := TrimEndIs(s[..|s| - 1]);
      assert s[..|s| - 1][..i] == s[..i];
    } else {
      i := |s|;
    }
  }

  /** Stripping takes a slice whose ends are not whitespace. */
  lemma StripIs(s: string) returns (lo: nat, hi: nat)
    ensures lo <= hi <= |s| && Strip(s) == s[lo..hi] && Tight(Strip(s))
    ensures forall k :: 0 <= k < lo || hi <= k < |s| ==> IsSpace(s[k])
  {
    lo := TrimStartIs(s);
    var n := TrimEndIs(s[lo..]);
    hi := lo + n;
    assert s[lo..][..n] == s[lo..hi];
    assert forall k :: hi <= k < |s| ==> s[k] == s[lo..][k - lo];
  }

  /** Text whose two ends are not whitespace is left alone. */
  lemma StripFixed(s: string)
    requires Tight(s)
    ensures Strip(s) == s
  {
  }

  lemma StripTwice(s: string)
    ensures Strip(Strip(s)) == Strip(s)
  {
    var _, _ := StripIs(s);
    StripFixed(Strip(s));
  }

  /** Stripping takes a slice, so it cannot create an occurrence of `pat`. */
  lemma StripKeepsFree(s: string, pat: string)
    requires !Contains(s, pat)
    ensures !Contains(Strip(s), pat)
  {
    var lo, hi := StripIs(s);
    FreeSlice(s, pat, lo, hi);
  }

  /** Stripping only takes whitespace, so it cannot take an occurrence of a text without whitespace at its ends. */
  lemma StripKeepsMatches(s: string, pat: string)
    requires pat != "" && Tight(pat) && Contains(s, pat)
    ensures Contains(Strip(s), pat)
  {
    var lo, hi := StripIs(s);
    FindFirst(s, pat, 0);
    var j := Find(s, pat, 0).value;
    assert s[j + 0] == pat[0] && s[j + (|pat| - 1)] == pat[|pat| - 1];
    MatchIffSlice(s, pat, j);
    assert s[lo..hi][j - lo..j - lo + |pat|] == s[j..j + |pat|];
    MatchIffSlice(s[lo..hi], pat, j - lo);
    FreeMeans(s[lo..hi], pat);
  }

  // ---- Occurrences in joined texts ----

  /** `a` ends in a first part of `pat` and `b` goes on with the rest of it. */
  predicate Crosses(a: string, b: string, pat: string) {
    exists k :: 0 < k < |pat| && k <= |a| && |pat| - k <= |b| && a[|a| - k..] == pat[..k] && b[..|pat| - k] == pat[k..]
  }

  /** An occurrence in a joined text lies in one of the two, or across the seam. */
  lemma ContainsAppend(a: string, b: string, pat: string)
    requires pat != ""
    ensures Contains(a + b, pat) <==> Contains(a, pat) || Contains(b, pat) || Crosses(a, b, pat)
  {
    if Contains(a + b, pat) { FoundInAppend(a, b, pat); }
    if Contains(a, pat) { FoundLater("", a, b, pat); }
    if Contains(b, pat) { FoundLater(a, b, "", pat); }
    if Crosses(a, b, pat) { CrossingIsMatch(a, b, pat); }
    assert "" + a + b == a + b && a + b + "" == a + b;
  }

  lemma FoundLater(before: string, s: string, after: string, pat: string)
    requires Contains(s, pat)
    ensures Contains(before + s + after, pat)
  {
    var all := before + s + after;
    FindFirst(s, pat, 0);
    var j := Find(s, pat, 0).value;
    MatchIffSlice(s, pat, j);
    assert all[|before| + j..|before| + j + |pat|] == s[j..j + |pat|];
    MatchIffSlice(all, pat, |before| + j);
    FreeMeans(all, pat);
  }

  lemma FoundInAppend(a: string, b: string, pat: string)
    requires pat != "" && Contains(a + b, pat)
    ensures Contains(a, pat) || Contains(b, pat) || Crosses(a, b, pat)
  {
    var s := a + b;
    FindFirst(s, pat, 0);
    var j := Find(s, pat, 0).value;
    MatchIffSlice(s, pat, j);
    if j + |pat| <= |a| {
      assert a[j..j + |pat|] == s[j..j + |pat|];
      MatchIffSlice(a, pat, j);
      FreeMeans(a, pat);
    } else if |a| <= j {
      assert b[j - |a|..j - |a| + |pat|] == s[j..j + |pat|];
      MatchIffSlice(b, pat, j - |a|);
      FreeMeans(b, pat);
    } else {
      var k := |a| - j;
      assert a[|a| - k..] == s[j..j + |pat|][..k] && b[..|pat| - k] == s[j..j + |pat|][k..];
    }
  }

  lemma CrossingIsMatch(a: string, b: string, pat: string)
    requires Crosses(a, b, pat)
    ensures Contains(a + b, pat)
  {
    var k :| 0 < k < |pat| && k <= |a| && |pat| - k <= |b| && a[|a| - k..] == pat[..k] && b[..|pat| - k] == pat[k..];
    var n := |pat| - k;
    var before, after := a[..|a| - k], b[n..];
    assert a == before + pat[..k];
    assert b == pat[k..] + after;
    assert pat == pat[..k] + pat[k..];
    assert a + b == before + pat + after;
    FindIs(pat, pat, 0, Some(0));
    FoundLater(before, pat, after, pat);
  }

  /** The parts of a text between the occurrences of `pat`. */
  function SplitBy(s: string, pat: string): (parts: seq<string>)
    requires pat != ""
    ensures parts != []
    decreases |s|
  {
    match Find(s, pat, 0)
    case None => [s]
    case Some(i) => [s[..i]] + SplitBy(s[i + |pat|..], pat)
  }

  function Concat(parts: seq<string>): string {
    if parts == [] then "" else parts[0] + Concat(parts[1..])
  }

  /** Some part and what follows it join into `pat`. */
  predicate JoinsAtASeam(parts: seq<string>, pat: string) {
    exists i :: 0 <= i < |parts| && Crosses(parts[i], Concat(parts[i + 1..]), pat)
  }

  predicate SomePartHas(parts: seq<string>, pat: string) {
    exists part :: part in parts && Contains(part, pat)
  }

  lemma FirstPartOrLater(first: string, rest: seq<string>, pat: string)
    ensures SomePartHas([first] + rest, pat) <==> Contains(first, pat) || SomePartHas(rest, pat)
  {
    var parts := [first] + rest;
    assert first in parts && forall part :: part in rest ==> part in parts;
  }

  lemma Later(first: string, rest: seq<string>, i: nat)
    requires i < |rest|
    ensures var parts := [first] + rest; parts[i + 1] == rest[i] && parts[i + 2..] == rest[i + 1..]
  {
  }

  lemma FirstSeamOrLater(first: string, rest: seq<string>, pat: string)
    ensures JoinsAtASeam([first] + rest, pat) <==> Crosses(first, Concat(rest), pat) || JoinsAtASeam(rest, pat)
  {
    var parts := [first] + rest;
    assert parts[0 + 1..] == rest;
    if i :| 0 <= i < |parts| && Crosses(parts[i], Concat(parts[i + 1..]), pat) {
      if i > 0 { Later(first, rest, i - 1); }
    }
    if Crosses(first, Concat(rest), pat) { assert Crosses(parts[0], Concat(parts[0 + 1..]), pat); }
    if i :| 0 <= i < |rest| && Crosses(rest[i], Concat(rest[i + 1..]), pat) {
      Later(first, rest, i);
      assert Crosses(parts[i + 1], Concat(parts[i + 1 + 1..]), pat);
    }
  }

  /** An occurrence in parts put together lies in one part, or across a seam. */
  lemma {:induction false} ContainsConcat(parts: seq<string>, pat: string)
    requires pat != ""
    ensures Contains(Concat(parts), pat) <==> SomePartHas(parts, pat) || JoinsAtASeam(parts, pat)
  {
    if parts == [] {
      FreeShort("", pat);
    } else {
      var rest := parts[1..];
      ContainsAppend(parts[0], Concat(rest), pat);
      ContainsConcat(rest, pat);
      FirstPartOrLater(parts[0], rest, pat);
      FirstSeamOrLater(parts[0], rest, pat);
      assert parts == [parts[0]] + rest;
    }
  }

  lemma {:induction false} PartsAreFree(s: string, pat: string)
    requires pat != ""
    ensures forall part :: part in SplitBy(s, pat) ==> !Contains(part, pat)
    decreases |s|
  {
    if Contains(s, pat) {
      FreeBefore(s, pat);
      PartsAreFree(s[Find(s, pat, 0).value + |pat|..], pat);
    }
  }

  /** `a` can be obtained from `b` by deleting characters. */
  predicate Subsequence(a: string, b: string) {
    || a == ""
    || (b != "" && ((a[0] == b[0] && Subsequence(a[1..], b[1..])) || Subsequence(a, b[1..])))
  }

  lemma {:induction false} SubsequenceSelf(a: string)
    ensures Subsequence(a, a)
  {
    if a != "" { SubsequenceSelf(a[1..]); }
  }

  lemma {:induction false} SubsequenceTrans(a: string, b: string, c: string)
    requires Subsequence(a, b) && Subsequence(b, c)
    ensures Subsequence(a, c)
    decreases |b| + |c|
  {
    if a != "" {
      if b[0] == c[0] && Subsequence(b[1..], c[1..]) {
        if a[0] == b[0] && Subsequence(a[1..], b[1..]) {
          SubsequenceTrans(a[1..], b[1..], c[1..]);
        } else {
          SubsequenceTrans(a, b[1..], c[1..]);
        }
      } else {
        SubsequenceTrans(a, b, c[1..]);
      }
    }
  }

  /** Deleting a middle piece leaves a subsequence. */
  lemma {:induction false} SubsequenceCut(x: string, y: string, z: string)
    ensures Subsequence(x + z, x + y + z)
    decreases |x| + |y|
  {
    if x != "" {
      SubsequenceCut(x[1..], y, z);
      assert (x + z)[1..] == x[1..] + z && (x + y + z)[1..] == x[1..] + y + z;
    } else if y != "" {
      SubsequenceCut(x, y[1..], z);
      assert x + z == z && (x + y + z)[1..] == x + y[1..] + z;
    } else {
      SubsequenceSelf(z);
      assert x + z == z && x + y + z == z;
    }
  }

  lemma {:induction false} SubsequenceSlice(s: string, lo: nat, hi: nat)
    requires lo <= hi <= |s|
    ensures Subsequence(s[lo..hi], s)
    decreases |s|
  {
    if lo > 0 {
      SubsequenceSlice(s[1..], lo - 1, hi - 1);
      assert s[1..][lo - 1..hi - 1] == s[lo..hi];
    } else if hi > 0 {
      SubsequenceSlice(s[1..], 0, hi - 1);
      assert s[1..][0..hi - 1] == s[0..hi][1..];
    }
  }

  lemma SubsequenceStrip(s: string)
    ensures Subsequence(Strip(s), s)
  {
    var lo, hi := StripIs(s);
    SubsequenceSlice(s, lo, hi);
  }
}
