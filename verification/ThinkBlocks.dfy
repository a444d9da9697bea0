/** Removal of `<think>` blocks from model output (config/mlx-outlines-server/server.py). */
module ThinkBlocks {
  import opened Strings

  const OPEN := "<think>"
  const CLOSE := "</think>"

  /** What one turn of the removal loop does: stop with the text kept, or go on with a block cut out. */
  datatype Turn = Done(text: string) | Again(text: string)

  function CutBlock(s: string, open: string, close: string): (r: Turn)
    requires open != "" && close != ""
    ensures r.Again? ==> |r.text| < |s|
  {
    match Find(s, open, 0)
    case None => Done(s)
    case Some(a) =>
      match Find(s, close, a)
      case None => Done(s[..a])
      case Some(b) => Again(s[..a] + s[b + |close|..])
  }

  /** What the removal loop leaves of `s`. */
  function Remove(s: string, open: string, close: string): string
    requires open != "" && close != ""
    decreases |s|
  {
    match CutBlock(s, open, close)
    case Done(t) => t
    case Again(t) => Remove(t, open, close)
  }

  /** Python's `s.replace(pat, "")`. */
  function Erase(s: string, pat: string): string
    requires pat != ""
    decreases |s|
  {
    match Find(s, pat, 0)
    case None => s
    case Some(i) => s[..i] + Erase(s[i + |pat|..], pat)
  }

  /** The text from the main path: what the loop leaves, trimmed. */
  function MainText(text: string): string {
    Strip(Remove(text, OPEN, CLOSE))
  }

  function Stripped(text: string): string {
    if MainText(text) != "" then MainText(text) else Strip(Erase(Erase(text, OPEN), CLOSE))
  }

  method RemoveBlocks(text: string, open: string, close: string) returns (cleaned: string)
    requires open != "" && close != ""
    ensures cleaned == Remove(text, open, close)
  {
    cleaned := text;
    while true
      invariant Remove(cleaned, open, close) == Remove(text, open, close)
      decreases |cleaned|
    {
      ghost var turn := CutBlock(cleaned, open, close);
      var start := Find(cleaned, open, 0);
      if start.None? { break; }
      var end := Find(cleaned, close, start.value);
      if end.None? {
        cleaned := cleaned[..start.value];
        assert turn == Done(cleaned);
        break;
      }
      cleaned := cleaned[..start.value] + cleaned[end.value + |close|..];
      assert turn == Again(cleaned);
    }
  }

  method StripThinkBlocks(text: string) returns (r: string)
    ensures r == Stripped(text)
  {
    var cleaned := RemoveBlocks(text, OPEN, CLOSE);
    cleaned := Strip(cleaned);
    if cleaned != "" { return cleaned; }
    r := Strip(Erase(Erase(text, OPEN), CLOSE));
  }

  /** Two tags that cannot overlap themselves or each other. */
  predicate Tags(open: string, close: string) {
    && Borderless(open) && Borderless(close) && |open| > 1 && |close| > 1
    && (forall k :: 0 < k < |open| ==> open[k] != close[0])
    && (forall k :: 0 < k < |close| ==> close[k] != open[0])
    && open[1] != close[1]
  }

  // ---- The main path leaves no tag, deletes only, and is a fixed point ----

  lemma {:induction false} RemoveLeavesNoOpen(s: string, open: string, close: string)
    requires open != "" && close != ""
    ensures !Contains(Remove(s, open, close), open)
    decreases |s|
  {
    match CutBlock(s, open, close)
    case Done(t) => if Contains(s, open) { FreeBefore(s, open); }
    case Again(t) => RemoveLeavesNoOpen(t, open, close);
  }

  lemma ThreeParts(s: string, a: nat, e: nat)
    requires a <= e <= |s|
    ensures s[..a] + s[a..e] + s[e..] == s
  {
  }

  /** One turn only deletes. */
  lemma CutDeletesOnly(s: string, open: string, close: string)
    requires open != "" && close != ""
    ensures Subsequence(CutBlock(s, open, close).text, s)
  {
    SubsequenceSelf(s);
    var start := Find(s, open, 0);
    if start.Some? {
      var a := start.value;
      SubsequenceSlice(s, 0, a);
      var end := Find(s, close, a);
      if end.Some? {
        var e := end.value + |close|;
        SubsequenceCut(s[..a], s[a..e], s[e..]);
        ThreeParts(s, a, e);
      }
    }
  }

  lemma {:induction false} RemoveDeletesOnly(s: string, open: string, close: string)
    requires open != "" && close != ""
    ensures Subsequence(Remove(s, open, close), s)
    decreases |s|
  {
    CutDeletesOnly(s, open, close);
    match CutBlock(s, open, close)
    case Done(t) =>
    case Again(t) =>
      RemoveDeletesOnly(t, open, close);
      SubsequenceTrans(Remove(s, open, close), t, s);
  }

  /** Every result of the main path is tag-free, a subsequence of the input, and stable. */
  lemma MainPath(text: string)
    requires MainText(text) != ""
    ensures !Contains(Stripped(text), OPEN)
    ensures Subsequence(Stripped(text), text)
    ensures Stripped(Stripped(text)) == Stripped(text)
  {
    var left := Remove(text, OPEN, CLOSE);
    RemoveLeavesNoOpen(text, OPEN, CLOSE);
    StripKeepsFree(left, OPEN);
    RemoveDeletesOnly(text, OPEN, CLOSE);
    SubsequenceStrip(left);
    SubsequenceTrans(Stripped(text), left, text);
    StripTwice(left);
  }

  /** An unterminated block at the front takes the rest of the text with it. */
  lemma UnterminatedTakesAll(text: string, rest: string, open: string, close: string)
    requires Tags(open, close) && text == open + rest && close[1] !in text
    ensures CutBlock(text, open, close) == Done("")
  {
    FreeWithout(text, close, 1);
  }

  /** Erasing the tag from `a + tag + b` joins `a` and `b`. */
  lemma EraseJoins(text: string, a: string, b: string, tag: string)
    requires Borderless(tag) && !Contains(a, tag) && !Contains(b, tag) && text == a + tag + b
    ensures Erase(text, tag) == a + b
  {
    FindAfterFree(a, tag, b);
    assert text[..|a|] == a && text[|a| + |tag|..] == b;
  }

  lemma EraseFront(text: string, rest: string, tag: string)
    requires Borderless(tag) && text == tag + rest
    ensures Erase(text, tag) == Erase(rest, tag)
  {
  }

  // ---- The fallback can leave a tag ----

  lemma {:induction false} EraseIsConcat(s: string, pat: string)
    requires pat != ""
    ensures Erase(s, pat) == Concat(SplitBy(s, pat))
    decreases |s|
  {
    match Find(s, pat, 0)
    case None => assert Concat([s]) == s + Concat([]) == s;
    case Some(i) =>
      var rest := s[i + |pat|..];
      EraseIsConcat(rest, pat);
      assert ([s[..i]] + SplitBy(rest, pat))[1..] == SplitBy(rest, pat);
  }

  /** The two tags do not overlap. */
  lemma NoneInto(a: string, b: string, open: string, close: string)
    requires Tags(open, close)
    ensures !Crosses(a, close + b, open)
  {
    var c := close + b;
    forall k | 0 < k < |open| && |open| - k <= |c| ensures c[..|open| - k] != open[k..] {
      assert c[..|open| - k][0] == close[0] && open[k..][0] == open[k];
    }
  }

  lemma NoneOutOf(b: string, open: string, close: string)
    requires Tags(open, close)
    ensures !Crosses(close, b, open) && !Contains(close, open)
  {
    forall k | 0 < k < |open| && k <= |close| ensures close[|close| - k..] != open[..k] {
      var tail := close[|close| - k..];
      assert tail[0] == close[|close| - k] && open[..k][0] == open[0];
      if k == |close| { assert tail[1] == close[1] && open[..k][1] == open[1]; }
    }
    FreeMeans(close, open);
    forall j | 0 <= j < |close| + 1 ensures !MatchesAt(close, open, j) {
      if j + |open| <= |close| {
        if j == 0 { assert close[j + 1] != open[1]; } else { assert close[j + 0] != open[0]; }
      }
    }
  }

  /** So no opening tag reaches across a closing one. */
  lemma NoneAcross(a: string, b: string, open: string, close: string)
    requires Tags(open, close)
    ensures Contains(a + close + b, open) <==> Contains(a, open) || Contains(b, open)
  {
    ContainsAppend(a, close + b, open);
    ContainsAppend(close, b, open);
    NoneInto(a, b, open, close);
    NoneOutOf(b, open, close);
    assert a + close + b == a + (close + b);
  }

  lemma {:induction false} OpenInAPart(s: string, open: string, close: string)
    requires Tags(open, close)
    ensures Contains(s, open) <==> SomePartHas(SplitBy(s, close), open)
    decreases |s|
  {
    match Find(s, close, 0)
    case None => FirstPartOrLater(s, [], open);
    case Some(i) =>
      var a, b := s[..i], s[i + |close|..];
      FindFirst(s, close, 0);
      MatchIsSlice(s, close, i);
      assert s == a + close + b;
      NoneAcross(a, b, open, close);
      OpenInAPart(b, open, close);
      FirstPartOrLater(a, SplitBy(b, close), open);
  }

  /** Erasing one tag and then the other leaves an opening tag exactly if some seam joins into one. */
  lemma ErasedHasTag(text: string, open: string, close: string)
    requires Tags(open, close)
    ensures Contains(Erase(Erase(text, open), close), open) <==>
            JoinsAtASeam(SplitBy(text, open), open) || JoinsAtASeam(SplitBy(Erase(text, open), close), open)
  {
    var once := Erase(text, open);
    EraseIsConcat(text, open);
    ContainsConcat(SplitBy(text, open), open);
    PartsAreFree(text, open);
    assert Contains(once, open) <==> JoinsAtASeam(SplitBy(text, open), open);
    EraseIsConcat(once, close);
    ContainsConcat(SplitBy(once, close), open);
    OpenInAPart(once, open, close);
  }

  /**
   * A result has an opening tag if and only if the main path leaves nothing and, with the text cut at its
   * opening tags, and what is left cut at its closing tags, some seam joins into an opening tag.
   */
  lemma ResultHasTag(text: string)
    ensures Contains(Stripped(text), OPEN) <==>
            && MainText(text) == ""
            && (JoinsAtASeam(SplitBy(text, OPEN), OPEN) || JoinsAtASeam(SplitBy(Erase(text, OPEN), CLOSE), OPEN))
  {
    ErasedHasTag(text, OPEN, CLOSE);
    if MainText(text) != "" {
      MainPath(text);
    } else {
      var erased := Erase(Erase(text, OPEN), CLOSE);
      if Contains(erased, OPEN) { StripKeepsMatches(erased, OPEN); } else { StripKeepsFree(erased, OPEN); }
    }
  }

  /** A text that comes to that: an opening tag, and another one that is cut by a third. */
  lemma CutTag(text: string, tail: string, open: string, close: string)
    requires Tags(open, close) && close[1] !in open
    requires tail == open[..1] + open + open[1..] && text == open + tail
    ensures Remove(text, open, close) == "" && Erase(Erase(text, open), close) == open
  {
    UnterminatedTakesAll(text, tail, open, close);
    EraseFront(text, tail, open);
    FreeWithout(open[1..], open, 0);
    FreeShort(open[..1], open);
    EraseJoins(tail, open[..1], open[1..], open);
    assert open[..1] + open[1..] == open;
    FreeWithout(open, close, 1);
  }

  lemma FallbackLeavesATag()
    ensures Stripped(OPEN + (OPEN[..1] + OPEN + OPEN[1..])) == OPEN
  {
    var tail := OPEN[..1] + OPEN + OPEN[1..];
    CutTag(OPEN + tail, tail, OPEN, CLOSE);
    StripFixed(OPEN);
  }

  // ---- Text built from plain segments and well-formed blocks ----

  datatype Piece = Piece(plain: string, body: string)

  function Render(ps: seq<Piece>, tail: string, open: string, close: string): string {
    if ps == [] then tail else ps[0].plain + open + ps[0].body + close + Render(ps[1..], tail, open, close)
  }

  function Joined(ps: seq<Piece>, tail: string): string {
    if ps == [] then tail else ps[0].plain + Joined(ps[1..], tail)
  }

  /** No closing tag starts inside an opening tag. */
  lemma OpenAddsNoClose(body: string, open: string, close: string)
    requires Tags(open, close) && !Contains(body, close)
    ensures !Contains(open + body, close)
  {
    var s := open + body;
    FreeMeans(body, close);
    FreeMeans(s, close);
    forall j: nat | j + |close| <= |s| ensures !MatchesAt(s, close, j) {
      if |open| <= j {
        assert !MatchesAt(body, close, j - |open|);
        var k :| 0 <= k < |close| && body[j - |open| + k] != close[k];
        assert s[j + k] == body[j - |open| + k];
      } else if j == 0 {
        assert s[j + 1] != close[1];
      } else {
        assert s[j + 0] != close[0];
      }
    }
  }

  /** The first closing tag after the opening one is the block's own. */
  lemma BlockEnd(s: string, pre: string, body: string, post: string, open: string, close: string)
    requires Tags(open, close) && !Contains(body, close)
    requires s == pre + (open + body + close + post)
    ensures Find(s, close, |pre|) == Some(|pre| + |open| + |body|)
  {
    FindSuffix(s, close, |pre|);
    OpenAddsNoClose(body, open, close);
    FindAfterFree(open + body, close, post);
    assert s[|pre|..] == open + body + close + post;
  }

  /** One turn of the loop on a text that starts with plain text and a block. */
  lemma BlockVanishes(pre: string, body: string, post: string, open: string, close: string)
    requires Tags(open, close) && !Contains(body, close) && !Contains(pre, open)
    ensures CutBlock(pre + (open + body + close + post), open, close) == Again(pre + post)
  {
    var s := pre + (open + body + close + post);
    Regroup(pre, open, body, close, post);
    FindAfterFree(pre, open, body + close + post);
    BlockEnd(s, pre, body, post, open, close);
  }

  lemma MoveLeft(pre: string, a: string, b: string, c: string, d: string, e: string)
    ensures pre + (a + b + c + d + e) == (pre + a) + (b + c + d + e)
  {
    assert a + b + c + d + e == a + (b + c + d + e);
  }

  lemma Regroup(a: string, b: string, c: string, d: string, e: string)
    ensures a + (b + c + d + e) == a + b + (c + d + e)
    ensures (a + (b + c + d + e))[..|a|] == a
    ensures (a + (b + c + d + e))[|a| + |b| + |c| + |d|..] == e
  {
  }

  lemma {:induction false} BlocksVanishAfter(pre: string, ps: seq<Piece>, tail: string, open: string, close: string)
    requires Tags(open, close)
    requires forall p :: p in ps ==> !Contains(p.body, close)
    requires !Contains(pre + Joined(ps, tail), open)
    ensures Remove(pre + Render(ps, tail, open, close), open, close) == pre + Joined(ps, tail)
    decreases |ps|
  {
    if ps != [] {
      var p, rest := ps[0], ps[1..];
      var pre', post := pre + p.plain, Render(rest, tail, open, close);
      var all := pre' + Joined(rest, tail);
      assert pre + Joined(ps, tail) == all;
      FreeSlice(all, open, 0, |pre'|);
      assert all[0..|pre'|] == pre';
      BlockVanishes(pre', p.body, post, open, close);
      MoveLeft(pre, p.plain, open, p.body, close, post);
      BlocksVanishAfter(pre', rest, tail, open, close);
    }
  }

  /** Well-formed blocks disappear and only the trimmed plain text stays. */
  lemma BlocksVanish(ps: seq<Piece>, tail: string)
    requires forall p :: p in ps ==> !Contains(p.body, CLOSE)
    requires !Contains(Joined(ps, tail), OPEN)
    requires Strip(Joined(ps, tail)) != ""
    ensures Stripped(Render(ps, tail, OPEN, CLOSE)) == Strip(Joined(ps, tail))
  {
    assert "" + Render(ps, tail, OPEN, CLOSE) == Render(ps, tail, OPEN, CLOSE)
      && "" + Joined(ps, tail) == Joined(ps, tail);
    BlocksVanishAfter("", ps, tail, OPEN, CLOSE);
  }

  // ---- Unterminated blocks ----

  /** One turn of the loop on a text that goes on with an unterminated block. */
  lemma RestIsCut(pre: string, body: string, open: string, close: string)
    requires Tags(open, close) && !Contains(body, close) && !Contains(pre, open)
    ensures CutBlock(pre + (open + body), open, close) == Done(pre)
  {
    var s := pre + (open + body);
    assert s == pre + open + body;
    FindAfterFree(pre, open, body);
    FindSuffix(s, close, |pre|);
    OpenAddsNoClose(body, open, close);
    assert s[|pre|..] == open + body && s[..|pre|] == pre;
  }

  lemma {:induction false} UnterminatedAfter(
    pre: string, ps: seq<Piece>, tail: string, body: string, open: string, close: string)
    requires Tags(open, close) && !Contains(body, close)
    requires forall p :: p in ps ==> !Contains(p.body, close)
    requires !Contains(pre + Joined(ps, tail), open)
    ensures Remove(pre + Render(ps, tail + (open + body), open, close), open, close) == pre + Joined(ps, tail)
    decreases |ps|
  {
    if ps == [] {
      RestIsCut(pre + tail, body, open, close);
      assert pre + (tail + (open + body)) == (pre + tail) + (open + body);
    } else {
      var p, rest := ps[0], ps[1..];
      var pre', post := pre + p.plain, Render(rest, tail + (open + body), open, close);
      var all := pre' + Joined(rest, tail);
      assert pre + Joined(ps, tail) == all;
      FreeSlice(all, open, 0, |pre'|);
      assert all[0..|pre'|] == pre';
      BlockVanishes(pre', p.body, post, open, close);
      MoveLeft(pre, p.plain, open, p.body, close, post);
      UnterminatedAfter(pre', rest, tail, body, open, close);
    }
  }

  /** What stands before an unterminated block is kept, and its well-formed blocks disappear. */
  lemma UnterminatedKeepsText(ps: seq<Piece>, tail: string, body: string)
    requires forall p :: p in ps ==> !Contains(p.body, CLOSE)
    requires !Contains(Joined(ps, tail), OPEN) && !Contains(body, CLOSE)
    requires Strip(Joined(ps, tail)) != ""
    ensures Stripped(Render(ps, tail + (OPEN + body), OPEN, CLOSE)) == Strip(Joined(ps, tail))
  {
    RemoveUnterminated(ps, tail, body, OPEN, CLOSE);
  }

  lemma RemoveUnterminated(ps: seq<Piece>, tail: string, body: string, open: string, close: string)
    requires Tags(open, close) && !Contains(body, close)
    requires forall p :: p in ps ==> !Contains(p.body, close)
    requires !Contains(Joined(ps, tail), open)
    ensures Remove(Render(ps, tail + (open + body), open, close), open, close) == Joined(ps, tail)
  {
    var text := Render(ps, tail + (open + body), open, close);
    assert "" + text == text && "" + Joined(ps, tail) == Joined(ps, tail);
    UnterminatedAfter("", ps, tail, body, open, close);
  }

  /** The answer before thinking that does not end. */
  lemma AnswerIsKept(pre: string, body: string)
    requires !Contains(pre, OPEN) && !Contains(body, CLOSE) && Strip(pre) != ""
    ensures Stripped(pre + OPEN + body) == Strip(pre)
  {
    UnterminatedKeepsText([], pre, body);
    assert pre + (OPEN + body) == pre + OPEN + body;
  }

  lemma EndedThinking(text: string, rest: string, body: string, open: string, close: string)
    requires Tags(open, close) && !Contains(body, open) && !Contains(body, close)
    requires rest == body + close && text == open + rest
    ensures Erase(Erase(text, open), close) == body
  {
    NoneAcross(body, "", open, close);
    assert body + close + "" == rest;
    FreeShort("", open);
    EraseFront(text, rest, open);
    FreeShort("", close);
    EraseJoins(rest, body, "", close);
    assert rest == body + close + "" && body + "" == body;
  }

  lemma OnlyABlock(text: string, body: string, open: string, close: string)
    requires Tags(open, close) && !Contains(body, close) && text == open + body + close
    ensures Remove(text, open, close) == ""
  {
    FreeShort("", open);
    BlockVanishes("", body, "", open, close);
    assert "" + (open + body + close + "") == text;
  }

  lemma UnendedThinking(text: string, body: string, open: string, close: string)
    requires Tags(open, close) && !Contains(body, open) && !Contains(body, close) && text == open + body
    ensures Remove(text, open, close) == "" && Erase(Erase(text, open), close) == body
  {
    FreeShort("", open);
    RestIsCut("", body, open, close);
    assert "" + (open + body) == text;
    EraseFront(text, body, open);
  }

  /** Where there is nothing but thinking, ended or not, the thinking is the answer. */
  lemma ThinkingIsKept(body: string)
    requires !Contains(body, OPEN) && !Contains(body, CLOSE)
    ensures Stripped(OPEN + body + CLOSE) == Strip(body)
    ensures Stripped(OPEN + body) == Strip(body)
  {
    assert OPEN + body + CLOSE == OPEN + (body + CLOSE);
    OnlyABlock(OPEN + body + CLOSE, body, OPEN, CLOSE);
    EndedThinking(OPEN + body + CLOSE, body + CLOSE, body, OPEN, CLOSE);
    UnendedThinking(OPEN + body, body, OPEN, CLOSE);
  }
}
