/** The brace-counting extraction of tool calls (config/mlx-outlines-server/server.py). */
module ToolCalls {
  import opened Strings

  const TAG := "<tool_call>"

  // ---- The string-aware brace matcher ----

  /** The scanner's variables; `Closed` is the state in which the loop breaks. */
  datatype Scan = Open(depth: int, inString: bool, escape: bool) | Closed

  const START := Open(0, false, false)

  function Advance(s: Scan, ch: char): Scan
    requires s.Open?
  {
    if s.inString then
      if s.escape then s.(escape := false)
      else if ch == '\\' then s.(escape := true)
      else if ch == '\"' then s.(inString := false)
      else s
    else if ch == '\"' then s.(inString := true)
    else if ch == '{' then s.(depth := s.depth + 1)
    else if ch == '}' then (if s.depth == 1 then Closed else s.(depth := s.depth - 1))
    else s
  }

  /** The number of characters up to and including the one that closes the object. */
  function ObjectLength(text: string, s: Scan): (r: Option<nat>)
    requires s.Open?
    ensures r.Some? ==> 0 < r.value <= |text| && text[r.value - 1] == '}'
  {
    if text == "" then None
    else
      match Advance(s, text[0])
      case Closed => Some(1)
      case next => match ObjectLength(text[1..], next) case None => None case Some(n) => Some(n + 1)
  }

  /** The state after all of `text`, if the object does not close inside it. */
  function Feed(text: string, s: Scan): Scan {
    if text == "" || s.Closed? then s else Feed(text[1..], Advance(s, text[0]))
  }

  lemma {:induction false} FeedAppend(a: string, b: string, s: Scan)
    ensures Feed(a + b, s) == Feed(b, Feed(a, s))
    decreases |a|
  {
    if a == "" {
      assert a + b == b;
    } else if s.Open? {
      assert (a + b)[1..] == a[1..] + b;
      FeedAppend(a[1..], b, Advance(s, a[0]));
    }
  }

  lemma {:induction false} ObjectLengthAfter(a: string, b: string, s: Scan)
    requires s.Open? && Feed(a, s).Open?
    ensures ObjectLength(a + b, s) ==
            match ObjectLength(b, Feed(a, s)) case None => None case Some(n) => Some(|a| + n)
    decreases |a|
  {
    if a == "" {
      assert a + b == b;
    } else {
      assert (a + b)[1..] == a[1..] + b;
      assert Feed(a, s) == Feed(a[1..], Advance(s, a[0]));
      ObjectLengthAfter(a[1..], b, Advance(s, a[0]));
    }
  }

  // ---- JSON texts: every way sections 2 to 7 of RFC 8259 allow an object to be written ----

  datatype StringItem = Plain(c: char) | Escaped(c: char) | Unicode(hex: string)

  datatype Value =
    | Atom(text: string)
    | Text(items: seq<StringItem>)
    | Array(blank: string, elems: seq<Element>)
    | Object(blank: string, members: seq<Member>)

  datatype Element = Element(before: string, value: Value, after: string)

  datatype Member = Member(before: string, name: seq<StringItem>, left: string, right: string, value: Value,
    after: string)

  predicate IsBlank(s: string) {
    forall i :: 0 <= i < |s| ==> s[i] in {' ', '\t', '\n', '\r'}
  }

  predicate IsHex(c: char) {
    '0' <= c <= '9' || 'a' <= c <= 'f' || 'A' <= c <= 'F'
  }

  predicate ItemOk(i: StringItem) {
    match i
    case Plain(c) => c >= ' ' && c != '\"' && c != '\\'
    case Escaped(c) => c in {'\"', '\\', '/', 'b', 'f', 'n', 'r', 't'}
    case Unicode(h) => |h| == 4 && forall c :: c in h ==> IsHex(c)
  }

  predicate ItemsOk(items: seq<StringItem>) {
    forall i :: i in items ==> ItemOk(i)
  }

  /** A literal name, or characters a number is made of (a superset of section 6). */
  predicate AtomOk(t: string) {
    || t in {"true", "false", "null"}
    || (t != "" && forall i :: 0 <= i < |t| ==> '0' <= t[i] <= '9' || t[i] in {'+', '-', '.', 'e', 'E'})
  }

  predicate Wellformed(v: Value) {
    match v
    case Atom(t) => AtomOk(t)
    case Text(items) => ItemsOk(items)
    case Array(blank, elems) =>
      IsBlank(blank) && forall e :: e in elems ==> IsBlank(e.before) && IsBlank(e.after) && Wellformed(e.value)
    case Object(blank, members) =>
      IsBlank(blank) && forall m :: m in members ==>
        && IsBlank(m.before) && IsBlank(m.left) && IsBlank(m.right) && IsBlank(m.after)
        && ItemsOk(m.name) && Wellformed(m.value)
  }

  function PrintItem(i: StringItem): string {
    match i
    case Plain(c) => [c]
    case Escaped(c) => ['\\', c]
    case Unicode(h) => ['\\', 'u'] + h
  }

  function PrintItems(items: seq<StringItem>): string {
    if items == [] then "" else PrintItem(items[0]) + PrintItems(items[1..])
  }

  function PrintString(items: seq<StringItem>): string {
    "\"" + PrintItems(items) + "\""
  }

  function Print(v: Value): string {
    match v
    case Atom(t) => t
    case Text(items) => PrintString(items)
    case Array(blank, elems) => "[" + blank + PrintElements(elems) + "]"
    case Object(blank, members) => "{" + blank + PrintMembers(members) + "}"
  }

  function PrintElements(elems: seq<Element>): string {
    if elems == [] then ""
    else
      elems[0].before + Print(elems[0].value) + elems[0].after + (if |elems| == 1 then "" else ",") +
      PrintElements(elems[1..])
  }

  function PrintMembers(members: seq<Member>): string {
    if members == [] then ""
    else
      var m := members[0];
      m.before + PrintString(m.name) + m.left + ":" + m.right + Print(m.value) + m.after
      + (if |members| == 1 then "" else ",") + PrintMembers(members[1..])
  }

  /** An object's text up to its closing brace. */
  function ObjectHead(blank: string, members: seq<Member>): string {
    "{" + blank + PrintMembers(members)
  }

  // ---- Scanning a printed value comes back to where it started ----

  /** No character of `t` means anything to the scanner outside a string. */
  predicate Inert(t: string) {
    forall i :: 0 <= i < |t| ==> t[i] != '\"' && t[i] != '{' && t[i] != '}'
  }

  /** Feeding `t` to a scanner outside strings, `d` levels deep, changes nothing. */
  ghost predicate Neutral(t: string, d: int) {
    Feed(t, Open(d, false, false)) == Open(d, false, false)
  }

  lemma {:induction false} InertIsNeutral(t: string, d: int)
    requires Inert(t)
    ensures Neutral(t, d)
  {
    if t != "" {
      InertIsNeutral(t[1..], d);
    }
  }

  lemma NeutralAppend(a: string, b: string, d: int)
    requires Neutral(a, d) && Neutral(b, d)
    ensures Neutral(a + b, d)
  {
    FeedAppend(a, b, Open(d, false, false));
  }

  lemma {:induction false} HexInString(h: string, d: int)
    requires forall c :: c in h ==> IsHex(c)
    ensures Feed(h, Open(d, true, false)) == Open(d, true, false)
  {
    if h != "" {
      assert IsHex(h[0]);
      HexInString(h[1..], d);
    }
  }

  lemma ItemInString(i: StringItem, d: int)
    requires ItemOk(i)
    ensures Feed(PrintItem(i), Open(d, true, false)) == Open(d, true, false)
  {
    match i
    case Plain(c) =>
    case Escaped(c) =>
      assert ['\\', c][1..] == [c] && [c][1..] == "";
      assert Feed(['\\', c], Open(d, true, false)) == Feed([c], Open(d, true, true)) == Feed("", Open(d, true, false));
    case Unicode(h) =>
      FeedAppend(['\\', 'u'], h, Open(d, true, false));
      assert Feed(['\\', 'u'], Open(d, true, false)) == Feed(['u'], Open(d, true, true));
      HexInString(h, d);
  }

  lemma {:induction false} ItemsInString(items: seq<StringItem>, d: int)
    requires ItemsOk(items)
    ensures Feed(PrintItems(items), Open(d, true, false)) == Open(d, true, false)
  {
    if items != [] {
      ItemInString(items[0], d);
      ItemsInString(items[1..], d);
      FeedAppend(PrintItem(items[0]), PrintItems(items[1..]), Open(d, true, false));
    }
  }

  lemma StringIsNeutral(items: seq<StringItem>, d: int)
    requires ItemsOk(items)
    ensures Neutral(PrintString(items), d)
  {
    var s := Open(d, false, false);
    FeedAppend("\"" + PrintItems(items), "\"", s);
    FeedAppend("\"", PrintItems(items), s);
    ItemsInString(items, d);
  }

  lemma {:induction false} ValueIsNeutral(v: Value, d: int)
    requires Wellformed(v) && d > 0
    ensures Neutral(Print(v), d)
    decreases v, 0
  {
    match v
    case Atom(t) => InertIsNeutral(t, d);
    case Text(items) => StringIsNeutral(items, d);
    case Array(blank, elems) =>
      InertIsNeutral("[" + blank, d);
      ElementsAreNeutral(v, elems, d);
      NeutralAppend("[" + blank, PrintElements(elems), d);
      NeutralAppend("[" + blank + PrintElements(elems), "]", d);
    case Object(blank, members) =>
      HeadOpens(v, d);
      FeedAppend(ObjectHead(blank, members), "}", Open(d, false, false));
  }

  /** Up to its closing brace, an object leaves the scanner one level deeper. */
  lemma {:induction false} HeadOpens(v: Value, d: int)
    requires Wellformed(v) && v.Object? && d >= 0
    ensures Feed(ObjectHead(v.blank, v.members), Open(d, false, false)) == Open(d + 1, false, false)
    decreases v, 0, -1
  {
    MembersAreNeutral(v, v.members, d + 1);
    InertIsNeutral(v.blank, d + 1);
    FeedAppend("{" + v.blank, PrintMembers(v.members), Open(d, false, false));
    FeedAppend("{", v.blank, Open(d, false, false));
  }

  lemma {:induction false} ElementsAreNeutral(v: Value, elems: seq<Element>, d: int)
    requires d > 0
    requires forall e :: e in elems ==>
      && e.value < v && IsBlank(e.before) && IsBlank(e.after) && Wellformed(e.value)
    ensures Neutral(PrintElements(elems), d)
    decreases v, -1, |elems|
  {
    if elems != [] {
      var e, comma := elems[0], if |elems| == 1 then "" else ",";
      InertIsNeutral(e.before, d);
      ValueIsNeutral(e.value, d);
      InertIsNeutral(e.after, d);
      InertIsNeutral(comma, d);
      ElementsAreNeutral(v, elems[1..], d);
      NeutralAppend(e.before, Print(e.value), d);
      NeutralAppend(e.before + Print(e.value), e.after, d);
      NeutralAppend(e.before + Print(e.value) + e.after, comma, d);
      NeutralAppend(e.before + Print(e.value) + e.after + comma, PrintElements(elems[1..]), d);
    }
  }

  lemma {:induction false} MembersAreNeutral(v: Value, members: seq<Member>, d: int)
    requires d > 0
    requires forall m :: m in members ==>
      && m.value < v && ItemsOk(m.name) && Wellformed(m.value)
      && IsBlank(m.before) && IsBlank(m.left) && IsBlank(m.right) && IsBlank(m.after)
    ensures Neutral(PrintMembers(members), d)
    decreases v, -1, |members|
  {
    if members != [] {
      var m, comma := members[0], if |members| == 1 then "" else ",";
      InertIsNeutral(m.before, d);
      StringIsNeutral(m.name, d);
      InertIsNeutral(m.left, d);
      InertIsNeutral(":", d);
      InertIsNeutral(m.right, d);
      ValueIsNeutral(m.value, d);
      InertIsNeutral(m.after, d);
      InertIsNeutral(comma, d);
      MembersAreNeutral(v, members[1..], d);
      var t := m.before;
      NeutralAppend(t, PrintString(m.name), d);
      t := t + PrintString(m.name);
      NeutralAppend(t, m.left, d);
      t := t + m.left;
      NeutralAppend(t, ":", d);
      t := t + ":";
      NeutralAppend(t, m.right, d);
      t := t + m.right;
      NeutralAppend(t, Print(m.value), d);
      t := t + Print(m.value);
      NeutralAppend(t, m.after, d);
      t := t + m.after;
      NeutralAppend(t, comma, d);
      t := t + comma;
      NeutralAppend(t, PrintMembers(members[1..]), d);
    }
  }

  /** The matcher stops exactly at the closing brace of the object, whatever follows. */
  lemma StopsAtClosingBrace(v: Value, rest: string)
    requires Wellformed(v) && v.Object?
    ensures ObjectLength(Print(v) + rest, START) == Some(|Print(v)|)
  {
    var head := ObjectHead(v.blank, v.members);
    HeadOpens(v, 0);
    ObjectLengthAfter(head, "}" + rest, START);
    assert Print(v) + rest == head + ("}" + rest);
  }

  // ---- The outer loop ----

  /** The inner loop as a recursion on the index: where the object that starts at `i` closes. */
  function ObjectEnd(text: string, i: nat, s: Scan): (r: Option<nat>)
    requires i <= |text| && s.Open?
    ensures r.Some? ==> i <= r.value < |text| && text[r.value] == '}'
    decreases |text| - i
  {
    if i == |text| then None
    else
      match Advance(s, text[i])
      case Closed => Some(i)
      case next => ObjectEnd(text, i + 1, next)
  }

  lemma {:induction false} ObjectEndIsLength(text: string, i: nat, s: Scan)
    requires i <= |text| && s.Open?
    ensures ObjectEnd(text, i, s) == match ObjectLength(text[i..], s) case None => None case Some(n) => Some(i + n - 1)
    decreases |text| - i
  {
    if i < |text| {
      assert text[i..][0] == text[i] && text[i..][1..] == text[i + 1..];
      var next := Advance(s, text[i]);
      if next.Open? { ObjectEndIsLength(text, i + 1, next); }
    }
  }

  /** A payload's place: from its opening brace up to but excluding `end`. */
  datatype Span = Span(begin: nat, end: nat)

  /** The payload one turn of the outer loop reaches from `start`. */
  function Next(text: string, start: nat, tag: string): (r: Option<Span>)
    requires start <= |text|
    ensures r.Some? ==> start <= r.value.begin < r.value.end <= |text|
  {
    match Find(text, tag, start)
    case None => None
    case Some(t) =>
      match Find(text, "{", t)
      case None => None
      case Some(b) =>
        match ObjectEnd(text, b, START)
        case None => None
        case Some(e) => Some(Span(b, e + 1))
  }

  /** Every payload the outer loop cuts out of `text` from `start` on, in order. */
  function Payloads(text: string, start: nat, tag: string): seq<string>
    requires start <= |text|
    decreases |text| - start
  {
    match Next(text, start, tag)
    case None => []
    case Some(s) => [Slice(text, s.begin, s.end)] + Payloads(text, s.end, tag)
  }

  /** `json.loads` may refuse a payload; a refused one is passed over. */
  function Loaded<T>(payloads: seq<string>, loads: string -> Option<T>): seq<T> {
    if payloads == [] then []
    else
      match loads(payloads[0])
      case None => Loaded(payloads[1..], loads)
      case Some(v) => [v] + Loaded(payloads[1..], loads)
  }

  datatype Candidates<+T> = Candidates(list: seq<T>)

  /** The outer loop as a recursion that carries the candidates found so far. */
  function Collect<T>(text: string, start: nat, tag: string, loads: string -> Option<T>, found: seq<T>): Candidates<T>
    requires start <= |text|
    decreases |text| - start
  {
    match Next(text, start, tag)
    case None => Candidates(found)
    case Some(s) =>
      match loads(Slice(text, s.begin, s.end))
      case None => Collect(text, s.end, tag, loads, found)
      case Some(v) => Collect(text, s.end, tag, loads, found + [v])
  }

  lemma {:induction false} CollectIsLoaded<T>(text: string, start: nat, tag: string, loads: string -> Option<T>,
    found: seq<T>)
    requires start <= |text|
    ensures Collect(text, start, tag, loads, found).list == found + Loaded(Payloads(text, start, tag), loads)
    decreases |text| - start
  {
    match Next(text, start, tag)
    case None =>
    case Some(s) =>
      var p := Slice(text, s.begin, s.end);
      assert Payloads(text, start, tag)[1..] == Payloads(text, s.end, tag);
      match loads(p)
      case None => CollectIsLoaded(text, s.end, tag, loads, found);
      case Some(v) =>
        CollectIsLoaded(text, s.end, tag, loads, found + [v]);
        assert found + [v] + Loaded(Payloads(text, s.end, tag), loads) ==
          found + ([v] + Loaded(Payloads(text, s.end, tag), loads));
  }

  /** What the loop collects: every payload in order, without those `json.loads` refuses. */
  lemma CollectAll<T>(text: string, tag: string, loads: string -> Option<T>)
    ensures Collect(text, 0, tag, loads, []).list == Loaded(Payloads(text, 0, tag), loads)
  {
    CollectIsLoaded(text, 0, tag, loads, []);
  }

  /** The inner `for` loop: the index of the closing brace, if any. */
  method MatchBrace(text: string, braceIdx: nat) returns (endIdx: Option<nat>)
    requires braceIdx < |text|
    ensures endIdx == ObjectEnd(text, braceIdx, START)
  {
    var depth, inString, escape := 0, false, false;
    for i := braceIdx to |text|
      invariant ObjectEnd(text, braceIdx, START) == ObjectEnd(text, i, Open(depth, inString, escape))
    {
      var ch := text[i];
      if inString {
        if escape {
          escape := false;
        } else if ch == '\\' {
          escape := true;
        } else if ch == '\"' {
          inString := false;
        }
        continue;
      }
      if ch == '\"' {
        inString := true;
        continue;
      }
      if ch == '{' {
        depth := depth + 1;
      } else if ch == '}' {
        depth := depth - 1;
        if depth == 0 {
          return Some(i);
        }
      }
    }
    return None;
  }

  /** One turn of the outer loop, up to the cut. */
  method NextPayload(cleaned: string, startIdx: nat, tag: string) returns (r: Option<Span>)
    requires startIdx <= |cleaned|
    ensures r == Next(cleaned, startIdx, tag)
  {
    var tagIdx := Find(cleaned, tag, startIdx);
    if tagIdx.None? { return None; }
    var braceIdx := Find(cleaned, "{", tagIdx.value);
    if braceIdx.None? { return None; }
    var endIdx := MatchBrace(cleaned, braceIdx.value);
    if endIdx.None? { return None; }
    return Some(Span(braceIdx.value, endIdx.value + 1));
  }

  /** A payload runs from a brace to a brace, so `strip` keeps it. */
  lemma StripPayload(text: string, start: nat, tag: string)
    requires start <= |text| && Next(text, start, tag).Some?
    ensures var s := Next(text, start, tag).value; Strip(Slice(text, s.begin, s.end)) == Slice(text, s.begin, s.end)
  {
    var s := Next(text, start, tag).value;
    FindFirst(text, "{", Find(text, tag, start).value);
    assert text[s.begin + 0] == "{"[0] == '{';
    StripFixed(text[s.begin..s.end]);
  }

  /** The outer loop over `<tool_call>` tags; the start index grows on every turn. */
  method ExtractCandidates<T>(cleaned: string, tag: string, loads: string -> Option<T>) returns (candidates: seq<T>)
    ensures candidates == Loaded(Payloads(cleaned, 0, tag), loads)
  {
    candidates := [];
    var startIdx := 0;
    while true
      invariant startIdx <= |cleaned|
      invariant Collect(cleaned, 0, tag, loads, []) == Collect(cleaned, startIdx, tag, loads, candidates)
      decreases |cleaned| - startIdx
    {
      var span := NextPayload(cleaned, startIdx, tag);
      if span.None? { break; }
      StripPayload(cleaned, startIdx, tag);
      var obj := loads(Strip(Slice(cleaned, span.value.begin, span.value.end)));
      if obj.Some? { candidates := candidates + [obj.value]; }
      startIdx := span.value.end;
    }
    CollectAll(cleaned, tag, loads);
  }

  /** A tagged payload with the text before its tag and between its tag and its brace. */
  datatype Call = Call(plain: string, gap: string, payload: string)

  /** The matcher closes the payload's first brace with its last character. */
  predicate Braced(payload: string) {
    payload != "" && payload[0] == '{' && ObjectLength(payload, START) == Some(|payload|)
  }

  /** Every JSON object is such a payload. */
  lemma ObjectIsBraced(v: Value)
    requires Wellformed(v) && v.Object?
    ensures Braced(Print(v))
  {
    StopsAtClosingBrace(v, "");
    assert Print(v) + "" == Print(v);
  }

  /** So is any text between braces that has no brace and no quote, JSON or not. */
  lemma PlainIsBraced(t: string)
    requires Inert(t)
    ensures Braced("{" + t + "}")
  {
    var s := Open(0, false, false);
    InertIsNeutral(t, 1);
    FeedAppend("{", t, s);
    ObjectLengthAfter("{" + t, "}", START);
  }

  lemma {:induction false} BracedAnywhere(payload: string, rest: string, s: Scan)
    requires s.Open? && ObjectLength(payload, s).Some?
    ensures ObjectLength(payload + rest, s) == ObjectLength(payload, s)
    decreases |payload|
  {
    assert (payload + rest)[0] == payload[0] && (payload + rest)[1..] == payload[1..] + rest;
    var next := Advance(s, payload[0]);
    if next.Open? { BracedAnywhere(payload[1..], rest, next); }
  }

  function Written(calls: seq<Call>, tail: string, tag: string): string {
    if calls == [] then tail
    else calls[0].plain + tag + (calls[0].gap + calls[0].payload + Written(calls[1..], tail, tag))
  }

  function Texts(calls: seq<Call>): seq<string> {
    if calls == [] then [] else [calls[0].payload] + Texts(calls[1..])
  }

  predicate CallOk(c: Call, tag: string) {
    !Contains(c.plain, tag) && '{' !in c.gap && Braced(c.payload)
  }

  lemma BracedAt(text: string, b: nat, payload: string)
    requires Braced(payload) && MatchesAt(text, payload, b)
    ensures ObjectEnd(text, b, START) == Some(b + |payload| - 1)
  {
    var rest := text[b + |payload|..];
    assert text[b..] == payload + rest by { MatchIsSlice(text, payload, b); }
    BracedAnywhere(payload, rest, START);
    ObjectEndIsLength(text, b, START);
  }

  /** The pieces of a call lie one after the other in the text. */
  predicate CallAt(text: string, i: nat, c: Call, tag: string) {
    && MatchesAt(text, c.plain, i)
    && MatchesAt(text, tag, i + |c.plain|)
    && MatchesAt(text, tag + c.gap, i + |c.plain|)
    && MatchesAt(text, c.payload, i + |c.plain| + |tag| + |c.gap|)
  }

  lemma Regroup(pre: string, a: string, b: string, c: string, d: string, e: string)
    ensures pre + (a + b + (c + d + e)) == (pre + a + b + c + d) + e
  {
  }

  lemma BraceAt(text: string, i: nat, c: Call, tag: string)
    requires '{' !in tag && CallOk(c, tag) && CallAt(text, i, c, tag)
    ensures Find(text, "{", i + |c.plain|) == Some(i + |c.plain| + |tag| + |c.gap|)
  {
    var free := tag + c.gap;
    FreeWithout(free, "{", 0);
    assert text[i + |c.plain| + |tag| + |c.gap| + 0] == c.payload[0];
    FindAfter(text, i + |c.plain|, free, "{");
  }

  /** One turn of the outer loop on a text that goes on with a call. */
  lemma FirstCall(text: string, i: nat, c: Call, tag: string)
    requires Borderless(tag) && '{' !in tag && CallOk(c, tag) && CallAt(text, i, c, tag)
    ensures var b := i + |c.plain| + |tag| + |c.gap|; Next(text, i, tag) == Some(Span(b, b + |c.payload|))
  {
    var b := i + |c.plain| + |tag| + |c.gap|;
    BraceAt(text, i, c, tag);
    BracedAt(text, b, c.payload);
    NextIs(text, i, c.plain, b, b + |c.payload|, tag);
  }

  lemma NextIs(text: string, i: nat, plain: string, b: nat, e: nat, tag: string)
    requires Borderless(tag) && !Contains(plain, tag)
    requires MatchesAt(text, plain, i) && MatchesAt(text, tag, i + |plain|)
    requires b < |text| && 0 < e && Find(text, "{", i + |plain|) == Some(b) && ObjectEnd(text, b, START) == Some(e - 1)
    ensures Next(text, i, tag) == Some(Span(b, e))
  {
    FindAfter(text, i, plain, tag);
  }

  lemma FoundPayload(text: string, i: nat, tag: string, payload: string, b: nat, e: nat)
    requires i <= |text| && Next(text, i, tag) == Some(Span(b, e))
    requires e == b + |payload| && MatchesAt(text, payload, b)
    ensures e <= |text| && Payloads(text, i, tag) == [payload] + Payloads(text, e, tag)
  {
    MatchIsSlice(text, payload, b);
  }

  /** The payloads of a text that goes on with a call are that call's and the later ones. */
  lemma FirstPayload(text: string, i: nat, c: Call, tag: string, e: nat)
    requires Borderless(tag) && '{' !in tag && CallOk(c, tag) && CallAt(text, i, c, tag)
    requires e == i + |c.plain| + |tag| + |c.gap| + |c.payload|
    ensures e <= |text| && Payloads(text, i, tag) == [c.payload] + Payloads(text, e, tag)
  {
    FirstCall(text, i, c, tag);
    FoundPayload(text, i, tag, c.payload, i + |c.plain| + |tag| + |c.gap|, e);
  }

  /** The written calls split into the first one and the later ones, which start at `next`. */
  lemma WrittenLaysOut(pre: string, calls: seq<Call>, tail: string, tag: string) returns (next: string)
    requires calls != []
    ensures CallAt(pre + Written(calls, tail, tag), |pre|, calls[0], tag)
    ensures pre + Written(calls, tail, tag) == next + Written(calls[1..], tail, tag)
    ensures |next| == |pre| + |calls[0].plain| + |tag| + |calls[0].gap| + |calls[0].payload|
  {
    var c, later := calls[0], Written(calls[1..], tail, tag);
    Regroup(pre, c.plain, tag, c.gap, c.payload, later);
    next := pre + c.plain + tag + c.gap + c.payload;
  }

  /** Nothing more can be cut out: no tag, no brace after the first tag, or one that nothing closes. */
  predicate Finished(tail: string, tag: string) {
    match Find(tail, tag, 0)
    case None => true
    case Some(t) =>
      match Find(tail, "{", t)
      case None => true
      case Some(b) => ObjectLength(tail[b..], START).None?
  }

  /** `tail` is what `text` has from `i` on. */
  predicate GoesOn(text: string, i: nat, tail: string) {
    i <= |text| && text[i..] == tail
  }

  lemma LaterOn(text: string, i: nat, tail: string, from: nat)
    requires GoesOn(text, i, tail) && from <= |tail|
    ensures GoesOn(text, i + from, tail[from..])
  {
  }

  lemma FindShifted(text: string, i: nat, tail: string, pat: string, from: nat)
    requires GoesOn(text, i, tail) && from <= |tail|
    ensures Find(text, pat, i + from) == match Find(tail, pat, from) case None => None case Some(k) => Some(i + k)
  {
    LaterOn(text, i, tail, from);
    FindSuffix(text, pat, i + from);
    FindSuffix(tail, pat, from);
  }

  lemma NeverCloses(text: string, i: nat, rest: string)
    requires GoesOn(text, i, rest) && ObjectLength(rest, START).None?
    ensures ObjectEnd(text, i, START).None?
  {
    ObjectEndIsLength(text, i, START);
  }

  lemma UnclosedIsNone(text: string, i: nat, tag: string, t: nat, b: nat)
    requires i <= |text| && Find(text, tag, i) == Some(t) && Find(text, "{", t) == Some(b)
    requires ObjectEnd(text, b, START).None?
    ensures Next(text, i, tag) == None
  {
  }

  lemma NoBraceIsNone(text: string, i: nat, tail: string, tag: string, t: nat)
    requires GoesOn(text, i, tail) && Find(text, tag, i) == Some(i + t)
    requires t <= |tail| && Find(tail, "{", t).None?
    ensures Next(text, i, tag) == None
  {
    FindShifted(text, i, tail, "{", t);
  }

  lemma NoEndIsNone(text: string, i: nat, tail: string, tag: string, t: nat, b: nat)
    requires GoesOn(text, i, tail) && Find(text, tag, i) == Some(i + t)
    requires t <= |tail| && Find(tail, "{", t) == Some(b) && ObjectLength(tail[b..], START).None?
    ensures Next(text, i, tag) == None
  {
    FindShifted(text, i, tail, "{", t);
    LaterOn(text, i, tail, b);
    NeverCloses(text, i + b, tail[b..]);
    UnclosedIsNone(text, i, tag, i + t, i + b);
  }

  lemma NoNext(text: string, i: nat, tail: string, tag: string)
    requires GoesOn(text, i, tail) && Finished(tail, tag)
    ensures Next(text, i, tag) == None
  {
    FindShifted(text, i, tail, tag, 0);
    var t := Find(tail, tag, 0);
    if t.Some? {
      var b := Find(tail, "{", t.value);
      if b.Some? {
        NoEndIsNone(text, i, tail, tag, t.value, b.value);
      } else {
        NoBraceIsNone(text, i, tail, tag, t.value);
      }
    }
  }

  /** Tagged objects come out exactly, and in order, wherever the text stands. */
  lemma {:induction false} ExtractsEveryCallAfter(
    text: string, pre: string, calls: seq<Call>, tail: string, tag: string)
    requires Borderless(tag) && '{' !in tag && text == pre + Written(calls, tail, tag)
    requires (forall c :: c in calls ==> CallOk(c, tag)) && Finished(tail, tag)
    ensures Payloads(text, |pre|, tag) == Texts(calls)
    decreases |calls|
  {
    if calls == [] {
      assert GoesOn(text, |pre|, tail);
      NoNext(text, |pre|, tail, tag);
    } else {
      var c := calls[0];
      var next := WrittenLaysOut(pre, calls, tail, tag);
      FirstPayload(text, |pre|, c, tag, |next|);
      ExtractsEveryCallAfter(text, next, calls[1..], tail, tag);
    }
  }

  /** Over any text of tagged objects, the candidates are exactly the objects, in order. */
  lemma ExtractsEveryCall(calls: seq<Call>, tail: string, tag: string)
    requires Borderless(tag) && '{' !in tag
    requires (forall c :: c in calls ==> CallOk(c, tag)) && Finished(tail, tag)
    ensures Payloads(Written(calls, tail, tag), 0, tag) == Texts(calls)
  {
    var text := Written(calls, tail, tag);
    assert text == "" + text;
    ExtractsEveryCallAfter(text, "", calls, tail, tag);
  }

  /** At the tag the server looks for. */
  lemma ExtractsEveryToolCall(calls: seq<Call>, tail: string)
    requires (forall c :: c in calls ==> CallOk(c, TAG)) && Finished(tail, TAG)
    ensures Payloads(Written(calls, tail, TAG), 0, TAG) == Texts(calls)
  {
    ExtractsEveryCall(calls, tail, TAG);
  }

  // ---- Payloads that do not load ----

  /** How many payloads `json.loads` accepts. */
  function Accepted<T>(payloads: seq<string>, loads: string -> Option<T>): nat {
    if payloads == [] then 0
    else
      var n := |payloads| - 1;
      Accepted(payloads[..n], loads) + if loads(payloads[n]).Some? then 1 else 0
  }

  lemma {:induction false} AcceptedFront<T>(payloads: seq<string>, loads: string -> Option<T>)
    requires payloads != []
    ensures Accepted(payloads, loads) == (if loads(payloads[0]).Some? then 1 else 0) + Accepted(payloads[1..], loads)
    decreases |payloads|
  {
    var n := |payloads| - 1;
    if n == 0 {
      assert payloads[..0] == [] && payloads[1..] == [];
    } else {
      assert payloads[..n][1..] == payloads[1..][..n - 1] && payloads[1..][n - 1] == payloads[n];
      AcceptedFront(payloads[..n], loads);
    }
  }

  /** The loop collects every accepted payload's value, at the place of the payload among the accepted ones. */
  lemma {:induction false} LoadedAre<T>(payloads: seq<string>, loads: string -> Option<T>, i: nat)
    requires i < |payloads|
    ensures |Loaded(payloads, loads)| == Accepted(payloads, loads)
    ensures loads(payloads[i]).Some? ==>
              && Accepted(payloads[..i], loads) < |Loaded(payloads, loads)|
              && Loaded(payloads, loads)[Accepted(payloads[..i], loads)] == loads(payloads[i]).value
    decreases |payloads|
  {
    var rest := payloads[1..];
    AcceptedFront(payloads, loads);
    if rest == [] {
      assert payloads[..0] == [];
    } else if i == 0 {
      LoadedAre(rest, loads, 0);
      assert payloads[..0] == [];
    } else {
      LoadedAre(rest, loads, i - 1);
      AcceptedFront(payloads[..i], loads);
      assert payloads[..i][1..] == rest[..i - 1] && payloads[..i][0] == payloads[0];
    }
  }

  lemma {:induction false} TextsAre(calls: seq<Call>)
    ensures |Texts(calls)| == |calls| && forall i :: 0 <= i < |calls| ==> Texts(calls)[i] == calls[i].payload
  {
    if calls != [] {
      TextsAre(calls[1..]);
      forall i | 0 < i < |calls| ensures Texts(calls)[i] == calls[i].payload {
        assert Texts(calls)[i] == Texts(calls[1..])[i - 1] && calls[1..][i - 1] == calls[i];
      }
    }
  }

  /**
   * Over any text of tagged payloads the loop collects exactly the values of those that load, in order,
   * wherever others stand among them.
   */
  lemma AcceptedCallsComeOut<T>(calls: seq<Call>, tail: string, loads: string -> Option<T>, i: nat)
    requires (forall c :: c in calls ==> CallOk(c, TAG)) && Finished(tail, TAG) && i < |calls|
    ensures var r := Loaded(Payloads(Written(calls, tail, TAG), 0, TAG), loads);
      var payloads := seq(|calls|, k requires 0 <= k < |calls| => calls[k].payload);
      && |r| == Accepted(payloads, loads)
      && (loads(calls[i].payload).Some? ==>
            && Accepted(payloads[..i], loads) < |r|
            && r[Accepted(payloads[..i], loads)] == loads(calls[i].payload).value)
  {
    var payloads := seq(|calls|, k requires 0 <= k < |calls| => calls[k].payload);
    ExtractsEveryToolCall(calls, tail);
    TextsAre(calls);
    assert Texts(calls) == payloads;
    LoadedAre(payloads, loads, i);
  }
}
