/** Single-quoting for the remote shell (cli/busibox/src/main.rs), against the POSIX shell's token rules. */
module ShellQuote {
  import opened Strings

  // ---- The printer ----

  /** `replace('\'', "'\\''")` */
  function Escape(s: string): string {
    if s == "" then "" else (if s[0] == '\'' then "'\\''" else [s[0]]) + Escape(s[1..])
  }

  function Quote(s: string): string { "'" + Escape(s) + "'" }

  // ---- The shell's reader: sections 2.2.1, 2.2.2 and 2.3 of the POSIX.1-2017 Shell Command Language ----

  datatype Token = Word(text: string) | Operator(c: char)

  /** `Outside` is a construct this reader does not cover: expansions, double quotes, comments. */
  datatype Mode = Plain | AfterBackslash | InSingleQuotes | Outside

  datatype Lexer = Lexer(mode: Mode, word: Option<string>, tokens: seq<Token>)

  const START := Lexer(Plain, None, [])

  predicate IsOperator(c: char) {
    c == ';' || c == '&' || c == '|' || c == '<' || c == '>' || c == '(' || c == ')' || c == '\n'
  }

  predicate IsBlank(c: char) { c == ' ' || c == '\t' }

  predicate IsSpecial(c: char) {
    IsOperator(c) || IsBlank(c) || c == '\'' || c == '\\' || c == '"' || c == '$' || c == '`' || c == '#'
  }

  function Add(l: Lexer, c: char): Lexer {
    Lexer(Plain, Some(if l.word.Some? then l.word.value + [c] else [c]), l.tokens)
  }

  /** Ends the current word, if there is one. */
  function Delimit(l: Lexer): Lexer {
    match l.word
    case None => l
    case Some(w) => Lexer(l.mode, None, l.tokens + [Word(w)])
  }

  function Step(l: Lexer, c: char): Lexer {
    match l.mode
    case Outside => l
    case AfterBackslash => if c == '\n' then l.(mode := Plain) else Add(l, c)
    case InSingleQuotes =>
      if c == '\'' then l.(mode := Plain) else Add(l, c).(mode := InSingleQuotes)
    case Plain =>
      if c == '\'' then Lexer(InSingleQuotes, Some(if l.word.Some? then l.word.value else ""), l.tokens)
      else if c == '\\' then l.(mode := AfterBackslash)
      else if IsBlank(c) then Delimit(l)
      else if IsOperator(c) then var d := Delimit(l); d.(tokens := d.tokens + [Operator(c)])
      else if c == '"' || c == '$' || c == '`' || (c == '#' && l.word.None?) then l.(mode := Outside)
      else Add(l, c)
  }

  function Read(l: Lexer, s: string): Lexer
    decreases |s|
  {
    if s == "" then l else Read(Step(l, s[0]), s[1..])
  }

  lemma {:induction false} ReadAppend(l: Lexer, a: string, b: string)
    ensures Read(l, a + b) == Read(Read(l, a), b)
    decreases |a|
  {
    if a == "" {
      assert a + b == b;
    } else {
      ReadAppend(Step(l, a[0]), a[1..], b);
      assert (a + b)[1..] == a[1..] + b;
    }
  }

  // ---- Reading back what was quoted ----

  lemma {:induction false} EscapeReadsBack(w: string, tokens: seq<Token>, s: string)
    ensures Read(Lexer(InSingleQuotes, Some(w), tokens), Escape(s)) == Lexer(InSingleQuotes, Some(w + s), tokens)
    decreases |s|
  {
    var l := Lexer(InSingleQuotes, Some(w), tokens);
    if s == "" {
      assert w + s == w;
    } else {
      var first := if s[0] == '\'' then "'\\''" else [s[0]];
      ReadAppend(l, first, Escape(s[1..]));
      ReadFirst(w, tokens, s[0]);
      EscapeReadsBack(w + [s[0]], tokens, s[1..]);
      assert w + [s[0]] + s[1..] == w + s;
    }
  }

  lemma ReadFirst(w: string, tokens: seq<Token>, c: char)
    ensures Read(Lexer(InSingleQuotes, Some(w), tokens), if c == '\'' then "'\\''" else [c]) ==
            Lexer(InSingleQuotes, Some(w + [c]), tokens)
  {
    if c == '\'' {
      var l := Lexer(InSingleQuotes, Some(w), tokens);
      var text := "'\\''";
      assert text[1..][0] == '\\' && text[1..][1..][0] == '\'' && text[1..][1..][1..] == "'";
    } else {
      assert [c][1..] == "";
    }
  }

  function Begun(word: Option<string>): string {
    if word.Some? then word.value else ""
  }

  /** A quoted text adds exactly itself to the word being read, whatever it contains. */
  lemma QuoteReadsBack(word: Option<string>, tokens: seq<Token>, s: string)
    ensures Read(Lexer(Plain, word, tokens), Quote(s)) == Lexer(Plain, Some(Begun(word) + s), tokens)
  {
    var l := Lexer(Plain, word, tokens);
    var open := Lexer(InSingleQuotes, Some(Begun(word)), tokens);
    ReadAppend(l, "'", Escape(s) + "'");
    assert Quote(s) == "'" + (Escape(s) + "'");
    ReadAppend(open, Escape(s), "'");
    EscapeReadsBack(Begun(word), tokens, s);
  }

  lemma {:induction false} PlainWord(word: Option<string>, tokens: seq<Token>, s: string)
    requires s != "" && forall i :: 0 <= i < |s| ==> !IsSpecial(s[i])
    ensures Read(Lexer(Plain, word, tokens), s) == Lexer(Plain, Some(Begun(word) + s), tokens)
    decreases |s|
  {
    var next := Step(Lexer(Plain, word, tokens), s[0]);
    assert "" + [s[0]] == [s[0]];
    assert next == Lexer(Plain, Some(Begun(word) + [s[0]]), tokens);
    if |s| > 1 {
      PlainWord(next.word, tokens, s[1..]);
      assert Begun(word) + [s[0]] + s[1..] == Begun(word) + s;
    } else {
      assert s[1..] == "" && s == [s[0]];
    }
  }

  // ---- Exports ----

  datatype Export = Export(name: string, value: string)

  /** A name of letters, digits and underscores. */
  predicate IsName(name: string) {
    name != "" && forall i :: 0 <= i < |name| ==>
      'a' <= name[i] <= 'z' || 'A' <= name[i] <= 'Z' || '0' <= name[i] <= '9' || name[i] == '_'
  }

  function ExportText(e: Export): string {
    "export" + " " + e.name + "=" + Quote(e.value) + ";" + " "
  }

  /** The exports one after the other, as the command is put together. */
  function ExportsText(es: seq<Export>): string {
    if es == [] then "" else ExportText(es[0]) + ExportsText(es[1..])
  }

  function Assignment(e: Export): string { e.name + "=" + e.value }

  function ExportTokens(es: seq<Export>): seq<Token> {
    if es == [] then []
    else [Word("export"), Word(Assignment(es[0])), Operator(';')] + ExportTokens(es[1..])
  }

  lemma PlainWordThen(tokens: seq<Token>, s: string, c: char)
    requires s != "" && (forall i :: 0 <= i < |s| ==> !IsSpecial(s[i])) && IsBlank(c)
    ensures Read(Lexer(Plain, None, tokens), s + [c]) == Lexer(Plain, None, tokens + [Word(s)])
  {
    var l := Lexer(Plain, None, tokens);
    PlainWord(None, tokens, s);
    ReadAppend(l, s, [c]);
    assert "" + s == s && [c][1..] == "";
  }

  lemma AssignmentReads(tokens: seq<Token>, e: Export)
    requires IsName(e.name)
    ensures Read(Lexer(Plain, None, tokens), e.name + "=" + Quote(e.value)) == Lexer(Plain, Some(Assignment(e)), tokens)
  {
    var name := e.name + "=";
    ReadAppend(Lexer(Plain, None, tokens), name, Quote(e.value));
    PlainWord(None, tokens, name);
    assert "" + name == name;
    QuoteReadsBack(Some(name), tokens, e.value);
  }

  lemma OneExport(tokens: seq<Token>, e: Export)
    requires IsName(e.name)
    ensures Read(Lexer(Plain, None, tokens), ExportText(e)) ==
            Lexer(Plain, None, tokens + [Word("export"), Word(Assignment(e)), Operator(';')])
  {
    var first, middle, last := "export" + " ", e.name + "=" + Quote(e.value), ";" + " ";
    assert ExportText(e) == first + (middle + last);
    ReadAppend(Lexer(Plain, None, tokens), first, middle + last);
    PlainWordThen(tokens, "export", ' ');
    var more := tokens + [Word("export")];
    ReadAppend(Lexer(Plain, None, more), middle, last);
    AssignmentReads(more, e);
    EndOfExport(more, Assignment(e));
    assert more + [Word(Assignment(e))] + [Operator(';')] ==
      tokens + [Word("export"), Word(Assignment(e)), Operator(';')];
  }

  lemma EndOfExport(tokens: seq<Token>, w: string)
    ensures Read(Lexer(Plain, Some(w), tokens), ";" + " ") == Lexer(Plain, None, tokens + [Word(w)] + [Operator(';')])
  {
    var l := Lexer(Plain, Some(w), tokens);
    ReadAppend(l, ";", " ");
    assert ";"[1..] == "" && " "[1..] == "";
  }

  /** Any sequence of exports is read as those export commands, each with its intended value. */
  lemma {:induction false} ExportsReadBack(tokens: seq<Token>, es: seq<Export>)
    requires forall i :: 0 <= i < |es| ==> IsName(es[i].name)
    ensures Read(Lexer(Plain, None, tokens), ExportsText(es)) == Lexer(Plain, None, tokens + ExportTokens(es))
    decreases |es|
  {
    if es == [] {
      assert tokens + [] == tokens;
    } else {
      var one := [Word("export"), Word(Assignment(es[0])), Operator(';')];
      ReadAppend(Lexer(Plain, None, tokens), ExportText(es[0]), ExportsText(es[1..]));
      OneExport(tokens, es[0]);
      ExportsReadBack(tokens + one, es[1..]);
      assert tokens + one + ExportTokens(es[1..]) == tokens + (one + ExportTokens(es[1..]));
    }
  }

  // ---- What the exports assign ----

  /** `export NAME=VALUE` commands, run in order; the name ends at the first equals sign. */
  function Run(tokens: seq<Token>, env: map<string, string>): map<string, string>
    decreases |tokens|
  {
    if |tokens| >= 3 && tokens[0] == Word("export") && tokens[1].Word? && tokens[2] == Operator(';')
      && Find(tokens[1].text, "=", 0).Some?
    then
      var i := Find(tokens[1].text, "=", 0).value;
      Run(tokens[3..], env[tokens[1].text[..i] := tokens[1].text[i + 1..]])
    else env
  }

  function Intended(es: seq<Export>, env: map<string, string>): map<string, string>
    decreases |es|
  {
    if es == [] then env else Intended(es[1..], env[es[0].name := es[0].value])
  }

  lemma {:induction false} ExportsAssign(es: seq<Export>, env: map<string, string>)
    requires forall i :: 0 <= i < |es| ==> IsName(es[i].name)
    ensures Run(ExportTokens(es), env) == Intended(es, env)
    decreases |es|
  {
    if es != [] {
      var e, tokens := es[0], ExportTokens(es);
      var text := Assignment(e);
      FreeWithout(e.name, "=", 0);
      FindAfterFree(e.name, "=", e.value);
      assert text == e.name + "=" + e.value;
      assert text[..|e.name|] == e.name && text[|e.name| + 1..] == e.value;
      assert tokens[3..] == ExportTokens(es[1..]);
      ExportsAssign(es[1..], env[e.name := e.value]);
    }
  }

  /** Any sequence of exports assigns exactly the intended values, whatever characters they contain. */
  lemma ExportsAreFaithful(es: seq<Export>, env: map<string, string>)
    requires forall i :: 0 <= i < |es| ==> IsName(es[i].name)
    ensures var l := Read(START, ExportsText(es));
            l.mode.Plain? && l.word.None? && Run(l.tokens, env) == Intended(es, env)
  {
    ExportsReadBack([], es);
    assert [] + ExportTokens(es) == ExportTokens(es);
    ExportsAssign(es, env);
  }

  /** `printf '%s\n' '…' >`: the text to be written is the command's second argument, as it is. */
  lemma PrintfReadsBack(text: string)
    ensures Read(START, "printf" + " " + (Quote("%s\\n") + " " + (Quote(text) + " " + ">"))) ==
            Lexer(Plain, None, [Word("printf"), Word("%s\\n"), Word(text), Operator('>')])
  {
    var format := "%s\\n";
    var one, two := [Word("printf")], [Word("printf"), Word(format)];
    ReadAppend(START, "printf" + " ", Quote(format) + " " + (Quote(text) + " " + ">"));
    PlainWordThen([], "printf", ' ');
    assert [] + one == one;
    ReadAppend(Lexer(Plain, None, one), Quote(format) + " ", Quote(text) + " " + ">");
    QuoteThenBlank(one, format);
    assert one + [Word(format)] == two;
    ReadAppend(Lexer(Plain, None, two), Quote(text) + " ", ">");
    QuoteThenBlank(two, text);
    assert ">"[1..] == "" && two + [Word(text)] + [Operator('>')] ==
      [Word("printf"), Word(format), Word(text), Operator('>')];
  }

  lemma QuoteThenBlank(tokens: seq<Token>, text: string)
    ensures Read(Lexer(Plain, None, tokens), Quote(text) + " ") == Lexer(Plain, None, tokens + [Word(text)])
  {
    ReadAppend(Lexer(Plain, None, tokens), Quote(text), " ");
    QuoteReadsBack(None, tokens, text);
    assert "" + text == text && " "[1..] == "";
  }

  // ---- Without the escaping ----

  function Quotes(s: string): nat {
    if s == "" then 0 else (if s[0] == '\'' then 1 else 0) + Quotes(s[1..])
  }

  lemma {:induction false} ReadAddsTokens(l: Lexer, s: string)
    ensures l.tokens <= Read(l, s).tokens
    decreases |s|
  {
    if s != "" {
      ReadAddsTokens(Step(l, s[0]), s[1..]);
    }
  }

  /** While no token is completed, each quote read makes the word fall short of the text by one more character. */
  lemma {:induction false} QuotesAreLost(l: Lexer, s: string)
    requires Read(l, s).tokens == l.tokens
    ensures |Begun(Read(l, s).word)| + Quotes(s) <= |Begun(l.word)| + |s| + (if l.mode.AfterBackslash? then 1 else 0) ||
            Read(l, s).mode.Outside?
    decreases |s|
  {
    if s != "" {
      ReadAddsTokens(Step(l, s[0]), s[1..]);
      QuotesAreLost(Step(l, s[0]), s[1..]);
    }
  }

  /** Between bare quotes a text reads back as itself if and only if it has no quote. */
  lemma BareQuotesReadBack(s: string)
    ensures Read(START, "'" + s + "'") == Lexer(Plain, Some(s), []) <==> '\'' !in s
  {
    if '\'' !in s {
      NothingToEscape(s);
      QuoteReadsBack(None, [], s);
      assert "" + s == s;
    } else if Read(START, "'" + s + "'") == Lexer(Plain, Some(s), []) {
      QuotesAreLost(START, "'" + s + "'");
      QuotesAppend("'" + s, "'");
      QuotesAppend("'", s);
      SomeQuotes(s);
    }
  }

  lemma {:induction false} NothingToEscape(s: string)
    requires '\'' !in s
    ensures Escape(s) == s
  {
    if s != "" { NothingToEscape(s[1..]); }
  }

  lemma {:induction false} QuotesAppend(a: string, b: string)
    ensures Quotes(a + b) == Quotes(a) + Quotes(b)
  {
    if a == "" {
      assert a + b == b;
    } else {
      QuotesAppend(a[1..], b);
      assert (a + b)[1..] == a[1..] + b;
    }
  }

  lemma {:induction false} SomeQuotes(s: string)
    requires '\'' in s
    ensures Quotes(s) > 0
  {
    if s[0] != '\'' { SomeQuotes(s[1..]); }
  }
}
