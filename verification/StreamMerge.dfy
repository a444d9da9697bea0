/** Two pipes drained into one queue and one consumer (scripts/host-agent/host-agent.py, `mlx_start`). */
module StreamMerge {
  import opened Strings

  datatype Stream = Out | Err

  datatype Item = Line(stream: Stream, message: string) | End

  /** Idle once its `None` is on the queue; dead once `readline` has raised on an overlong line. */
  datatype Phase = Reading | Ended | Dead

  /** A pipe, what `readline` holds of the current line, and the drainer's phase. */
  datatype Drain = Drain(pipe: string, line: string, phase: Phase)

  /** `script` is what the process still has to write, in its order. */
  datatype State = State(
    script: seq<(Stream, char)>, out: Drain, err: Drain, queue: seq<Item>, done: nat, yielded: seq<Item>)

  /** The pipes' capacity and the reader's line limit. */
  datatype Limits = Limits(capacity: nat, line: nat)

  datatype Step = Write | Read(s: Stream) | AtEof(s: Stream) | Take

  function Of(st: State, s: Stream): Drain {
    if s.Out? then st.out else st.err
  }

  function With(st: State, s: Stream, d: Drain): State {
    if s.Out? then st.(out := d) else st.(err := d)
  }

  function Start(script: seq<(Stream, char)>): State {
    State(script, Drain("", "", Reading), Drain("", "", Reading), [], 0, [])
  }

  /** The message of a line, unless it is blank. */
  function Kept(line: string): seq<string> {
    var m := TrimEnd(line);
    if m == "" then [] else [m]
  }

  /** The message is the line without the whitespace at its end; a line of nothing else has none. */
  lemma KeptMeans(line: string)
    ensures Kept(line) == [] <==> forall k :: 0 <= k < |line| ==> IsSpace(line[k])
    ensures Kept(line) != [] ==> |Kept(line)| == 1 && var m := Kept(line)[0];
      && m != "" && m <= line && !IsSpace(m[|m| - 1]) && forall k :: |m| <= k < |line| ==> IsSpace(line[k])
  {
    var i := TrimEndIs(line);
  }

  function Lines(s: Stream, messages: seq<string>): seq<Item> {
    seq(|messages|, i requires 0 <= i < |messages| => Line(s, messages[i]))
  }

  predicate Enabled(st: State, step: Step, limits: Limits) {
    match step
    case Write => st.script != [] && |Of(st, st.script[0].0).pipe| < limits.capacity
    case Read(s) => Of(st, s).phase.Reading? && Of(st, s).pipe != ""
    case AtEof(s) => Of(st, s).phase.Reading? && Of(st, s).pipe == "" && st.script == []
    case Take => st.done < 2 && st.queue != []
  }

  function ReadOne(st: State, s: Stream, limits: Limits): State
    requires Of(st, s).pipe != ""
  {
    var d := Of(st, s);
    var c, rest := d.pipe[0], d.pipe[1..];
    if c == '\n' then
      With(st, s, Drain(rest, "", Reading)).(queue := st.queue + Lines(s, Kept(d.line + [c])))
    else if |d.line| >= limits.line then With(st, s, Drain(rest, d.line, Dead))
    else With(st, s, Drain(rest, d.line + [c], Reading))
  }

  function Do(st: State, step: Step, limits: Limits): State
    requires Enabled(st, step, limits)
  {
    match step
    case Write =>
      var (s, c) := st.script[0];
      With(st, s, Of(st, s).(pipe := Of(st, s).pipe + [c])).(script := st.script[1..])
    case Read(s) => ReadOne(st, s, limits)
    case AtEof(s) =>
      var d := Of(st, s);
      if d.line != "" then With(st, s, d.(line := "")).(queue := st.queue + Lines(s, Kept(d.line)))
      else With(st, s, d.(phase := Ended)).(queue := st.queue + [End])
    case Take =>
      if st.queue[0].End? then st.(queue := st.queue[1..], done := st.done + 1)
      else st.(queue := st.queue[1..], yielded := st.yielded + [st.queue[0]])
  }

  predicate IsRun(st: State, steps: seq<Step>, limits: Limits)
    decreases |steps|
  {
    steps == [] || (Enabled(st, steps[0], limits) && IsRun(Do(st, steps[0], limits), steps[1..], limits))
  }

  function After(st: State, steps: seq<Step>, limits: Limits): State
    requires IsRun(st, steps, limits)
    decreases |steps|
  {
    if steps == [] then st else After(Do(st, steps[0], limits), steps[1..], limits)
  }

  // ---- What each stream should deliver ----

  /** What the process writes on one stream. */
  function Text(script: seq<(Stream, char)>, s: Stream): string {
    if script == [] then ""
    else if script[0].0 == s then [script[0].1] + Text(script[1..], s)
    else Text(script[1..], s)
  }

  /** The messages of a text that continues `line`. */
  function Messages(text: string, line: string): seq<string>
    decreases |text|
  {
    if text == "" then Kept(line)
    else if text[0] == '\n' then Kept(line) + Messages(text[1..], "")
    else Messages(text[1..], line + [text[0]])
  }

  /** No line of a text that continues a line of `n` characters is longer than `limit`. */
  predicate Fits(text: string, n: nat, limit: nat)
    decreases |text|
  {
    text == "" || if text[0] == '\n' then Fits(text[1..], 0, limit) else n < limit && Fits(text[1..], n + 1, limit)
  }

  function Sent(items: seq<Item>, s: Stream): seq<string> {
    if items == [] then []
    else if items[0].Line? && items[0].stream == s then [items[0].message] + Sent(items[1..], s)
    else Sent(items[1..], s)
  }

  function Ends(items: seq<Item>): nat {
    if items == [] then 0 else (if items[0].End? then 1 else 0) + Ends(items[1..])
  }

  function Joined(lines: seq<string>): string
    requires lines != []
  {
    if |lines| == 1 then lines[0] else lines[0] + "\n" + Joined(lines[1..])
  }

  function AllKept(lines: seq<string>): seq<string> {
    if lines == [] then [] else Kept(lines[0]) + AllKept(lines[1..])
  }

  lemma {:induction false} MessagesAfterLine(line: string, rest: string, head: string)
    requires '\n' !in line
    ensures Messages(line + rest, head) == Messages(rest, head + line)
    decreases |line|
  {
    if line == "" {
      assert line + rest == rest && head + line == head;
    } else {
      MessagesAfterLine(line[1..], rest, head + [line[0]]);
      assert (line + rest)[1..] == line[1..] + rest;
      assert head + [line[0]] + line[1..] == head + line;
    }
  }

  /** The messages of a text made of lines are those lines, right-trimmed, without the blank ones. */
  lemma {:induction false} MessagesAreTheLines(lines: seq<string>)
    requires lines != [] && forall l :: l in lines ==> '\n' !in l
    ensures Messages(Joined(lines), "") == AllKept(lines)
  {
    if |lines| == 1 {
      MessagesAfterLine(lines[0], "", "");
      assert lines[0] + "" == lines[0] && "" + lines[0] == lines[0];
      assert AllKept(lines) == Kept(lines[0]) + AllKept([]);
    } else {
      var rest := "\n" + Joined(lines[1..]);
      MessagesAfterLine(lines[0], rest, "");
      assert Joined(lines) == lines[0] + rest && "" + lines[0] == lines[0];
      assert rest[1..] == Joined(lines[1..]);
      MessagesAreTheLines(lines[1..]);
    }
  }

  lemma {:induction false} FitsAfterLine(line: string, rest: string, n: nat, limit: nat)
    requires '\n' !in line && n <= limit
    ensures Fits(line + rest, n, limit) <==> n + |line| <= limit && Fits(rest, n + |line|, limit)
    decreases |line|
  {
    if line == "" {
      assert line + rest == rest;
    } else {
      assert (line + rest)[1..] == line[1..] + rest;
      if n < limit { FitsAfterLine(line[1..], rest, n + 1, limit); }
    }
  }

  /** A text fits if and only if each of its lines does. */
  lemma {:induction false} FitsMeansEveryLine(lines: seq<string>, limit: nat)
    requires lines != [] && forall l :: l in lines ==> '\n' !in l
    ensures Fits(Joined(lines), 0, limit) <==> forall l :: l in lines ==> |l| <= limit
  {
    if |lines| == 1 {
      FitsAfterLine(lines[0], "", 0, limit);
      assert lines[0] + "" == lines[0];
    } else {
      var rest := "\n" + Joined(lines[1..]);
      FitsAfterLine(lines[0], rest, 0, limit);
      assert Joined(lines) == lines[0] + rest && rest[1..] == Joined(lines[1..]);
      FitsMeansEveryLine(lines[1..], limit);
      assert forall l :: l in lines <==> l == lines[0] || l in lines[1..];
    }
  }

  // ---- Every run ----

  lemma {:induction false} SentAppend(items: seq<Item>, more: seq<Item>, s: Stream)
    ensures Sent(items + more, s) == Sent(items, s) + Sent(more, s)
    ensures Ends(items + more) == Ends(items) + Ends(more)
  {
    if items == [] {
      assert items + more == more;
    } else {
      assert (items + more)[1..] == items[1..] + more;
      SentAppend(items[1..], more, s);
    }
  }

  lemma SentLines(t: Stream, line: string, s: Stream)
    ensures Sent(Lines(t, Kept(line)), s) == if s == t then Kept(line) else []
    ensures Ends(Lines(t, Kept(line))) == 0
  {
    var items := Lines(t, Kept(line));
    assert |items| <= 1;
    assert items != [] ==> items[1..] == [];
  }

  lemma NewlineIsTrimmed(line: string)
    ensures Kept(line + ['\n']) == Kept(line)
  {
    assert (line + ['\n'])[..|line|] == line;
  }

  /** Everything put on the queue so far for one stream. */
  function Put(st: State, s: Stream): seq<string> {
    Sent(st.yielded, s) + Sent(st.queue, s)
  }

  /** One stream's books: what it has delivered and what it still holds make up what it should deliver. */
  ghost predicate Books(put: seq<string>, d: Drain, rest: string, over: bool, total: string, limit: nat) {
    match d.phase
    case Reading =>
      && put + Messages(d.pipe + rest, d.line) == Messages(total, "")
      && (Fits(d.pipe + rest, |d.line|, limit) <==> Fits(total, 0, limit))
    case Ended => over && put == Messages(total, "") && Fits(total, 0, limit)
    case Dead => put <= Messages(total, "") && !Fits(total, 0, limit)
  }

  ghost predicate StreamOk(st: State, s: Stream, total: string, limits: Limits) {
    Books(Put(st, s), Of(st, s), Text(st.script, s), st.script == [], total, limits.line)
  }

  function HasEnded(d: Drain): nat { if d.phase.Ended? then 1 else 0 }

  /** The sentinels are the ends of the drainers, and once both have ended nothing follows the last sentinel. */
  predicate EndsOk(st: State) {
    && st.done + Ends(st.queue) == HasEnded(st.out) + HasEnded(st.err)
    && (st.out.phase.Ended? && st.err.phase.Ended? && st.queue != [] ==> st.queue[|st.queue| - 1].End?)
    && forall i :: 0 <= i < |st.yielded| ==> st.yielded[i].Line?
  }

  lemma WriteKeeps(st: State, s: Stream, total: string, limits: Limits)
    requires Enabled(st, Write, limits) && StreamOk(st, s, total, limits)
    ensures StreamOk(Do(st, Write, limits), s, total, limits)
  {
    var next := Do(st, Write, limits);
    if st.script[0].0 == s {
      assert Of(st, s).pipe + Text(st.script, s) == Of(next, s).pipe + Text(next.script, s);
    } else {
      assert Of(next, s) == Of(st, s) && Text(next.script, s) == Text(st.script, s);
    }
  }

  lemma PutMore(st: State, queue: seq<Item>, s: Stream)
    ensures Sent(st.yielded, s) + Sent(st.queue + queue, s) == Put(st, s) + Sent(queue, s)
  {
    SentAppend(st.queue, queue, s);
  }

  /** Reading one character keeps the books. */
  lemma ReadBooks(put: seq<string>, d: Drain, rest: string, over: bool, total: string, limit: nat)
    requires Books(put, d, rest, over, total, limit) && d.phase.Reading? && d.pipe != ""
    ensures d.pipe[0] == '\n' ==> Books(put + Kept(d.line), Drain(d.pipe[1..], "", Reading), rest, over, total, limit)
    ensures d.pipe[0] != '\n' && |d.line| >= limit ==>
        Books(put, Drain(d.pipe[1..], d.line, Dead), rest, over, total, limit)
    ensures d.pipe[0] != '\n' && |d.line| < limit ==>
              Books(put, Drain(d.pipe[1..], d.line + [d.pipe[0]], Reading), rest, over, total, limit)
  {
    var ahead := d.pipe + rest;
    assert ahead[1..] == d.pipe[1..] + rest;
    if d.pipe[0] == '\n' {
      var later := Messages(ahead[1..], "");
      assert put + (Kept(d.line) + later) == (put + Kept(d.line)) + later;
    }
  }

  /** What reading one character of stream `t` puts on the queue for stream `s`. */
  lemma ReadPuts(st: State, t: Stream, s: Stream, limits: Limits)
    requires Of(st, t).pipe != ""
    ensures Put(ReadOne(st, t, limits), s) ==
            if s == t && Of(st, t).pipe[0] == '\n' then Put(st, s) + Kept(Of(st, t).line) else Put(st, s)
  {
    var line := Of(st, t).line + [Of(st, t).pipe[0]];
    PutMore(st, Lines(t, Kept(line)), s);
    SentLines(t, line, s);
    NewlineIsTrimmed(Of(st, t).line);
  }

  lemma ReadKeeps(st: State, t: Stream, s: Stream, total: string, limits: Limits)
    requires Enabled(st, Read(t), limits) && StreamOk(st, s, total, limits)
    ensures StreamOk(Do(st, Read(t), limits), s, total, limits)
  {
    ReadPuts(st, t, s, limits);
    if s == t { ReadBooks(Put(st, s), Of(st, s), Text(st.script, s), st.script == [], total, limits.line); }
  }

  lemma AtEofKeeps(st: State, t: Stream, s: Stream, total: string, limits: Limits)
    requires Enabled(st, AtEof(t), limits) && StreamOk(st, s, total, limits)
    ensures StreamOk(Do(st, AtEof(t), limits), s, total, limits)
  {
    var d, next := Of(st, t), Do(st, AtEof(t), limits);
    PutMore(st, Lines(t, Kept(d.line)), s);
    SentLines(t, d.line, s);
    PutMore(st, [End], s);
    if s == t {
      assert d.pipe + Text(st.script, s) == "";
    } else {
      assert Of(next, s) == Of(st, s);
      assert Put(next, s) == Put(st, s);
    }
  }

  lemma SentMoved(front: seq<Item>, items: seq<Item>, s: Stream)
    requires items != []
    ensures Sent(front + [items[0]], s) + Sent(items[1..], s) == Sent(front, s) + Sent(items, s)
    ensures items[0].End? ==> Sent(items[1..], s) == Sent(items, s)
  {
    SentAppend(front, [items[0]], s);
  }

  lemma TakeKeeps(st: State, s: Stream, total: string, limits: Limits)
    requires Enabled(st, Take, limits) && StreamOk(st, s, total, limits)
    ensures StreamOk(Do(st, Take, limits), s, total, limits)
  {
    SentMoved(st.yielded, st.queue, s);
    var next := Do(st, Take, limits);
    assert Put(next, s) == Put(st, s);
    assert Of(next, s) == Of(st, s);
  }

  lemma StepKeepsStream(st: State, step: Step, s: Stream, total: string, limits: Limits)
    requires Enabled(st, step, limits) && StreamOk(st, s, total, limits)
    ensures StreamOk(Do(st, step, limits), s, total, limits)
  {
    match step
    case Write => WriteKeeps(st, s, total, limits);
    case Read(t) => ReadKeeps(st, t, s, total, limits);
    case AtEof(t) => AtEofKeeps(st, t, s, total, limits);
    case Take => TakeKeeps(st, s, total, limits);
  }

  lemma StepKeepsEnds(st: State, step: Step, limits: Limits)
    requires Enabled(st, step, limits) && EndsOk(st)
    ensures EndsOk(Do(st, step, limits))
  {
    match step
    case Write =>
    case Read(t) => ReadKeepsEnds(st, t, limits);
    case AtEof(t) => AtEofKeepsEnds(st, t, limits);
    case Take =>
  }

  lemma LinesAddNoEnd(items: seq<Item>, t: Stream, line: string)
    ensures Ends(items + Lines(t, Kept(line))) == Ends(items)
  {
    SentAppend(items, Lines(t, Kept(line)), t);
  }

  lemma ReadKeepsEnds(st: State, t: Stream, limits: Limits)
    requires Enabled(st, Read(t), limits) && EndsOk(st)
    ensures EndsOk(Do(st, Read(t), limits))
  {
    LinesAddNoEnd(st.queue, t, Of(st, t).line + [Of(st, t).pipe[0]]);
    var next := Do(st, Read(t), limits);
    assert Ends(next.queue) == Ends(st.queue);
  }

  lemma AtEofKeepsEnds(st: State, t: Stream, limits: Limits)
    requires Enabled(st, AtEof(t), limits) && EndsOk(st)
    ensures EndsOk(Do(st, AtEof(t), limits))
  {
    if Of(st, t).line != "" {
      LinesAddNoEnd(st.queue, t, Of(st, t).line);
    } else {
      SentAppend(st.queue, [End], t);
    }
  }

  lemma {:induction false} EndIsCounted(items: seq<Item>)
    requires items != [] && items[|items| - 1].End?
    ensures Ends(items) > 0
  {
    if |items| > 1 { EndIsCounted(items[1..]); }
  }

  ghost predicate Inv(st: State, script: seq<(Stream, char)>, limits: Limits) {
    EndsOk(st) && StreamOk(st, Out, Text(script, Out), limits) && StreamOk(st, Err, Text(script, Err), limits)
  }

  lemma {:induction false} RunKeepsInv(st: State, steps: seq<Step>, script: seq<(Stream, char)>, limits: Limits)
    requires IsRun(st, steps, limits) && Inv(st, script, limits)
    ensures Inv(After(st, steps, limits), script, limits)
    decreases |steps|
  {
    if steps != [] {
      StepKeepsEnds(st, steps[0], limits);
      StepKeepsStream(st, steps[0], Out, Text(script, Out), limits);
      StepKeepsStream(st, steps[0], Err, Text(script, Err), limits);
      RunKeepsInv(Do(st, steps[0], limits), steps[1..], script, limits);
    }
  }

  /** The states the merge can be in. */
  ghost predicate Reachable(st: State, script: seq<(Stream, char)>, limits: Limits) {
    exists steps :: IsRun(Start(script), steps, limits) && After(Start(script), steps, limits) == st
  }

  lemma ReachableInv(st: State, script: seq<(Stream, char)>, limits: Limits)
    requires Reachable(st, script, limits)
    ensures Inv(st, script, limits)
  {
    var steps :| IsRun(Start(script), steps, limits) && After(Start(script), steps, limits) == st;
    assert Inv(Start(script), script, limits) by {
      assert "" + Text(script, Out) == Text(script, Out) && "" + Text(script, Err) == Text(script, Err);
    }
    RunKeepsInv(Start(script), steps, script, limits);
  }

  /** Every line both streams write is within the reader's limit. */
  predicate AllFit(script: seq<(Stream, char)>, limits: Limits) {
    Fits(Text(script, Out), 0, limits.line) && Fits(Text(script, Err), 0, limits.line)
  }

  /** At any moment the messages yielded for a stream are the first of those it should deliver, in order. */
  lemma YieldedInOrder(st: State, script: seq<(Stream, char)>, limits: Limits, s: Stream)
    requires Reachable(st, script, limits)
    ensures Sent(st.yielded, s) <= Messages(Text(script, s), "")
  {
    ReachableInv(st, script, limits);
  }

  /**
   * When the consumer leaves its loop, both streams have ended, the queue is empty and every message was
   * yielded once.
   */
  lemma LeavingMeansAllDelivered(st: State, script: seq<(Stream, char)>, limits: Limits)
    requires Reachable(st, script, limits) && st.done >= 2
    ensures st.script == [] && st.out.phase.Ended? && st.err.phase.Ended? && st.queue == []
    ensures Sent(st.yielded, Out) == Messages(Text(script, Out), "")
    ensures Sent(st.yielded, Err) == Messages(Text(script, Err), "")
  {
    ReachableInv(st, script, limits);
    if st.queue != [] { EndIsCounted(st.queue); }
  }

  /** No reachable unfinished state is stuck, whatever the (non-zero) pipe capacity, if every line fits. */
  lemma NeverStuck(st: State, script: seq<(Stream, char)>, limits: Limits) returns (step: Step)
    requires Reachable(st, script, limits) && limits.capacity > 0 && AllFit(script, limits)
    requires st.done < 2
    ensures Enabled(st, step, limits)
  {
    ReachableInv(st, script, limits);
    if st.queue != [] {
      step := Take;
    } else {
      var out := st.out.phase.Reading? && (st.out.pipe != "" || !st.err.phase.Reading? || st.err.pipe == "");
      var s := if out then Out else Err;
      step := if Of(st, s).pipe != "" then Read(s) else if st.script != [] then Write else AtEof(s);
    }
  }

  /** A line over the limit kills its drainer, and the consumer then waits for ever. */
  lemma OverlongLineHangs(st: State, script: seq<(Stream, char)>, limits: Limits)
    requires Reachable(st, script, limits) && !AllFit(script, limits)
    ensures st.done < 2
  {
    ReachableInv(st, script, limits);
  }

  /** The process waits while a pipe is full. */
  predicate PipesOk(st: State, limits: Limits) {
    |st.out.pipe| <= limits.capacity && |st.err.pipe| <= limits.capacity
  }

  lemma {:induction false} RunKeepsPipes(st: State, steps: seq<Step>, limits: Limits)
    requires IsRun(st, steps, limits) && PipesOk(st, limits)
    ensures PipesOk(After(st, steps, limits), limits)
    decreases |steps|
  {
    if steps != [] { RunKeepsPipes(Do(st, steps[0], limits), steps[1..], limits); }
  }

  // ---- Every run is finite ----

  function Weight(d: Drain): nat {
    3 * |d.pipe| + 2 * |d.line| + if d.phase.Reading? then 2 else 0
  }

  function Work(st: State): nat {
    4 * |st.script| + Weight(st.out) + Weight(st.err) + |st.queue|
  }

  lemma StepDoesWork(st: State, step: Step, limits: Limits)
    requires Enabled(st, step, limits)
    ensures Work(Do(st, step, limits)) < Work(st)
  {
  }

  lemma {:induction false} RunsAreFinite(st: State, steps: seq<Step>, limits: Limits)
    requires IsRun(st, steps, limits)
    ensures |steps| <= Work(st)
    decreases |steps|
  {
    if steps != [] {
      StepDoesWork(st, steps[0], limits);
      RunsAreFinite(Do(st, steps[0], limits), steps[1..], limits);
    }
  }

  /** Nothing can happen any more. */
  ghost predicate Stuck(st: State, limits: Limits) {
    forall step :: !Enabled(st, step, limits)
  }

  lemma {:induction false} RunSnoc(st: State, steps: seq<Step>, step: Step, limits: Limits)
    requires IsRun(st, steps, limits) && Enabled(After(st, steps, limits), step, limits)
    ensures IsRun(st, steps + [step], limits)
    ensures After(st, steps + [step], limits) == Do(After(st, steps, limits), step, limits)
    decreases |steps|
  {
    if steps == [] {
      assert (steps + [step])[1..] == [];
    } else {
      assert (steps + [step])[1..] == steps[1..] + [step];
      RunSnoc(Do(st, steps[0], limits), steps[1..], step, limits);
    }
  }

  lemma ReachableStep(st: State, step: Step, script: seq<(Stream, char)>, limits: Limits)
    requires Reachable(st, script, limits) && Enabled(st, step, limits)
    ensures Reachable(Do(st, step, limits), script, limits)
  {
    var steps :| IsRun(Start(script), steps, limits) && st == After(Start(script), steps, limits);
    RunSnoc(Start(script), steps, step, limits);
  }

  lemma {:induction false} RunsOut(st: State, script: seq<(Stream, char)>, limits: Limits) returns (end: State)
    requires Reachable(st, script, limits)
    ensures Reachable(end, script, limits) && Stuck(end, limits)
    decreases Work(st)
  {
    if Stuck(st, limits) {
      end := st;
    } else {
      var step :| Enabled(st, step, limits);
      ReachableStep(st, step, script, limits);
      StepDoesWork(st, step, limits);
      end := RunsOut(Do(st, step, limits), script, limits);
    }
  }

  /** Whenever nothing can happen any more the consumer has left its loop, if and only if every line fits. */
  lemma FinishesExactly(script: seq<(Stream, char)>, limits: Limits)
    requires limits.capacity > 0
    ensures (forall st :: Reachable(st, script, limits) && Stuck(st, limits) ==> st.done >= 2)
            <==> AllFit(script, limits)
  {
    if AllFit(script, limits) {
      forall st | Reachable(st, script, limits) && Stuck(st, limits) ensures st.done >= 2 {
        if st.done < 2 { var step := NeverStuck(st, script, limits); }
      }
    } else {
      assert IsRun(Start(script), [], limits) && After(Start(script), [], limits) == Start(script);
      var end := RunsOut(Start(script), script, limits);
      OverlongLineHangs(end, script, limits);
    }
  }

  // ---- The coroutines, each on its own ----

  class OutputQueue {
    var items: seq<Item>

    method Put(x: Item)
      modifies this
      ensures items == old(items) + [x]
    {
      items := items + [x];
    }

    method Get() returns (x: Item)
      requires items != []
      modifies this
      ensures x == old(items)[0] && items == old(items)[1..]
    {
      x := items[0];
      items := items[1..];
    }
  }

  /** Where the line that starts at `i` ends. */
  method LineEnd(text: string, i: nat) returns (j: nat)
    requires i <= |text|
    ensures i <= j <= |text| && '\n' !in text[i..j] && (j < |text| ==> text[j] == '\n')
  {
    j := i;
    while j < |text| && text[j] != '\n'
      invariant i <= j <= |text| && '\n' !in text[i..j]
    {
      j := j + 1;
    }
  }

  /** The line that starts at `i`, newline included; the empty string at the end of the text. */
  method ReadLine(text: string, i: nat, limit: nat) returns (line: string, overlong: bool)
    requires i <= |text|
    ensures overlong ==> !Fits(text[i..], 0, limit)
    ensures !overlong ==> i + |line| <= |text| && (line == "" <==> i == |text|)
    ensures !overlong ==> Messages(text[i..], "") == Kept(line) + Messages(text[i + |line|..], "")
    ensures !overlong ==> (Fits(text[i..], 0, limit) <==> Fits(text[i + |line|..], 0, limit))
  {
    var j := LineEnd(text, i);
    LineAt(text, i, j, limit);
    overlong := j - i > limit;
    line := if overlong then "" else if j < |text| then text[i..j + 1] else text[i..j];
    assert Messages("", "") == [] && Fits("", 0, limit);
  }

  lemma LineAt(text: string, i: nat, j: nat, limit: nat)
    requires i <= j <= |text| && '\n' !in text[i..j] && (j < |text| ==> text[j] == '\n')
    ensures Messages(text[i..], "") == Kept(text[i..j]) + if j < |text| then Messages(text[j + 1..], "") else []
    ensures Fits(text[i..], 0, limit) <==> j - i <= limit && (j < |text| ==> Fits(text[j + 1..], 0, limit))
    ensures j < |text| ==> Kept(text[i..j + 1]) == Kept(text[i..j])
  {
    assert text[i..] == text[i..j] + text[j..] && "" + text[i..j] == text[i..j];
    MessagesAfterLine(text[i..j], text[j..], "");
    FitsAfterLine(text[i..j], text[j..], 0, limit);
    if j < |text| {
      assert text[j..][1..] == text[j + 1..];
      assert text[i..j + 1] == text[i..j] + ['\n'];
    }
  }

  lemma LineQueued(items: seq<Item>, s: Stream, line: string, later: seq<string>)
    ensures (if TrimEnd(line) == "" then items else items + [Line(s, TrimEnd(line))]) + Lines(s, later)
            == items + Lines(s, Kept(line) + later)
  {
  }

  /** `drain_stream`: every message of the stream in order, then the sentinel, unless a line is overlong. */
  method DrainStream(text: string, s: Stream, limit: nat, queue: OutputQueue) returns (ended: bool)
    modifies queue
    ensures ended <==> Fits(text, 0, limit)
    ensures ended ==> queue.items == old(queue.items) + Lines(s, Messages(text, "")) + [End]
  {
    var i := 0;
    assert text[0..] == text;
    ghost var before := queue.items;
    while true
      invariant i <= |text| && (Fits(text[i..], 0, limit) <==> Fits(text, 0, limit))
      invariant queue.items + Lines(s, Messages(text[i..], "")) == before + Lines(s, Messages(text, ""))
      decreases |text| - i
    {
      var line, overlong := ReadLine(text, i, limit);
      if overlong { return false; }
      if line == "" { break; }
      var message := TrimEnd(line);
      LineQueued(queue.items, s, line, Messages(text[i + |line|..], ""));
      if message != "" { queue.Put(Line(s, message)); }
      i := i + |line|;
    }
    queue.Put(End);
    ended := true;
  }

  function WithoutEnds(items: seq<Item>): seq<Item> {
    if items == [] then [] else (if items[0].End? then [] else [items[0]]) + WithoutEnds(items[1..])
  }

  lemma FirstTaken(taken: seq<Item>, items: seq<Item>)
    requires items != []
    ensures (if items[0].End? then taken else taken + [items[0]]) + WithoutEnds(items[1..])
            == taken + WithoutEnds(items)
    ensures Ends(items) == (if items[0].End? then 1 else 0) + Ends(items[1..])
  {
    Regroup(taken, items[0], WithoutEnds(items[1..]));
    assert [] + WithoutEnds(items[1..]) == WithoutEnds(items[1..]);
  }

  lemma Regroup(a: seq<Item>, x: Item, b: seq<Item>)
    ensures (a + [x]) + b == a + ([x] + b)
  {
  }

  /** The consumer's loop, from `before` sentinels on, until it ends or waits on an empty queue. */
  method Merge(queue: OutputQueue, before: nat) returns (yielded: seq<Item>, streamsDone: nat)
    modifies queue
    ensures streamsDone >= 2 || queue.items == []
    ensures streamsDone + Ends(queue.items) == before + Ends(old(queue.items))
    ensures yielded + WithoutEnds(queue.items) == WithoutEnds(old(queue.items))
    ensures before >= 2 ==> queue.items == old(queue.items)
    ensures before < 2 ==> streamsDone <= 2
  {
    yielded, streamsDone := [], before;
    while streamsDone < 2 && queue.items != []
      invariant before >= 2 ==> streamsDone == before && queue.items == old(queue.items)
      invariant before < 2 ==> streamsDone <= 2
      invariant streamsDone + Ends(queue.items) == before + Ends(old(queue.items))
      invariant yielded + WithoutEnds(queue.items) == WithoutEnds(old(queue.items))
      decreases |queue.items|
    {
      FirstTaken(yielded, queue.items);
      var message := queue.Get();
      if message.End? {
        streamsDone := streamsDone + 1;
      } else {
        yielded := yielded + [message];
      }
    }
  }
}
