/** Polling a POP3 maildrop without deleting (srv/bridge/app/email_inbound_client.py, `POP3InboundClient`). */
module Pop3Inbox {
  import opened Strings

  /** A line of the UIDL reply; `ok` is what retrieving that message would do. */
  datatype Line = Malformed | Entry(number: string, uid: string, ok: bool)

  /** The state file: absent or unreadable, or the ids it lists. */
  type SavedIds = Option<seq<string>>

  function Elements(ids: seq<string>): set<string> {
    set i | 0 <= i < |ids| :: ids[i]
  }

  function Loaded(file: SavedIds): set<string> {
    match file case None => {} case Some(ids) => Elements(ids)
  }

  /**
   * What a save does: it writes the file; it fails before it has opened it; or it fails after that, and
   * leaves a cut JSON text that nothing can be read from.
   */
  datatype Save = Done | NotOpened | Cut

  /** The ids in the file after a save of `seen`. */
  function Kept(save: Save, file: set<string>, seen: set<string>): set<string> {
    match save case Done => seen case NotOpened => file case Cut => {}
  }

  /** The listed messages not seen yet. */
  function Unseen(lines: seq<Line>, seen: set<string>): seq<Line> {
    if lines == [] then []
    else
      var n := |lines| - 1;
      Unseen(lines[..n], seen) + if lines[n].Entry? && lines[n].uid !in seen then [lines[n]] else []
  }

  /** The ids of those that can be retrieved. */
  function Retrieved(entries: seq<Line>): seq<string> {
    if entries == [] then []
    else
      var n := |entries| - 1;
      Retrieved(entries[..n]) + if entries[n].Entry? && entries[n].ok then [entries[n].uid] else []
  }

  /** What one poll returns. */
  function Returned(lines: seq<Line>, seen: set<string>): seq<string> {
    Retrieved(Unseen(lines, seen))
  }

  class POP3InboundClient {
    var seenUids: set<string>
    var stateFile: SavedIds

    /** Starting, or starting again, with the state file found. */
    constructor (stateFile: SavedIds)
      ensures this.stateFile == stateFile && seenUids == Loaded(stateFile)
    {
      this.stateFile := stateFile;
      seenUids := Loaded(stateFile);
    }

    /** `_save_seen_uids`; a failure is only logged. */
    method SaveSeenUids(save: Save)
      modifies this`stateFile
      ensures save.Done? ==> stateFile.Some? && Loaded(stateFile) == seenUids
      ensures save.NotOpened? ==> stateFile == old(stateFile)
      ensures save.Cut? ==> stateFile == None
    {
      if save.NotOpened? { return; }
      stateFile := None;
      if save.Cut? { return; }
      var ids: seq<string>, rest := [], seenUids;
      while rest != {}
        invariant Elements(ids) == seenUids - rest && rest <= seenUids
        decreases |rest|
      {
        var id :| id in rest;
        ElementsMore(ids, id);
        ids, rest := ids + [id], rest - {id};
      }
      stateFile := Some(ids);
    }

    /** `_fetch_new_messages`, once connected and given the listing. */
    method FetchNewMessages(lines: seq<Line>, save: Save) returns (out: seq<string>)
      modifies this
      ensures out == Returned(lines, old(seenUids))
      ensures seenUids == old(seenUids) + Elements(out)
      ensures out != [] ==> Loaded(stateFile) == Kept(save, Loaded(old(stateFile)), seenUids)
      ensures out == [] ==> stateFile == old(stateFile)
    {
      out := [];
      var newIndices: seq<Line> := [];
      for i := 0 to |lines|
        invariant newIndices == Unseen(lines[..i], seenUids)
      {
        assert lines[..i + 1][..i] == lines[..i];
        if lines[i].Entry? && lines[i].uid !in seenUids { newIndices := newIndices + [lines[i]]; }
      }
      assert lines[..|lines|] == lines;
      if newIndices == [] { return; }
      var newlySeen: seq<string> := [];
      for i := 0 to |newIndices|
        invariant out == newlySeen == Retrieved(newIndices[..i])
      {
        assert newIndices[..i + 1][..i] == newIndices[..i];
        if newIndices[i].Entry? && newIndices[i].ok {
          out := out + [newIndices[i].uid];
          newlySeen := newlySeen + [newIndices[i].uid];
        }
      }
      assert newIndices[..|newIndices|] == newIndices;
      seenUids := seenUids + Elements(newlySeen);
      if newlySeen != [] { SaveSeenUids(save); }
    }
  }

  lemma ElementsMore(ids: seq<string>, id: string)
    ensures Elements(ids + [id]) == Elements(ids) + {id}
  {
    var more := ids + [id];
    assert more[|ids|] == id;
    forall x | x in Elements(ids) ensures x in Elements(more) {
      var i :| 0 <= i < |ids| && ids[i] == x;
      assert more[i] == x;
    }
  }

  lemma ElementsAppend(a: seq<string>, b: seq<string>)
    ensures Elements(a + b) == Elements(a) + Elements(b)
  {
    forall x | x in Elements(b) ensures x in Elements(a + b) {
      var i :| 0 <= i < |b| && b[i] == x;
      assert (a + b)[|a| + i] == x;
    }
    forall x | x in Elements(a) ensures x in Elements(a + b) {
      var i :| 0 <= i < |a| && a[i] == x;
      assert (a + b)[i] == x;
    }
  }

  // ---- Runs ----

  /**
   * `returned` is every id returned so far, over all restarts; of these `waiting` are still in the list
   * that `poll_messages` is working through, and `processed` are those the bridge has dealt with.
   */
  datatype State = State(
    seen: set<string>, file: set<string>, returned: seq<string>, waiting: seq<string>, processed: seq<string>)

  /**
   * A poll that reaches the server, one that does not, the bridge being done with the first message that
   * waits, or a restart. The code polls only with nothing waiting; nothing below depends on that.
   */
  datatype Event = Poll(lines: seq<Line>, save: Save) | Unreachable | Deliver | Restart

  const START := State({}, {}, [], [], [])

  function Step(st: State, e: Event): State {
    match e
    case Poll(lines, save) =>
      var out := Returned(lines, st.seen);
      var seen := st.seen + Elements(out);
      State(seen, if out == [] then st.file else Kept(save, st.file, seen), st.returned + out, st.waiting + out,
        st.processed)
    case Unreachable => st
    case Deliver =>
      if st.waiting == [] then st
      else st.(waiting := st.waiting[1..], processed := st.processed + [st.waiting[0]])
    case Restart => st.(seen := st.file, waiting := [])
  }

  function From(st: State, events: seq<Event>): State {
    if events == [] then st else Step(From(st, events[..|events| - 1]), events[|events| - 1])
  }

  function After(events: seq<Event>): State { From(START, events) }

  /** Section 7 of RFC 1939: the ids of one listing are unique. */
  predicate UniqueIds(lines: seq<Line>) {
    forall i, j :: 0 <= i < j < |lines| && lines[i].Entry? && lines[j].Entry? ==> lines[i].uid != lines[j].uid
  }

  predicate NoRepeats(ids: seq<string>) {
    forall i, j :: 0 <= i < j < |ids| ==> ids[i] != ids[j]
  }

  predicate Lists(lines: seq<Line>, uid: string, ok: bool) {
    exists i :: 0 <= i < |lines| && lines[i].Entry? && lines[i].uid == uid && lines[i].ok == ok
  }

  lemma {:induction false} UnseenAre(lines: seq<Line>, seen: set<string>)
    ensures forall uid, ok :: Lists(Unseen(lines, seen), uid, ok) <==> Lists(lines, uid, ok) && uid !in seen
    ensures UniqueIds(lines) ==> UniqueIds(Unseen(lines, seen))
    ensures forall i :: 0 <= i < |Unseen(lines, seen)| ==> Unseen(lines, seen)[i].Entry?
  {
    if lines != [] {
      var n := |lines| - 1;
      UnseenAre(lines[..n], seen);
      ListsMore(lines[..n], lines[n]);
      assert lines == lines[..n] + [lines[n]];
      ListsMore(Unseen(lines[..n], seen), lines[n]);
      assert Unseen(lines[..n], seen) + [] == Unseen(lines[..n], seen);
      if UniqueIds(lines) && lines[n].Entry? && lines[n].uid !in seen {
        LastIsNew(lines, Unseen(lines[..n], seen));
      }
    }
  }

  lemma LastIsNew(lines: seq<Line>, before: seq<Line>)
    requires lines != [] && UniqueIds(lines) && lines[|lines| - 1].Entry?
    requires forall i :: 0 <= i < |before| ==> before[i].Entry?
    requires forall uid, ok :: Lists(before, uid, ok) ==> Lists(lines[..|lines| - 1], uid, ok)
    ensures forall i :: 0 <= i < |before| ==> before[i].uid != lines[|lines| - 1].uid
  {
    forall i | 0 <= i < |before| ensures before[i].uid != lines[|lines| - 1].uid {
      assert Lists(before, before[i].uid, before[i].ok);
      var k :| 0 <= k < |lines| - 1 && lines[..|lines| - 1][k].Entry? && lines[..|lines| - 1][k].uid == before[i].uid;
      assert lines[k] == lines[..|lines| - 1][k];
    }
  }

  lemma ListsMore(lines: seq<Line>, line: Line)
    ensures forall uid, ok :: Lists(lines + [line], uid, ok) <==>
              Lists(lines, uid, ok) || (line.Entry? && line.uid == uid && line.ok == ok)
  {
    var more := lines + [line];
    forall uid: string, ok: bool
      ensures Lists(more, uid, ok) <==> Lists(lines, uid, ok) || (line.Entry? && line.uid == uid && line.ok == ok) {
      if Lists(lines, uid, ok) {
        var i :| 0 <= i < |lines| && lines[i].Entry? && lines[i].uid == uid && lines[i].ok == ok;
        assert more[i] == lines[i];
      }
      assert more[|lines|] == line;
    }
  }

  lemma {:induction false} RetrievedAre(entries: seq<Line>)
    ensures forall uid :: uid in Elements(Retrieved(entries)) <==> Lists(entries, uid, true)
    ensures UniqueIds(entries) ==> NoRepeats(Retrieved(entries))
  {
    if entries != [] {
      var n := |entries| - 1;
      var before := Retrieved(entries[..n]);
      RetrievedAre(entries[..n]);
      assert entries == entries[..n] + [entries[n]];
      ListsMore(entries[..n], entries[n]);
      assert before + [] == before;
      if entries[n].Entry? && entries[n].ok {
        ElementsMore(before, entries[n].uid);
        if UniqueIds(entries) {
          forall i | 0 <= i < |before| ensures before[i] != entries[n].uid {
            assert before[i] in Elements(before);
            var k :| 0 <= k < n && entries[..n][k].Entry? && entries[..n][k].uid == before[i];
            assert entries[k] == entries[..n][k];
          }
        }
      }
    }
  }

  /** One poll returns exactly the listed, unseen ids whose retrieval succeeds, each once if the listing is unique. */
  lemma ReturnedAre(lines: seq<Line>, seen: set<string>)
    ensures forall uid :: uid in Elements(Returned(lines, seen)) <==> Lists(lines, uid, true) && uid !in seen
    ensures UniqueIds(lines) ==> NoRepeats(Returned(lines, seen))
  {
    UnseenAre(lines, seen);
    RetrievedAre(Unseen(lines, seen));
  }

  lemma NoRepeatsAppend(a: seq<string>, b: seq<string>)
    ensures NoRepeats(a + b) <==> NoRepeats(a) && NoRepeats(b) && Elements(a) !! Elements(b)
  {
    var c := a + b;
    if NoRepeats(c) {
      forall i, j | 0 <= i < j < |a| ensures a[i] != a[j] { assert c[i] == a[i] && c[j] == a[j]; }
      forall i, j | 0 <= i < j < |b| ensures b[i] != b[j] { assert c[|a| + i] == b[i] && c[|a| + j] == b[j]; }
      forall i, j | 0 <= i < |a| && 0 <= j < |b| ensures a[i] != b[j] { assert c[i] == a[i] && c[|a| + j] == b[j]; }
    }
    if NoRepeats(a) && NoRepeats(b) && Elements(a) !! Elements(b) {
      forall i, j | 0 <= i < j < |c| ensures c[i] != c[j] {
        if i < |a| <= j { assert c[i] in Elements(a) && b[j - |a|] in Elements(b); }
      }
    }
  }

  /** Every poll lists unique ids. */
  predicate UniqueListings(events: seq<Event>) {
    forall e :: e in events && e.Poll? ==> UniqueIds(e.lines)
  }

  /** Every restart finds the seen ids saved. */
  predicate SavedInTime(events: seq<Event>) {
    events == [] ||
    var n := |events| - 1;
    SavedInTime(events[..n]) && (events[n].Restart? ==> After(events[..n]).seen <= After(events[..n]).file)
  }

  /** Over every such run: no id is returned twice, and the seen set is exactly the ids returned. */
  lemma {:induction false} EachIdOnce(events: seq<Event>)
    requires UniqueListings(events) && SavedInTime(events)
    ensures NoRepeats(After(events).returned) && Elements(After(events).returned) == After(events).seen
    ensures After(events).file <= After(events).seen
  {
    if events != [] {
      var n := |events| - 1;
      EachIdOnce(events[..n]);
      var st := After(events[..n]);
      if events[n].Poll? {
        var out := Returned(events[n].lines, st.seen);
        assert events[n] in events;
        ReturnedAre(events[n].lines, st.seen);
        NoRepeatsAppend(st.returned, out);
        ElementsAppend(st.returned, out);
      }
    }
  }

  /** If every save succeeds, the file always holds the seen set, so restarts forget nothing. */
  lemma {:induction false} SavesAreEnough(events: seq<Event>)
    requires forall e :: e in events && e.Poll? ==> e.save.Done?
    ensures SavedInTime(events) && After(events).file == After(events).seen
  {
    if events != [] {
      var n := |events| - 1;
      SavesAreEnough(events[..n]);
      assert events[n] in events && Elements([]) == {};
    }
  }

  /** A poll: nothing seen is forgotten, listed retrievable ids are seen, and those that failed are still to come. */
  lemma PollEffect(st: State, lines: seq<Line>, save: Save, uid: string)
    ensures st.seen <= Step(st, Poll(lines, save)).seen
    ensures Lists(lines, uid, true) ==> uid in Step(st, Poll(lines, save)).seen
    ensures uid !in st.seen && !Lists(lines, uid, true) ==> uid !in Step(st, Poll(lines, save)).seen
    ensures st.returned <= Step(st, Poll(lines, save)).returned
  {
    ReturnedAre(lines, st.seen);
  }

  /** Over a run the seen set never shrinks. */
  lemma {:induction false} SeenGrows(events: seq<Event>, more: seq<Event>)
    requires SavedInTime(events + more)
    ensures After(events).seen <= After(events + more).seen
    decreases |more|
  {
    if more == [] {
      assert events + more == events;
    } else {
      var n := |more| - 1;
      var all := events + more;
      var most := events + more[..n];
      assert all[..|all| - 1] == most && all[|all| - 1] == more[n];
      SeenGrows(events, more[..n]);
      if more[n].Poll? { PollEffect(After(most), more[n].lines, more[n].save, ""); }
    }
  }

  /** A listed id whose retrieval succeeds has been returned by the end of the run. */
  lemma ListedIsReturned(events: seq<Event>, more: seq<Event>, uid: string)
    requires UniqueListings(events + more) && SavedInTime(events + more) && events != [] && events[|events| - 1].Poll?
    requires Lists(events[|events| - 1].lines, uid, true)
    ensures uid in Elements(After(events + more).returned)
  {
    var n := |events| - 1;
    PollEffect(After(events[..n]), events[n].lines, events[n].save, uid);
    SeenGrows(events, more);
    EachIdOnce(events + more);
  }

  // ---- When a restart is safe ----

  /** The next poll cannot return anything again. */
  ghost predicate SafeToPoll(st: State) {
    forall lines, save :: UniqueIds(lines) ==> NoRepeats(Step(st, Poll(lines, save)).returned)
  }

  lemma PollRepeats(st: State, lines: seq<Line>, save: Save)
    requires UniqueIds(lines)
    ensures NoRepeats(Step(st, Poll(lines, save)).returned) <==>
            && NoRepeats(st.returned)
            && forall uid :: uid in Elements(st.returned) && Lists(lines, uid, true) ==> uid in st.seen
  {
    ReturnedAre(lines, st.seen);
    NoRepeatsAppend(st.returned, Returned(lines, st.seen));
  }

  /** With no repeats so far, polling is safe if and only if every returned id is seen. */
  lemma SafeExactly(st: State)
    requires NoRepeats(st.returned)
    ensures SafeToPoll(st) <==> Elements(st.returned) <= st.seen
  {
    if Elements(st.returned) <= st.seen {
      forall lines, save | UniqueIds(lines) ensures NoRepeats(Step(st, Poll(lines, save)).returned) {
        PollRepeats(st, lines, save);
      }
    } else {
      var uid :| uid in Elements(st.returned) && uid !in st.seen;
      var lines := [Entry("1", uid, true)];
      assert Lists(lines, uid, true) by { assert lines[0] == Entry("1", uid, true); }
      PollRepeats(st, lines, Done);
    }
  }

  /** So after a restart polling is safe if and only if every returned id had been saved. */
  lemma RestartIsSafe(st: State)
    requires NoRepeats(st.returned)
    ensures SafeToPoll(Step(st, Restart)) <==> Elements(st.returned) <= st.file
  {
    SafeExactly(Step(st, Restart));
  }

  /** After every restart of the run, polling is safe. */
  ghost predicate RestartsAreSafe(events: seq<Event>) {
    events == [] ||
    (RestartsAreSafe(events[..|events| - 1]) && (events[|events| - 1].Restart? ==> SafeToPoll(After(events))))
  }

  /** Over every run of unique listings: that is so if and only if every restart finds the seen ids saved. */
  lemma {:induction false} SafeIfSavedInTime(events: seq<Event>)
    requires UniqueListings(events)
    ensures RestartsAreSafe(events) <==> SavedInTime(events)
  {
    if events != [] {
      var before := events[..|events| - 1];
      SafeIfSavedInTime(before);
      if SavedInTime(before) {
        EachIdOnce(before);
        RestartIsSafe(After(before));
      }
    }
  }

  /** A poll whose save fails, a restart, and a poll that lists the message again: it is returned twice. */
  lemma UnsavedIsReturnedAgain(number: string, uid: string)
    ensures var lines := [Entry(number, uid, true)];
      After([Poll(lines, NotOpened), Restart, Poll(lines, Done)]).returned == [uid, uid]
  {
    var lines := [Entry(number, uid, true)];
    var events := [Poll(lines, NotOpened), Restart, Poll(lines, Done)];
    ReturnedAlone(lines[0], {});
    assert events[..2][..1] == [events[0]] && [events[0]][..0] == [] && events[..2][1] == Restart;
    assert After([]) == START && [] + [uid] == [uid];
    assert After([events[0]]) == State({} + Elements([uid]), {}, [uid], [uid], []);
    assert After(events[..2]) == State({}, {}, [uid], [], []);
    assert [uid] + [uid] == [uid, uid];
  }

  // ---- Exactly once ----

  /** Up to the next restart. */
  ghost predicate Undisturbed(more: seq<Event>) {
    UniqueListings(more) && Restart !in more
  }

  ghost predicate Listed(more: seq<Event>, uid: string) {
    exists i :: 0 <= i < |more| && more[i].Poll? && Lists(more[i].lines, uid, true)
  }

  /** No message is processed twice and, once none waits, every listed one that can be retrieved has been. */
  ghost predicate Promised(st: State, more: seq<Event>) {
    var t := From(st, more);
    && NoRepeats(t.processed)
    && (t.waiting == [] ==> forall uid :: Listed(more, uid) ==> uid in Elements(t.processed))
  }

  /** However the bridge goes on from here, up to the next restart, each message is processed exactly once. */
  ghost predicate KeepsPromise(st: State) {
    forall more :: Undisturbed(more) ==> Promised(st, more)
  }

  /** The messages processed or waiting are each there once, and they are those seen. */
  predicate InStep(st: State) {
    NoRepeats(st.processed + st.waiting) && st.seen == Elements(st.processed + st.waiting)
  }

  lemma StepKeepsInStep(st: State, e: Event)
    requires InStep(st) && !e.Restart? && (e.Poll? ==> UniqueIds(e.lines))
    ensures InStep(Step(st, e))
    ensures st.seen <= Step(st, e).seen
    ensures e.Poll? ==> forall uid :: Lists(e.lines, uid, true) ==> uid in Step(st, e).seen
  {
    var t := Step(st, e);
    if e.Poll? {
      var out := Returned(e.lines, st.seen);
      ReturnedAre(e.lines, st.seen);
      NoRepeatsAppend(st.processed + st.waiting, out);
      ElementsAppend(st.processed + st.waiting, out);
      assert t.processed + t.waiting == (st.processed + st.waiting) + out;
    } else {
      assert t.processed + t.waiting == st.processed + st.waiting;
    }
  }

  lemma {:induction false} StaysInStep(st: State, more: seq<Event>)
    requires InStep(st) && Undisturbed(more)
    ensures InStep(From(st, more)) && forall uid :: Listed(more, uid) ==> uid in From(st, more).seen
    decreases |more|
  {
    if more != [] {
      var n := |more| - 1;
      var before := more[..n];
      assert more[n] in more && forall e :: e in before ==> e in more;
      StaysInStep(st, before);
      StepKeepsInStep(From(st, before), more[n]);
      forall uid | Listed(more, uid) ensures uid in From(st, more).seen {
        var i :| 0 <= i < |more| && more[i].Poll? && Lists(more[i].lines, uid, true);
        if i < n { assert before[i] == more[i]; }
      }
    }
  }

  lemma InStepKeeps(st: State)
    requires InStep(st)
    ensures KeepsPromise(st)
  {
    forall more | Undisturbed(more) ensures Promised(st, more) {
      StaysInStep(st, more);
      var t := From(st, more);
      NoRepeatsAppend(t.processed, t.waiting);
      if t.waiting == [] { assert t.processed + t.waiting == t.processed; }
    }
  }

  lemma Next(st: State, more: seq<Event>, e: Event)
    ensures From(st, more + [e]) == Step(From(st, more), e)
  {
    assert (more + [e])[..|more|] == more;
  }

  /** Everything that waits can be processed. */
  lemma {:induction false} DeliverAll(st: State) returns (more: seq<Event>)
    ensures Undisturbed(more) && forall e :: e in more ==> e.Deliver?
    ensures From(st, more) == st.(waiting := [], processed := st.processed + st.waiting)
  {
    more := [];
    assert st.processed + [] == st.processed && From(st, []) == st;
    for i := 0 to |st.waiting|
      invariant Undisturbed(more) && forall e :: e in more ==> e.Deliver?
      invariant From(st, more) == st.(waiting := st.waiting[i..], processed := st.processed + st.waiting[..i])
    {
      Next(st, more, Deliver);
      more := more + [Deliver];
      assert st.waiting[..i + 1] == st.waiting[..i] + [st.waiting[i]];
    }
    assert st.waiting[..|st.waiting|] == st.waiting;
  }

  lemma ListedAlone(more: seq<Event>, e: Event, uid: string)
    requires Undisturbed(more) && e == Poll([Entry("1", uid, true)], Done)
    ensures Undisturbed(more + [e]) && Listed(more + [e], uid) && Undisturbed(more + [e] + [Deliver])
  {
    assert e.lines[0] == Entry("1", uid, true) && Lists(e.lines, uid, true);
    assert (more + [e])[|more|] == e;
  }

  lemma ReturnedAlone(line: Line, seen: set<string>)
    requires line.Entry? && line.ok
    ensures Returned([line], seen) == if line.uid in seen then [] else [line.uid]
  {
    assert [line][..0] == [] && Unseen([line], seen) == [] + if line.uid in seen then [] else [line];
    assert Retrieved([line]) == [] + [line.uid];
  }

  /** What a poll does that lists one message only. */
  lemma PollAlone(st: State, uid: string)
    requires st.waiting == []
    ensures var t := Step(st, Poll([Entry("1", uid, true)], Done));
      t.processed == st.processed && t.waiting == if uid in st.seen then [] else [uid]
  {
    ReturnedAlone(Entry("1", uid, true), st.seen);
    assert [] + [uid] == [uid];
  }

  /** An id that is seen though its message is neither processed nor waiting: the message is lost. */
  lemma SeenOnlyIsLost(st: State, more: seq<Event>, uid: string)
    requires Undisturbed(more) && From(st, more).waiting == [] && From(st, more).seen == st.seen
    requires uid in st.seen && uid !in Elements(From(st, more).processed)
    ensures !KeepsPromise(st)
  {
    var t, e := From(st, more), Poll([Entry("1", uid, true)], Done);
    ListedAlone(more, e, uid);
    Next(st, more, e);
    PollAlone(t, uid);
    assert !Promised(st, more + [e]);
  }

  lemma RepeatBreaks(st: State, more: seq<Event>, ids: seq<string>, uid: string)
    requires Undisturbed(more) && From(st, more).processed == ids + [uid] && uid in Elements(ids)
    ensures !KeepsPromise(st)
  {
    assert [uid][0] == uid;
    NoRepeatsAppend(ids, [uid]);
    assert !Promised(st, more);
  }

  /** An id that is not seen though its message is processed: the message is processed again. */
  lemma UnseenIsRepeated(st: State, more: seq<Event>, uid: string)
    requires Undisturbed(more) && From(st, more).waiting == [] && From(st, more).seen == st.seen
    requires uid !in st.seen && uid in Elements(From(st, more).processed)
    ensures !KeepsPromise(st)
  {
    var t, e := From(st, more), Poll([Entry("1", uid, true)], Done);
    ListedAlone(more, e, uid);
    Next(st, more, e);
    PollAlone(t, uid);
    Next(st, more + [e], Deliver);
    RepeatBreaks(st, more + [e] + [Deliver], t.processed, uid);
  }

  lemma OutOfStepBreaks(st: State)
    requires !InStep(st)
    ensures !KeepsPromise(st)
  {
    var more := DeliverAll(st);
    var all := st.processed + st.waiting;
    if NoRepeats(all) {
      var uid :| (uid in st.seen) != (uid in Elements(all));
      if uid in st.seen { SeenOnlyIsLost(st, more, uid); } else { UnseenIsRepeated(st, more, uid); }
    } else {
      assert !Promised(st, more);
    }
  }

  /** From any state each message is processed exactly once if and only if the state is in step. */
  lemma InStepExactly(st: State)
    ensures KeepsPromise(st) <==> InStep(st)
  {
    if InStep(st) { InStepKeeps(st); } else { OutOfStepBreaks(st); }
  }

  /** At every moment of the run the promise is kept. */
  ghost predicate AlwaysKeepsPromise(events: seq<Event>) {
    KeepsPromise(After(events)) && (events == [] || AlwaysKeepsPromise(events[..|events| - 1]))
  }

  /** Every restart finds exactly the processed messages in the file. */
  predicate RestartsFindProcessed(events: seq<Event>) {
    events == [] ||
    var n := |events| - 1;
    && RestartsFindProcessed(events[..n])
    && (events[n].Restart? ==> After(events[..n]).file == Elements(After(events[..n]).processed))
  }

  lemma RestartIsInStep(st: State)
    requires InStep(st)
    ensures InStep(Step(st, Restart)) <==> st.file == Elements(st.processed)
  {
    NoRepeatsAppend(st.processed, st.waiting);
    assert st.processed + [] == st.processed;
  }

  /**
   * Over every run of unique listings each message is processed exactly once, across restarts, if and
   * only if every restart finds in the file exactly the ids of the messages processed by then.
   */
  lemma {:induction false} ProcessedExactlyOnce(events: seq<Event>)
    requires UniqueListings(events)
    ensures AlwaysKeepsPromise(events) <==> RestartsFindProcessed(events)
    ensures RestartsFindProcessed(events) ==> InStep(After(events))
  {
    InStepExactly(After(events));
    if events == [] {
      assert InStep(START);
    } else {
      var n := |events| - 1;
      ProcessedExactlyOnce(events[..n]);
      if RestartsFindProcessed(events[..n]) {
        assert events[n] in events;
        if events[n].Restart? {
          RestartIsInStep(After(events[..n]));
        } else {
          StepKeepsInStep(After(events[..n]), events[n]);
        }
      }
    }
  }

  /** Every restart comes with nothing waiting. */
  predicate RestartsAreIdle(events: seq<Event>) {
    events == [] ||
    var n := |events| - 1;
    RestartsAreIdle(events[..n]) && (events[n].Restart? ==> After(events[..n]).waiting == [])
  }

  /** If every save succeeds that is so if and only if no restart comes while messages wait. */
  lemma {:induction false} OnlyWaitingIsLost(events: seq<Event>)
    requires UniqueListings(events) && forall e :: e in events && e.Poll? ==> e.save.Done?
    ensures AlwaysKeepsPromise(events) <==> RestartsAreIdle(events)
  {
    ProcessedExactlyOnce(events);
    if events != [] {
      var before := events[..|events| - 1];
      OnlyWaitingIsLost(before);
      ProcessedExactlyOnce(before);
      SavesAreEnough(before);
      if RestartsFindProcessed(before) { WaitingIsUnprocessed(After(before)); }
    }
  }

  lemma WaitingIsUnprocessed(st: State)
    requires InStep(st)
    ensures st.seen == Elements(st.processed) <==> st.waiting == []
  {
    NoRepeatsAppend(st.processed, st.waiting);
    ElementsAppend(st.processed, st.waiting);
    if st.waiting != [] { assert st.waiting[0] in Elements(st.waiting); }
  }

  /** A message saved as seen but waiting when the bridge restarts is never processed, though still listed. */
  lemma WaitingIsLost(number: string, uid: string)
    ensures var lines := [Entry(number, uid, true)];
      var t := After([Poll(lines, Done), Restart, Poll(lines, Done)]);
      t.processed == [] && t.waiting == [] && t.returned == [uid]
  {
    var lines := [Entry(number, uid, true)];
    var events := [Poll(lines, Done), Restart, Poll(lines, Done)];
    ReturnedAlone(lines[0], {});
    ReturnedAlone(lines[0], {uid});
    assert events[..2][..1] == [events[0]] && [events[0]][..0] == [] && events[..2][1] == Restart;
    assert After([]) == START && [] + [uid] == [uid];
    assert [uid][0] == uid && {} + Elements([uid]) == {uid};
    assert After([events[0]]) == State({uid}, {uid}, [uid], [uid], []);
    assert After(events[..2]) == State({uid}, {uid}, [uid], [], []);
  }
}
