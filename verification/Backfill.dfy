/**
 * Repair of misfiled documents: Postgres rows, then Milvus partitions
 * (scripts/backfill-milvus-shared-partitions.py).
 */
module Backfill {
  import opened Strings

  // ---- The vector store ----

  datatype Rec = Rec(fileId: string, vector: nat)

  /** A collection: each partition with its records. */
  type Store = map<string, seq<Rec>>

  function OfFile(rs: seq<Rec>, f: string): seq<Rec> {
    if rs == [] then []
    else if rs[0].fileId == f then [rs[0]] + OfFile(rs[1..], f)
    else OfFile(rs[1..], f)
  }

  function NotOfFile(rs: seq<Rec>, f: string): seq<Rec> {
    if rs == [] then []
    else if rs[0].fileId == f then NotOfFile(rs[1..], f)
    else [rs[0]] + NotOfFile(rs[1..], f)
  }

  /** What a query for file `f` in partition `p` returns. */
  function Vectors(s: Store, p: string, f: string): seq<Rec> {
    if p in s then OfFile(s[p], f) else []
  }

  class Collection {
    var partitions: Store

    constructor (partitions: Store)
      ensures this.partitions == partitions
    {
      this.partitions := partitions;
    }

    method EnsurePartition(p: string)
      modifies this
      ensures partitions == if p in old(partitions) then old(partitions) else old(partitions)[p := []]
    {
      if p !in partitions { partitions := partitions[p := []]; }
    }

    method Insert(records: seq<Rec>, p: string)
      requires p in partitions
      modifies this
      ensures partitions == old(partitions)[p := old(partitions)[p] + records]
    {
      partitions := partitions[p := partitions[p] + records];
    }

    method Delete(f: string, p: string)
      modifies this
      ensures partitions == DeleteFrom(old(partitions), p, f)
    {
      if p in partitions { partitions := partitions[p := NotOfFile(partitions[p], f)]; }
    }
  }

  function DeleteFrom(s: Store, p: string, f: string): Store {
    if p in s then s[p := NotOfFile(s[p], f)] else s
  }

  function CopyTo(s: Store, targets: set<string>, records: seq<Rec>): Store {
    map p | p in s.Keys + targets ::
      if p !in targets then s[p] else if p in s then s[p] + records else records
  }

  // ---- Phase 1, one document ----

  /** A row of the phase 1 query. */
  datatype Row = Row(fileId: string, ownerId: string, visibility: string, roles: seq<string>)

  function RolePartition(role: string): string { "role_" + role }

  function PersonalPartition(owner: string): string { "personal_" + owner }

  predicate Scanned(p: string) {
    "personal_" <= p || "role_" <= p || p == "authenticated"
  }

  function Targets(row: Row): set<string> {
    if row.visibility == "authenticated" then {"authenticated"} else set r | r in row.roles :: RolePartition(r)
  }

  /** The scanned partitions of the snapshot `order` that hold the file. */
  function Holding(s: Store, order: seq<string>, f: string): set<string> {
    set p | p in order && Scanned(p) && Vectors(s, p, f) != []
  }

  /** The records found first. */
  function Source(s: Store, order: seq<string>, f: string): seq<Rec> {
    if order == [] then []
    else if Scanned(order[0]) && Vectors(s, order[0], f) != [] then Vectors(s, order[0], f)
    else Source(s, order[1..], f)
  }

  function Missing(s: Store, order: seq<string>, row: Row): set<string> {
    Targets(row) - Holding(s, order, row.fileId)
  }

  /** The document's vectors sit in its owner's partition and are to be removed from there. */
  predicate Misfiled(s: Store, order: seq<string>, row: Row, clean: bool) {
    clean && PersonalPartition(row.ownerId) in Holding(s, order, row.fileId)
  }

  predicate Skipped(s: Store, order: seq<string>, row: Row) {
    Targets(row) == {} || Holding(s, order, row.fileId) == {}
  }

  function BackfillRow(s: Store, order: seq<string>, row: Row, clean: bool): Store {
    if Skipped(s, order, row) then s
    else
      var copied := CopyTo(s, Missing(s, order, row), Source(s, order, row.fileId));
      if Misfiled(s, order, row, clean) then DeleteFrom(copied, PersonalPartition(row.ownerId), row.fileId) else copied
  }

  /** Phase 1 over all rows, with the one snapshot taken at the start. */
  function BackfillRows(s: Store, order: seq<string>, rows: seq<Row>, clean: bool): Store
    decreases |rows|
  {
    if rows == [] then s else BackfillRows(BackfillRow(s, order, rows[0], clean), order, rows[1..], clean)
  }

  // ---- What one document's turn does to every file ----

  lemma {:induction false} OfFileAppend(a: seq<Rec>, b: seq<Rec>, f: string)
    ensures OfFile(a + b, f) == OfFile(a, f) + OfFile(b, f)
  {
    if a == [] {
      assert a + b == b;
    } else {
      assert (a + b)[1..] == a[1..] + b;
      OfFileAppend(a[1..], b, f);
    }
  }

  /** A query's answer holds records of that file only. */
  lemma {:induction false} OfFileOnly(rs: seq<Rec>, f: string, g: string)
    ensures OfFile(OfFile(rs, f), g) == if f == g then OfFile(rs, f) else []
  {
    if rs != [] {
      OfFileOnly(rs[1..], f, g);
      if rs[0].fileId == f { assert ([rs[0]] + OfFile(rs[1..], f))[1..] == OfFile(rs[1..], f); }
    }
  }

  lemma {:induction false} OfFileAfterDelete(rs: seq<Rec>, f: string, g: string)
    ensures OfFile(NotOfFile(rs, f), g) == if f == g then [] else OfFile(rs, g)
  {
    if rs != [] {
      OfFileAfterDelete(rs[1..], f, g);
      if rs[0].fileId != f { assert ([rs[0]] + NotOfFile(rs[1..], f))[1..] == NotOfFile(rs[1..], f); }
    }
  }

  lemma {:induction false} SourceIsHeld(s: Store, order: seq<string>, f: string)
    ensures Source(s, order, f) == [] <==> Holding(s, order, f) == {}
    ensures Source(s, order, f) != [] ==>
              exists p :: p in Holding(s, order, f) && Source(s, order, f) == Vectors(s, p, f)
  {
    if order != [] {
      SourceIsHeld(s, order[1..], f);
      if Scanned(order[0]) && Vectors(s, order[0], f) != [] {
        assert order[0] in Holding(s, order, f);
      } else {
        assert Holding(s, order, f) == Holding(s, order[1..], f);
      }
    }
  }

  /** The source depends on nothing but the file's own vectors in the snapshot's partitions. */
  lemma {:induction false} SameSource(s: Store, t: Store, order: seq<string>, f: string)
    requires forall p :: Vectors(s, p, f) == Vectors(t, p, f)
    ensures Source(s, order, f) == Source(t, order, f) && Holding(s, order, f) == Holding(t, order, f)
  {
    if order != [] { SameSource(s, t, order[1..], f); }
  }

  /** The vectors of the row's file in `p` after the row's turn. */
  function Repaired(s: Store, order: seq<string>, row: Row, clean: bool, p: string): seq<Rec> {
    if Skipped(s, order, row) then Vectors(s, p, row.fileId)
    else if p in Missing(s, order, row) then Source(s, order, row.fileId)
    else if p == PersonalPartition(row.ownerId) && Misfiled(s, order, row, clean) then []
    else Vectors(s, p, row.fileId)
  }

  /** The snapshot knows every partition that holds the file. */
  ghost predicate Known(s: Store, order: seq<string>, f: string) {
    forall p :: Vectors(s, p, f) != [] ==> p in order
  }

  lemma TargetsAreNotPersonal(row: Row, owner: string)
    ensures PersonalPartition(owner) !in Targets(row)
    ensures forall t :: t in Targets(row) ==> Scanned(t)
  {
    var p := PersonalPartition(owner);
    assert p[0] == 'p' && Scanned(p);
    forall t | t in Targets(row) ensures t != p && Scanned(t) {
      if row.visibility == "authenticated" {
        assert t[0] == 'a';
      } else {
        assert t[0] == 'r' && t[..5] == "role_";
      }
    }
  }

  lemma RowEffect(s: Store, order: seq<string>, row: Row, clean: bool, p: string, g: string)
    requires Known(s, order, row.fileId)
    ensures Vectors(BackfillRow(s, order, row, clean), p, g) ==
            if g == row.fileId then Repaired(s, order, row, clean, p) else Vectors(s, p, g)
  {
    var f, mine := row.fileId, PersonalPartition(row.ownerId);
    if !Skipped(s, order, row) {
      var src, missing := Source(s, order, f), Missing(s, order, row);
      SourceIsHeld(s, order, f);
      var q :| q in Holding(s, order, f) && src == Vectors(s, q, f);
      OfFileOnly(s[q], f, g);
      TargetsAreNotPersonal(row, row.ownerId);
      var copied := CopyTo(s, missing, src);
      if p in missing && p in s { OfFileAppend(s[p], src, g); }
      if p in copied { OfFileAfterDelete(copied[p], f, g); }
      if p in missing { assert g == f ==> Vectors(s, p, g) == []; }
      assert Vectors(copied, p, g) == if p in missing && f == g then src else Vectors(s, p, g);
    }
  }

  // ---- Phase 1 over all rows ----

  predicate DistinctFiles(rows: seq<Row>) {
    forall i, j :: 0 <= i < j < |rows| ==> rows[i].fileId != rows[j].fileId
  }

  /** A turn leaves every other file's vectors, and so every other file's repair, as they were. */
  lemma TurnKeepsOthers(s: Store, order: seq<string>, row: Row, other: Row, clean: bool)
    requires Known(s, order, row.fileId) && other.fileId != row.fileId && Known(s, order, other.fileId)
    ensures var t := BackfillRow(s, order, row, clean);
      && Known(t, order, other.fileId)
      && forall p :: Repaired(t, order, other, clean, p) == Repaired(s, order, other, clean, p)
  {
    var t := BackfillRow(s, order, row, clean);
    forall p ensures Vectors(t, p, other.fileId) == Vectors(s, p, other.fileId) {
      RowEffect(s, order, row, clean, p, other.fileId);
    }
    SameSource(s, t, order, other.fileId);
  }

  /**
   * The whole run repairs each row's file as if it were the only one, although the snapshot goes
   * stale: partitions made on the way hold vectors of finished files only.
   */
  lemma {:induction false} RunEffect(s: Store, order: seq<string>, rows: seq<Row>, clean: bool, p: string)
    requires DistinctFiles(rows) && forall row :: row in rows ==> Known(s, order, row.fileId)
    ensures var t := BackfillRows(s, order, rows, clean);
      && (forall row :: row in rows ==> Vectors(t, p, row.fileId) == Repaired(s, order, row, clean, p))
      && (forall g :: (forall row :: row in rows ==> row.fileId != g) ==> Vectors(t, p, g) == Vectors(s, p, g))
    decreases |rows|
  {
    if rows != [] {
      var first, rest, t := rows[0], rows[1..], BackfillRow(s, order, rows[0], clean);
      forall row | row in rest ensures row.fileId != first.fileId && Known(t, order, row.fileId)
                              && Repaired(t, order, row, clean, p) == Repaired(s, order, row, clean, p) {
        TurnKeepsOthers(s, order, first, row, clean);
      }
      RunEffect(t, order, rest, clean, p);
      forall g
        ensures Vectors(t, p, g) ==
          if g == first.fileId then Repaired(s, order, first, clean, p) else Vectors(s, p, g)
      {
        RowEffect(s, order, first, clean, p, g);
      }
    }
  }

  /** The snapshot lists every partition there is when the run starts. */
  predicate Snapshot(s: Store, order: seq<string>) {
    forall p :: p in s ==> p in order
  }

  /** Every document found in a scanned partition ends with vectors in each of its target partitions. */
  lemma EveryTargetServed(s: Store, order: seq<string>, rows: seq<Row>, clean: bool, row: Row, target: string,
    at: string)
    requires DistinctFiles(rows) && Snapshot(s, order) && row in rows && target in Targets(row)
    requires Scanned(at) && Vectors(s, at, row.fileId) != []
    ensures var got := Vectors(BackfillRows(s, order, rows, clean), target, row.fileId);
      && got != []
      && (Vectors(s, target, row.fileId) != [] ==> got == Vectors(s, target, row.fileId))
      && (Vectors(s, target, row.fileId) == [] ==> exists p :: Scanned(p) && got == Vectors(s, p, row.fileId))
  {
    RunEffect(s, order, rows, clean, target);
    assert at in Holding(s, order, row.fileId);
    SourceIsHeld(s, order, row.fileId);
    TargetsAreNotPersonal(row, row.ownerId);
  }

  /** No file loses its last copy, and only rows' files change at all. */
  lemma NoFileIsLost(s: Store, order: seq<string>, rows: seq<Row>, clean: bool, f: string, at: string)
    requires DistinctFiles(rows) && Snapshot(s, order) && Vectors(s, at, f) != []
    ensures exists p :: Vectors(BackfillRows(s, order, rows, clean), p, f) != []
    ensures (forall row :: row in rows ==> row.fileId != f) ==>
              forall p :: Vectors(BackfillRows(s, order, rows, clean), p, f) == Vectors(s, p, f)
  {
    var t := BackfillRows(s, order, rows, clean);
    forall p ensures (forall row :: row in rows ==> row.fileId != f) ==> Vectors(t, p, f) == Vectors(s, p, f) {
      RunEffect(s, order, rows, clean, p);
    }
    if row :| row in rows && row.fileId == f {
      RunEffect(s, order, rows, clean, at);
      if Vectors(t, at, f) == [] {
        var target :| target in Targets(row);
        EveryTargetServed(s, order, rows, clean, row, target, at);
      }
    }
  }

  /** Rows whose turn changes nothing leave the store alone, in any number and order. */
  lemma {:induction false} IdleRows(s: Store, order: seq<string>, rows: seq<Row>, clean: bool)
    requires forall row :: row in rows ==> BackfillRow(s, order, row, clean) == s
    ensures BackfillRows(s, order, rows, clean) == s
    decreases |rows|
  {
    if rows != [] { IdleRows(s, order, rows[1..], clean); }
  }

  /** A row that the first run has dealt with is correct under any fresh snapshot. */
  lemma RowIsSettled(s: Store, order: seq<string>, rows: seq<Row>, clean: bool, order2: seq<string>, row: Row)
    requires DistinctFiles(rows) && Snapshot(s, order) && row in rows
    requires Snapshot(BackfillRows(s, order, rows, clean), order2)
    ensures BackfillRow(BackfillRows(s, order, rows, clean), order2, row, clean) == BackfillRows(s, order, rows, clean)
  {
    var t, f, mine := BackfillRows(s, order, rows, clean), row.fileId, PersonalPartition(row.ownerId);
    TargetsAreNotPersonal(row, row.ownerId);
    forall p ensures Vectors(t, p, f) == Repaired(s, order, row, clean, p) {
      RunEffect(s, order, rows, clean, p);
    }
    SourceIsHeld(s, order, f);
    if Skipped(s, order, row) {
      if Targets(row) != {} {
        assert Holding(t, order2, f) <= Holding(s, order, f);
      }
    } else {
      forall target | target in Targets(row) ensures target in Holding(t, order2, f) {
        assert Vectors(t, target, f) != [];
      }
      assert Missing(t, order2, row) == {};
      assert mine in Holding(t, order2, f) && clean ==> mine in Holding(s, order, f);
      assert CopyTo(t, {}, Source(t, order2, f)) == t;
    }
  }

  /** A second run with a fresh snapshot changes nothing. */
  lemma SecondRunIsIdle(s: Store, order: seq<string>, rows: seq<Row>, clean: bool, order2: seq<string>, again: seq<Row>)
    requires DistinctFiles(rows) && Snapshot(s, order) && forall row :: row in again ==> row in rows
    requires Snapshot(BackfillRows(s, order, rows, clean), order2)
    ensures BackfillRows(BackfillRows(s, order, rows, clean), order2, again, clean) ==
        BackfillRows(s, order, rows, clean)
  {
    var t := BackfillRows(s, order, rows, clean);
    forall row | row in again ensures BackfillRow(t, order2, row, clean) == t {
      RowIsSettled(s, order, rows, clean, order2, row);
    }
    IdleRows(t, order2, again, clean);
  }

  // ---- What the run does, in the terms of the rows and the partitions ----

  /** The partitions in which a document is looked for. */
  ghost predicate InReach(p: string) {
    p == "authenticated" || exists id: string :: p == "personal_" + id || p == "role_" + id
  }

  /** The partitions a document belongs in. */
  predicate Belongs(row: Row, p: string) {
    if row.visibility == "authenticated" then p == "authenticated"
    else exists role :: role in row.roles && p == "role_" + role
  }

  ghost predicate BelongsSomewhere(row: Row) {
    exists p :: Belongs(row, p)
  }

  ghost predicate FoundAt(s: Store, f: string, p: string) {
    InReach(p) && Vectors(s, p, f) != []
  }

  /** `records` is what the first partition of `order` holds in which the file is found. */
  ghost predicate FirstFound(s: Store, order: seq<string>, f: string, records: seq<Rec>) {
    exists k :: 0 <= k < |order| && FoundAt(s, f, order[k]) && records == Vectors(s, order[k], f)
                && forall j :: 0 <= j < k ==> !FoundAt(s, f, order[j])
  }

  lemma ReachIsScanned(p: string)
    ensures InReach(p) <==> Scanned(p)
  {
    if id: string :| p == "personal_" + id || p == "role_" + id {
      assert "personal_" <= "personal_" + id && "role_" <= "role_" + id;
    }
    if "personal_" <= p { assert p == "personal_" + p[9..]; }
    if "role_" <= p { assert p == "role_" + p[5..]; }
  }

  lemma BelongsIsTarget(row: Row, p: string)
    ensures Belongs(row, p) <==> p in Targets(row)
    ensures BelongsSomewhere(row) <==> Targets(row) != {}
  {
    forall q ensures Belongs(row, q) <==> q in Targets(row) {
      if role :| role in row.roles && q == "role_" + role { assert q == RolePartition(role); }
    }
  }

  lemma {:induction false} SourceIsFirst(s: Store, order: seq<string>, f: string)
    requires Source(s, order, f) != []
    ensures FirstFound(s, order, f, Source(s, order, f))
    decreases |order|
  {
    ReachIsScanned(order[0]);
    if !FoundAt(s, f, order[0]) {
      SourceIsFirst(s, order[1..], f);
      var k :| 0 <= k < |order[1..]| && FoundAt(s, f, order[1..][k])
               && Source(s, order[1..], f) == Vectors(s, order[1..][k], f)
               && forall j :: 0 <= j < k ==> !FoundAt(s, f, order[1..][j]);
      forall j | 0 <= j < k + 1 ensures !FoundAt(s, f, order[j]) {
        if j > 0 { assert order[j] == order[1..][j - 1]; }
      }
      assert order[k + 1] == order[1..][k];
    }
  }

  /**
   * Where a row's document has its vectors after the run. If it was found nowhere or belongs nowhere,
   * where it had them; otherwise it keeps them or gets those found first wherever it belongs, loses
   * them in its owner's personal partition if cleaning is asked for, and keeps them everywhere else.
   */
  lemma EndsWhereItBelongs(s: Store, order: seq<string>, rows: seq<Row>, clean: bool, row: Row, p: string)
    requires DistinctFiles(rows) && Snapshot(s, order) && row in rows
    ensures var was, got := Vectors(s, p, row.fileId), Vectors(BackfillRows(s, order, rows, clean), p, row.fileId);
      if !(exists at :: FoundAt(s, row.fileId, at)) || !BelongsSomewhere(row) then got == was
      else if Belongs(row, p) then (if was != [] then got == was else FirstFound(s, order, row.fileId, got))
      else if clean && p == "personal_" + row.ownerId then got == []
      else got == was
  {
    var f := row.fileId;
    RunEffect(s, order, rows, clean, p);
    BelongsIsTarget(row, p);
    TargetsAreNotPersonal(row, row.ownerId);
    ReachIsScanned(p);
    SourceIsHeld(s, order, f);
    if at :| FoundAt(s, f, at) {
      ReachIsScanned(at);
      assert at in Holding(s, order, f);
      SourceIsFirst(s, order, f);
    } else {
      forall q | q in Holding(s, order, f) ensures false {
        ReachIsScanned(q);
        assert FoundAt(s, f, q);
      }
    }
  }

  lemma RowKeepsAll(s: Store, order: seq<string>, row: Row, p: string, f: string)
    ensures Vectors(s, p, f) <= Vectors(BackfillRow(s, order, row, false), p, f)
  {
    if !Skipped(s, order, row) && p in s { OfFileAppend(s[p], Source(s, order, row.fileId), f); }
  }

  /** Unless cleaning is asked for nothing goes, whatever the rows and the snapshot. */
  lemma {:induction false} NothingGoes(s: Store, order: seq<string>, rows: seq<Row>, p: string, f: string)
    ensures Vectors(s, p, f) <= Vectors(BackfillRows(s, order, rows, false), p, f)
    decreases |rows|
  {
    if rows != [] {
      RowKeepsAll(s, order, rows[0], p, f);
      NothingGoes(BackfillRow(s, order, rows[0], false), order, rows[1..], p, f);
    }
  }

  // ---- The loop ----

  /** Look for the file in the snapshot's partitions. */
  method Scan(col: Collection, order: seq<string>, f: string) returns (holding: set<string>, source: seq<Rec>)
    ensures holding == Holding(col.partitions, order, f) && source == Source(col.partitions, order, f)
  {
    holding, source := {}, [];
    for i := 0 to |order|
      invariant holding == Holding(col.partitions, order[..i], f)
      invariant Source(col.partitions, order, f) ==
                  if source == [] then Source(col.partitions, order[i..], f) else source
    {
      var p := order[i];
      assert order[..i + 1] == order[..i] + [p] && order[i..][0] == p && order[i..][1..] == order[i + 1..];
      if Scanned(p) {
        var records := Vectors(col.partitions, p, f);
        if records != [] {
          holding := holding + {p};
          if source == [] { source := records; }
        }
      }
    }
    assert order[..|order|] == order && order[|order|..] == [];
  }

  /** Insert the records into each target, creating partitions as needed. */
  method Copy(col: Collection, targets: set<string>, records: seq<Rec>)
    modifies col
    ensures col.partitions == CopyTo(old(col.partitions), targets, records)
  {
    ghost var before := col.partitions;
    var todo := targets;
    while todo != {}
      invariant todo <= targets
      invariant col.partitions.Keys == before.Keys + (targets - todo)
      invariant forall p :: p in col.partitions ==> col.partitions[p] == CopyTo(before, targets - todo, records)[p]
      decreases todo
    {
      var target :| target in todo;
      col.EnsurePartition(target);
      col.Insert(records, target);
      todo := todo - {target};
    }
    assert targets - {} == targets;
  }

  method Phase1Row(col: Collection, order: seq<string>, row: Row, dryRun: bool, clean: bool)
    modifies col
    ensures col.partitions ==
            if dryRun then old(col.partitions) else BackfillRow(old(col.partitions), order, row, clean)
  {
    var targets := Targets(row);
    if targets == {} { return; }
    var holding, source := Scan(col, order, row.fileId);
    if holding == {} || dryRun { return; }
    var missing, wrongPersonal := targets - holding, PersonalPartition(row.ownerId) in holding;
    if missing == {} && !(wrongPersonal && clean) {
      assert CopyTo(col.partitions, missing, source) == col.partitions;
      return;
    }
    Copy(col, missing, source);
    if wrongPersonal && clean {
      col.Delete(row.fileId, PersonalPartition(row.ownerId));
    }
  }

  method Phase1(col: Collection, order: seq<string>, rows: seq<Row>, dryRun: bool, clean: bool)
    modifies col
    ensures col.partitions ==
            if dryRun then old(col.partitions) else BackfillRows(old(col.partitions), order, rows, clean)
  {
    for i := 0 to |rows|
      invariant dryRun ==> col.partitions == old(col.partitions)
      invariant !dryRun ==>
                  BackfillRows(col.partitions, order, rows[i..], clean) ==
                    BackfillRows(old(col.partitions), order, rows, clean)
    {
      assert rows[i..][0] == rows[i] && rows[i..][1..] == rows[i + 1..];
      Phase1Row(col, order, rows[i], dryRun, clean);
    }
  }

  // ---- Phase 0: the Postgres rows ----

  datatype Library = Library(isPersonal: bool, isDeleted: bool)

  datatype File = File(libraryId: Option<string>, ownerId: string, visibility: string)

  /** The data database: libraries, files, and the (file, role) pairs of `document_roles`. */
  datatype Db = Db(libraries: map<string, Library>, files: map<string, File>, roles: set<(string, string)>)

  predicate Chosen(filter: Option<string>, f: string) {
    filter.None? || filter.value == f
  }

  /** A personal document in the given library, which is live and not personal. */
  predicate StuckIn(db: Db, l: string, filter: Option<string>, f: string) {
    && l in db.libraries && !db.libraries[l].isPersonal && !db.libraries[l].isDeleted
    && f in db.files && db.files[f].libraryId == Some(l) && db.files[f].visibility == "personal" && Chosen(filter, f)
  }

  /** Role bindings of a library in the authz database. */
  function RolesOf(bindings: map<string, seq<string>>, l: string): seq<string> {
    if l in bindings then bindings[l] else []
  }

  function LibraryRoles(db: Db, bindings: map<string, seq<string>>, f: string): seq<string> {
    if f in db.files && db.files[f].libraryId.Some? then RolesOf(bindings, db.files[f].libraryId.value) else []
  }

  predicate Fixable(db: Db, bindings: map<string, seq<string>>, libs: set<string>, filter: Option<string>, f: string) {
    && f in db.files && db.files[f].libraryId.Some?
    && db.files[f].libraryId.value in libs
    && StuckIn(db, db.files[f].libraryId.value, filter, f)
    && LibraryRoles(db, bindings, f) != []
  }

  function FixableDocs(db: Db, bindings: map<string, seq<string>>, libs: set<string>,
    filter: Option<string>): set<string> {
    set f | f in db.files && Fixable(db, bindings, libs, filter, f)
  }

  function Shared(files: map<string, File>, docs: set<string>): map<string, File> {
    map f | f in files :: if f in docs then files[f].(visibility := "shared") else files[f]
  }

  function Grants(db: Db, bindings: map<string, seq<string>>, docs: set<string>): set<(string, string)> {
    set f, r | f in docs && r in LibraryRoles(db, bindings, f) :: (f, r)
  }

  /** The tables after the documents `docs` are marked shared and given their libraries' roles. */
  function Opened(db: Db, bindings: map<string, seq<string>>, docs: set<string>): Db {
    db.(files := Shared(db.files, docs), roles := db.roles + Grants(db, bindings, docs))
  }

  /** The tables after the libraries in `libs` are dealt with. */
  function Fixed(db: Db, bindings: map<string, seq<string>>, libs: set<string>, filter: Option<string>): Db {
    Opened(db, bindings, FixableDocs(db, bindings, libs, filter))
  }

  lemma OpenedNone(db: Db, bindings: map<string, seq<string>>)
    ensures Opened(db, bindings, {}) == db
  {
    assert Shared(db.files, {}) == db.files && Grants(db, bindings, {}) == {};
  }

  lemma OpenedKeeps(db: Db, bindings: map<string, seq<string>>, docs: set<string>, f: string)
    ensures var d := Opened(db, bindings, docs);
      d.files.Keys == db.files.Keys && LibraryRoles(d, bindings, f) == LibraryRoles(db, bindings, f)
  {
  }

  /** With a role binding, a library's stuck documents are the fixable ones. */
  lemma StuckAreFixable(db: Db, bindings: map<string, seq<string>>, l: string, filter: Option<string>)
    ensures FixableDocs(db, bindings, {l}, filter) ==
            if RolesOf(bindings, l) == [] then {} else set f | f in db.files && StuckIn(db, l, filter, f)
  {
    forall f
      ensures Fixable(db, bindings, {l}, filter, f) <==> StuckIn(db, l, filter, f) && RolesOf(bindings, l) != [] {}
  }

  lemma OpenedTwice(db: Db, bindings: map<string, seq<string>>, a: set<string>, b: set<string>)
    ensures Opened(Opened(db, bindings, a), bindings, b) == Opened(db, bindings, a + b)
  {
    var d := Opened(db, bindings, a);
    assert Shared(d.files, b) == Shared(db.files, a + b);
    forall f ensures LibraryRoles(d, bindings, f) == LibraryRoles(db, bindings, f) {}
    assert Grants(d, bindings, b) == Grants(db, bindings, b);
    assert Grants(db, bindings, a) + Grants(db, bindings, b) == Grants(db, bindings, a + b);
  }

  /** Dealing with one library leaves what is fixable in another alone. */
  lemma FixableAfter(db: Db, bindings: map<string, seq<string>>, done: set<string>, l: string, filter: Option<string>)
    requires l !in done
    ensures FixableDocs(Fixed(db, bindings, done, filter), bindings, {l}, filter) ==
        FixableDocs(db, bindings, {l}, filter)
    ensures FixableDocs(db, bindings, done, filter) + FixableDocs(db, bindings, {l}, filter) ==
        FixableDocs(db, bindings, done + {l}, filter)
  {
    var a := Fixed(db, bindings, done, filter);
    forall f ensures Fixable(a, bindings, {l}, filter, f) <==> Fixable(db, bindings, {l}, filter, f) {}
    assert a.files.Keys == db.files.Keys;
  }

  lemma FixedOneMore(db: Db, bindings: map<string, seq<string>>, done: set<string>, l: string, filter: Option<string>)
    requires l !in done
    ensures Fixed(Fixed(db, bindings, done, filter), bindings, {l}, filter) == Fixed(db, bindings, done + {l}, filter)
  {
    FixableAfter(db, bindings, done, l, filter);
    OpenedTwice(db, bindings, FixableDocs(db, bindings, done, filter), FixableDocs(db, bindings, {l}, filter));
  }

  lemma OnlyStuckLibrariesMatter(db: Db, bindings: map<string, seq<string>>, libs: set<string>, filter: Option<string>)
    requires libs == set l, f | l in db.libraries && f in db.files && StuckIn(db, l, filter, f) :: l
    ensures Fixed(db, bindings, libs, filter) == Fixed(db, bindings, db.libraries.Keys, filter)
  {
    assert FixableDocs(db, bindings, libs, filter) == FixableDocs(db, bindings, db.libraries.Keys, filter);
  }

  class DataDb {
    var db: Db

    constructor (db: Db)
      ensures this.db == db
    {
      this.db := db;
    }

    /** One transaction: mark the document shared and add its library's roles. */
    method FixDoc(f: string, ghost bindings: map<string, seq<string>>, roles: seq<string>)
      requires f in db.files && roles == LibraryRoles(db, bindings, f)
      modifies this
      ensures db == Opened(old(db), bindings, {f})
    {
      db := db.(files := db.files[f := db.files[f].(visibility := "shared")]);
      for i := 0 to |roles|
        invariant db.libraries == old(db.libraries) && db.files == Shared(old(db.files), {f})
        invariant db.roles == old(db.roles) + set j | 0 <= j < i :: (f, roles[j])
      {
        db := db.(roles := db.roles + {(f, roles[i])});
      }
      assert Grants(old(db), bindings, {f}) == set j | 0 <= j < |roles| :: (f, roles[j]);
    }

    /** The loop over one library's stuck documents, which all have the library's roles. */
    method FixDocs(docs: set<string>, bindings: map<string, seq<string>>, roles: seq<string>, dryRun: bool)
      returns (count: nat)
      requires forall f :: f in docs ==> f in db.files && LibraryRoles(db, bindings, f) == roles
      modifies this
      ensures db == Opened(old(db), bindings, if dryRun then {} else docs)
      ensures count == |docs|
    {
      ghost var before, done: set<string> := db, {};
      OpenedNone(db, bindings);
      count := 0;
      var todo := docs;
      while todo != {}
        invariant todo <= docs && done == if dryRun then {} else docs - todo
        invariant db == Opened(before, bindings, done)
        invariant count == |docs| - |todo|
        decreases todo
      {
        var f :| f in todo;
        if !dryRun {
          OpenedKeeps(before, bindings, done, f);
          FixDoc(f, bindings, roles);
          OpenedTwice(before, bindings, done, {f});
          done := done + {f};
        }
        todo := todo - {f};
        count := count + 1;
      }
    }

    method FixLibrary(l: string, bindings: map<string, seq<string>>, filter: Option<string>, dryRun: bool)
      returns (count: nat)
      modifies this
      ensures db == if dryRun then old(db) else Fixed(old(db), bindings, {l}, filter)
      ensures count == |FixableDocs(old(db), bindings, {l}, filter)|
    {
      var roles := RolesOf(bindings, l);
      StuckAreFixable(db, bindings, l, filter);
      OpenedNone(db, bindings);
      if roles == [] { return 0; }
      var stuck := set f | f in db.files && StuckIn(db, l, filter, f);
      count := FixDocs(stuck, bindings, roles, dryRun);
    }

    /** Phase 0 over every library that has stuck documents. */
    method Phase0(bindings: map<string, seq<string>>, filter: Option<string>, dryRun: bool)
      modifies this
      ensures db == if dryRun then old(db) else Fixed(old(db), bindings, old(db).libraries.Keys, filter)
    {
      var libs := set l, f | l in db.libraries && f in db.files && StuckIn(db, l, filter, f) :: l;
      ghost var before := db;
      OpenedNone(db, bindings);
      assert FixableDocs(db, bindings, {}, filter) == {};
      var todo := libs;
      assert libs - todo == {};
      while todo != {}
        invariant todo <= libs
        invariant db == if dryRun then before else Fixed(before, bindings, libs - todo, filter)
        decreases todo
      {
        var l :| l in todo;
        var _ := FixLibrary(l, bindings, filter, dryRun);
        if !dryRun { FixedOneMore(before, bindings, libs - todo, l, filter); }
        assert libs - (todo - {l}) == (libs - todo) + {l};
        todo := todo - {l};
      }
      assert libs - {} == libs;
      OnlyStuckLibrariesMatter(before, bindings, libs, filter);
    }
  }

  // ---- Both phases ----

  /** An answer of the phase 1 query: one row per eligible document, with its roles in any order. */
  ghost predicate RowsOf(db: Db, filter: Option<string>, rows: seq<Row>) {
    && DistinctFiles(rows)
    && (forall f :: f in db.files && db.files[f].visibility in {"shared", "authenticated"} && Chosen(filter, f) ==>
          exists i :: 0 <= i < |rows| && rows[i].fileId == f)
    && (forall i :: 0 <= i < |rows| ==>
          var row := rows[i];
          && row.fileId in db.files && row.visibility == db.files[row.fileId].visibility
          && row.visibility in {"shared", "authenticated"} && Chosen(filter, row.fileId)
          && row.ownerId == db.files[row.fileId].ownerId
          && forall r :: r in row.roles <==> (row.fileId, r) in db.roles)
  }

  /**
   * Every stuck document in a live, non-personal library with a role binding ends up shared, with
   * all the library's roles, and - if it was indexed in a scanned partition - with vectors in each
   * of those roles' partitions.
   */
  lemma EndToEnd(db: Db, bindings: map<string, seq<string>>, filter: Option<string>, s: Store, order: seq<string>,
                 rows: seq<Row>, clean: bool, l: string, f: string, role: string, at: string)
    requires StuckIn(db, l, filter, f) && role in RolesOf(bindings, l)
    requires RowsOf(Fixed(db, bindings, db.libraries.Keys, filter), filter, rows) && Snapshot(s, order)
    ensures var after := Fixed(db, bindings, db.libraries.Keys, filter);
      after.files[f].visibility == "shared" && (f, role) in after.roles
    ensures Scanned(at) && Vectors(s, at, f) != [] ==>
              Vectors(BackfillRows(s, order, rows, clean), RolePartition(role), f) != []
  {
    var after := Fixed(db, bindings, db.libraries.Keys, filter);
    assert Fixable(db, bindings, db.libraries.Keys, filter, f);
    var i :| 0 <= i < |rows| && rows[i].fileId == f;
    assert rows[i] in rows && (rows[i].fileId, role) in after.roles;
    assert RolePartition(role) in Targets(rows[i]);
    if Scanned(at) && Vectors(s, at, f) != [] {
      EveryTargetServed(s, order, rows, clean, rows[i], RolePartition(role), at);
    }
  }

  /** Documents phase 0 has no business with keep their row and their roles. */
  lemma OthersKeepTheirRow(db: Db, bindings: map<string, seq<string>>, filter: Option<string>, f: string, role: string)
    requires f in db.files && !Fixable(db, bindings, db.libraries.Keys, filter, f)
    ensures var after := Fixed(db, bindings, db.libraries.Keys, filter);
      after.files[f] == db.files[f] && ((f, role) in after.roles <==> (f, role) in db.roles)
  {
  }

  /** The roles phase 0 gives a personal document of a live library that is not: those bound to the library. */
  predicate Given(db: Db, bindings: map<string, seq<string>>, filter: Option<string>, f: string, role: string) {
    && f in db.files && db.files[f].visibility == "personal" && (filter == None || filter == Some(f))
    && db.files[f].libraryId.Some?
    && var l := db.files[f].libraryId.value;
      && l in db.libraries && !db.libraries[l].isPersonal && !db.libraries[l].isDeleted
      && l in bindings && role in bindings[l]
  }

  /** What phase 0 leaves of a document's row, and its roles. */
  lemma Phase0Effect(db: Db, bindings: map<string, seq<string>>, filter: Option<string>, f: string, role: string)
    requires f in db.files
    ensures var after := Fixed(db, bindings, db.libraries.Keys, filter);
      && f in after.files && after.libraries == db.libraries
      && after.files[f] ==
           (if exists r :: Given(db, bindings, filter, f, r) then db.files[f].(visibility := "shared") else db.files[f])
      && ((f, role) in after.roles <==> (f, role) in db.roles || Given(db, bindings, filter, f, role))
  {
    var fixable := Fixable(db, bindings, db.libraries.Keys, filter, f);
    if fixable {
      var r := LibraryRoles(db, bindings, f)[0];
      assert Given(db, bindings, filter, f, r);
    }
    if r :| Given(db, bindings, filter, f, r) { assert fixable; }
  }
}
