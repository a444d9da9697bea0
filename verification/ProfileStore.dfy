/** Profile ids, their migration and the active pointer (cli/busibox-core/src/profile.rs). */
module ProfileStore {
  import opened Strings

  // ---- Host names in ids ----

  predicate IsAlnum(c: char) {
    'a' <= c <= 'z' || 'A' <= c <= 'Z' || '0' <= c <= '9'
  }

  /** The loop's state: what is built so far, and whether a hyphen now would be a leading or a second one. */
  function Squeeze(s: string, result: string, prevHyphen: bool): string
    decreases |s|
  {
    if s == "" then result
    else if IsAlnum(s[0]) then Squeeze(s[1..], result + [s[0]], false)
    else Squeeze(s[1..], if prevHyphen then result else result + "-", true)
  }

  function TrimHyphens(s: string): string {
    if s != "" && s[|s| - 1] == '-' then TrimHyphens(s[..|s| - 1]) else s
  }

  /**
   * `char::to_lowercase` as far as ids can tell: apart from A to Z, two characters become ones with an ASCII
   * letter. All others outside ASCII stay outside it, and end as hyphens whatever they become.
   */
  function Lower(c: char): string {
    if 'A' <= c <= 'Z' then [c - 'A' + 'a']
    else if c == '\U{212A}' then "k"
    else if c == '\U{0130}' then "i\U{0307}"
    else [c]
  }

  function LowerAll(s: string): string {
    if s == "" then "" else Lower(s[0]) + LowerAll(s[1..])
  }

  function Sanitize(host: string): string {
    TrimHyphens(Squeeze(LowerAll(host), "", true))
  }

  method SanitizeHost(host: string) returns (r: string)
    ensures r == Sanitize(host)
  {
    var lowered, result, prevHyphen := LowerAll(host), "", true;
    for i := 0 to |lowered|
      invariant Squeeze(lowered[i..], result, prevHyphen) == Squeeze(lowered, "", true)
    {
      assert lowered[i..][1..] == lowered[i + 1..];
      if !IsAlnum(lowered[i]) {
        if !prevHyphen { result := result + "-"; }
        prevHyphen := true;
      } else {
        result := result + [lowered[i]];
        prevHyphen := false;
      }
    }
    r := TrimHyphens(result);
  }

  predicate IsLowerAlnum(c: char) {
    IsAlnum(c) && !('A' <= c <= 'Z')
  }

  /** Lower-case letters and digits, with single hyphens strictly between them. */
  predicate Clean(s: string) {
    && (forall i :: 0 <= i < |s| ==> IsLowerAlnum(s[i]) || s[i] == '-')
    && (s != "" ==> s[0] != '-' && s[|s| - 1] != '-')
    && forall i :: 0 <= i < |s| - 1 ==> !(s[i] == '-' && s[i + 1] == '-')
  }

  /** As `Clean`, but for a hyphen at the end when `prevHyphen`. */
  predicate Squeezed(s: string, prevHyphen: bool) {
    && (forall i :: 0 <= i < |s| ==> IsLowerAlnum(s[i]) || s[i] == '-')
    && (s != "" ==> s[0] != '-' && (s[|s| - 1] == '-' <==> prevHyphen))
    && (s == "" ==> prevHyphen)
    && forall i :: 0 <= i < |s| - 1 ==> !(s[i] == '-' && s[i + 1] == '-')
  }

  predicate IsLower(s: string) {
    forall i :: 0 <= i < |s| ==> !('A' <= s[i] <= 'Z')
  }

  lemma {:induction false} LowerAllIsLower(s: string)
    ensures IsLower(LowerAll(s))
  {
    if s != "" { LowerAllIsLower(s[1..]); }
  }

  lemma {:induction false} LowerAllKeepsClean(s: string)
    requires forall i :: 0 <= i < |s| ==> IsLowerAlnum(s[i]) || s[i] == '-'
    ensures LowerAll(s) == s
  {
    if s != "" { LowerAllKeepsClean(s[1..]); }
  }

  lemma {:induction false} SqueezeIsSqueezed(s: string, result: string, prevHyphen: bool) returns (last: bool)
    requires Squeezed(result, prevHyphen) && IsLower(s)
    ensures Squeezed(Squeeze(s, result, prevHyphen), last)
    decreases |s|
  {
    if s == "" {
      last := prevHyphen;
    } else if IsAlnum(s[0]) {
      last := SqueezeIsSqueezed(s[1..], result + [s[0]], false);
    } else if prevHyphen {
      last := SqueezeIsSqueezed(s[1..], result, true);
    } else {
      last := SqueezeIsSqueezed(s[1..], result + "-", true);
    }
  }

  lemma SanitizedIsClean(host: string)
    ensures Clean(Sanitize(host))
  {
    LowerAllIsLower(host);
    var last := SqueezeIsSqueezed(LowerAll(host), "", true);
    TrimSqueezed(Squeeze(LowerAll(host), "", true), last);
  }

  lemma TrimSqueezed(s: string, last: bool)
    requires Squeezed(s, last)
    ensures Clean(TrimHyphens(s))
  {
    if s != "" && s[|s| - 1] == '-' {
      var t := s[..|s| - 1];
      if t != "" {
        assert t[|t| - 1] == s[|s| - 2];
        assert TrimHyphens(t) == t;
      }
    }
  }

  lemma {:induction false} SqueezeClean(s: string, result: string, prevHyphen: bool)
    requires Clean(result + s) && Squeezed(result, prevHyphen)
    ensures Squeeze(s, result, prevHyphen) == result + s
    decreases |s|
  {
    if s == "" {
      assert result + s == result;
    } else {
      assert (result + s)[|result|] == s[0];
      if prevHyphen && result != "" { assert (result + s)[|result| - 1] == '-'; }
      assert result + s == result + [s[0]] + s[1..];
      SqueezeClean(s[1..], result + [s[0]], s[0] == '-');
    }
  }

  /** Sanitizing is idempotent; it leaves exactly the clean names alone. */
  lemma SanitizeFixes(host: string)
    ensures Sanitize(host) == host <==> Clean(host)
    ensures Sanitize(Sanitize(host)) == Sanitize(host)
  {
    SanitizedIsClean(host);
    if Clean(host) { CleanIsFixed(host); }
    CleanIsFixed(Sanitize(host));
  }

  lemma CleanIsFixed(s: string)
    requires Clean(s)
    ensures Sanitize(s) == s
  {
    LowerAllKeepsClean(s);
    assert "" + s == s;
    SqueezeClean(s, "", true);
  }

  function Alnums(s: string): string {
    if s == "" then "" else (if IsAlnum(s[0]) then [s[0]] else "") + Alnums(s[1..])
  }

  lemma {:induction false} AlnumsAppend(a: string, b: string)
    ensures Alnums(a + b) == Alnums(a) + Alnums(b)
  {
    if a == "" {
      assert a + b == b;
    } else {
      AlnumsAppend(a[1..], b);
      assert (a + b)[1..] == a[1..] + b && (a + b)[0] == a[0];
      var first := if IsAlnum(a[0]) then [a[0]] else "";
      assert first + (Alnums(a[1..]) + Alnums(b)) == (first + Alnums(a[1..])) + Alnums(b);
    }
  }

  lemma {:induction false} SqueezeKeepsAlnums(s: string, result: string, prevHyphen: bool)
    ensures Alnums(Squeeze(s, result, prevHyphen)) == Alnums(result) + Alnums(s)
    decreases |s|
  {
    if s != "" {
      var next := if IsAlnum(s[0]) then [s[0]] else if prevHyphen then "" else "-";
      SqueezeKeepsAlnums(s[1..], result + next, !IsAlnum(s[0]));
      AlnumsAppend(result, next);
      assert result + "" == result;
      assert Alnums(next) == if IsAlnum(s[0]) then [s[0]] else "";
    }
  }

  lemma {:induction false} TrimKeepsAlnums(s: string)
    ensures Alnums(TrimHyphens(s)) == Alnums(s)
  {
    if s != "" && s[|s| - 1] == '-' {
      TrimKeepsAlnums(s[..|s| - 1]);
      AlnumsAppend(s[..|s| - 1], "-");
      assert s == s[..|s| - 1] + "-";
    }
  }

  /** Sanitizing keeps every letter and digit of the lower-cased host, in order. */
  lemma SanitizeKeepsAlnums(host: string)
    ensures Alnums(Sanitize(host)) == Alnums(LowerAll(host))
  {
    SqueezeKeepsAlnums(LowerAll(host), "", true);
    TrimKeepsAlnums(Squeeze(LowerAll(host), "", true));
  }

  /** Case does not matter. */
  lemma {:induction false} SanitizeIgnoresCase(host: string)
    ensures Sanitize(LowerAll(host)) == Sanitize(host)
  {
    LowerTwice(host);
  }

  lemma {:induction false} LowerTwice(s: string)
    ensures LowerAll(LowerAll(s)) == LowerAll(s)
  {
    if s != "" {
      LowerTwice(s[1..]);
    }
  }

  /** The characters that lower-case to an ASCII letter. */
  lemma SanitizeLowers(c: char)
    ensures 'A' <= c <= 'Z' ==> Sanitize([c]) == [c - 'A' + 'a']
    ensures Sanitize("\U{212A}") == "k" && Alnums(Sanitize("\U{0130}")) == "i"
  {
    if 'A' <= c <= 'Z' { LoweredLetter(c, c - 'A' + 'a'); }
    LoweredLetter('\U{212A}', 'k');
    SanitizeKeepsAlnums("\U{0130}");
    assert "\U{0130}"[1..] == "" && "i\U{0307}"[1..] == "\U{0307}" && "\U{0307}"[1..] == "";
  }

  lemma LoweredLetter(c: char, letter: char)
    requires 'a' <= letter <= 'z' && Lower(c) == [letter]
    ensures Sanitize([c]) == [letter]
  {
    SanitizeIgnoresCase([c]);
    assert [c][1..] == "" && LowerAll([c]) == [letter] + "" == [letter];
    CleanIsFixed([letter]);
  }

  // ---- Profile ids ----

  /** `rest` stands for the fields the ids do not depend on. */
  datatype Profile = Profile(environment: string, backend: string, remote: bool, remoteHost: Option<string>, rest: nat)

  function BuildId(host: string, environment: string, backend: string): string {
    Sanitize(host) + "-" + environment + "-" + backend
  }

  predicate IsOldStyle(id: string) {
    exists e, b :: e in {"production", "staging", "development"} && b in {"docker", "proxmox"} && id == e + "-" + b
  }

  function NewId(p: Profile): string {
    var host := if p.remote then (if p.remoteHost.Some? then p.remoteHost.value else "remote") else "local";
    BuildId(host, p.environment, p.backend)
  }

  /** A new id names the host its profile is for. */
  lemma NewIdNamesHost(p: Profile, host: string)
    requires Clean(host) && p.remote && p.remoteHost == Some(host)
    ensures NewId(p) == host + "-" + p.environment + "-" + p.backend
  {
    SanitizeFixes(host);
  }

  lemma NewIdOfLocal(p: Profile)
    ensures !p.remote ==> NewId(p) == "local" + "-" + p.environment + "-" + p.backend
    ensures p.remote && p.remoteHost.None? ==> NewId(p) == "remote" + "-" + p.environment + "-" + p.backend
  {
    WordIsFixed("local");
    WordIsFixed("remote");
  }

  lemma WordIsFixed(s: string)
    requires forall i :: 0 <= i < |s| ==> 'a' <= s[i] <= 'z'
    ensures Sanitize(s) == s
  {
    SanitizeFixes(s);
  }

  /** Of two remote profiles with the same environment and backend, the ids differ exactly as the hosts' names do. */
  lemma NewIdTellsHostsApart(p: Profile, q: Profile)
    requires p.remote && q.remote && p.remoteHost.Some? && q.remoteHost.Some?
    requires p.environment == q.environment && p.backend == q.backend
    ensures NewId(p) == NewId(q) <==> Sanitize(p.remoteHost.value) == Sanitize(q.remoteHost.value)
  {
    var a, b, tail := Sanitize(p.remoteHost.value), Sanitize(q.remoteHost.value), "-" + p.environment + "-" + p.backend;
    assert NewId(p) == a + tail && NewId(q) == b + tail;
    assert (a + tail)[..|NewId(p)| - |tail|] == a && (b + tail)[..|NewId(q)| - |tail|] == b;
  }

  function Hyphens(s: string): nat {
    if s == "" then 0 else (if s[0] == '-' then 1 else 0) + Hyphens(s[1..])
  }

  lemma {:induction false} HyphensAppend(a: string, b: string)
    ensures Hyphens(a + b) == Hyphens(a) + Hyphens(b)
  {
    if a == "" {
      assert a + b == b;
    } else {
      HyphensAppend(a[1..], b);
      assert (a + b)[1..] == a[1..] + b;
    }
  }

  lemma {:induction false} NoHyphens(s: string)
    requires '-' !in s
    ensures Hyphens(s) == 0
  {
    if s != "" { NoHyphens(s[1..]); }
  }

  lemma OneHyphenBetween(e: string, b: string)
    requires '-' !in e && '-' !in b
    ensures Hyphens(e + "-" + b) == 1
  {
    NoHyphens(e);
    NoHyphens(b);
    HyphensAppend(e, "-");
    HyphensAppend(e + "-", b);
  }

  lemma OldStyleHasOneHyphen(id: string)
    requires IsOldStyle(id)
    ensures Hyphens(id) == 1
  {
    var e, b :| e in {"production", "staging", "development"} && b in {"docker", "proxmox"} && id == e + "-" + b;
    OneHyphenBetween(e, b);
  }

  /** A new id is never an old-style one, whatever its parts. */
  lemma NewIdIsNotOldStyle(p: Profile)
    ensures !IsOldStyle(NewId(p))
  {
    var host := if p.remote then (if p.remoteHost.Some? then p.remoteHost.value else "remote") else "local";
    var prefix := Sanitize(host);
    HyphensAppend(prefix, "-");
    HyphensAppend(prefix + "-", p.environment);
    HyphensAppend(prefix + "-" + p.environment, "-");
    HyphensAppend(prefix + "-" + p.environment + "-", p.backend);
    if IsOldStyle(NewId(p)) { OldStyleHasOneHyphen(NewId(p)); }
  }

  /** What follows a hyphen is determined by its number of hyphens. */
  lemma SameTail(a: string, x: string, b: string, y: string)
    requires a + "-" + x == b + "-" + y && Hyphens(x) == Hyphens(y)
    ensures x == y
  {
    var s := a + "-" + x;
    if |x| < |y| {
      LongerTail(a, x, b, y);
    } else if |y| < |x| {
      LongerTail(b, y, a, x);
    } else {
      assert s[|s| - |x|..] == x && (b + "-" + y)[|s| - |y|..] == y;
    }
  }

  lemma LongerTail(a: string, x: string, b: string, y: string)
    requires a + "-" + x == b + "-" + y && |x| < |y|
    ensures Hyphens(x) < Hyphens(y)
  {
    var s, k := a + "-" + x, |y| - |x|;
    assert y == (b + "-" + y)[|s| - |y|..];
    assert y[k - 1] == s[|a|];
    assert y == y[..k - 1] + "-" + x;
    HyphensAppend(y[..k - 1], "-");
    HyphensAppend(y[..k - 1] + "-", x);
  }

  // ---- The profiles file ----

  datatype File = File(active: string, profiles: map<string, Profile>)

  /** The order in which a map lists its ids: any. */
  ghost predicate IsOrder(order: seq<string>, profiles: map<string, Profile>) {
    && (forall i, j :: 0 <= i < j < |order| ==> order[i] != order[j])
    && (forall i :: 0 <= i < |order| ==> order[i] in profiles)
    && (forall id :: id in profiles ==> exists i :: 0 <= i < |order| && order[i] == id)
  }

  /** The migration renames this id. */
  predicate Renamed(f: File, id: string) {
    id in f.profiles && IsOldStyle(id) && id != NewId(f.profiles[id]) && NewId(f.profiles[id]) !in f.profiles
  }

  datatype Rename = Rename(from: string, to: string)

  function Target(f: File, id: string): string {
    if id in f.profiles then NewId(f.profiles[id]) else id
  }

  /** The first loop: which ids to rename, in the map's order. */
  function Renames(f: File, order: seq<string>): seq<Rename> {
    if order == [] then []
    else
      var n := |order| - 1;
      Renames(f, order[..n]) + if Renamed(f, order[n]) then [Rename(order[n], Target(f, order[n]))] else []
  }

  function RenameOne(f: File, r: Rename): File {
    File(
      if f.active == r.from then r.to else f.active,
      if r.from in f.profiles then (f.profiles - {r.from})[r.to := f.profiles[r.from]] else f.profiles)
  }

  /** The second loop. */
  function RenameAll(f: File, renames: seq<Rename>): File {
    if renames == [] then f else RenameOne(RenameAll(f, renames[..|renames| - 1]), renames[|renames| - 1])
  }

  function Migrate(f: File, order: seq<string>): File {
    RenameAll(f, Renames(f, order))
  }

  // ---- What renaming does ----

  function RenamedIds(f: File): set<string> {
    set id | id in f.profiles && Renamed(f, id)
  }

  function Targets(f: File, ids: set<string>): set<string> {
    set id | id in ids :: Target(f, id)
  }

  ghost predicate DistinctTargets(f: File, ids: set<string>) {
    forall a, b :: a in ids && b in ids && a != b ==> Target(f, a) != Target(f, b)
  }

  /** `g` is `f` with the profiles `ids` moved to their targets, and the active pointer with them. */
  ghost predicate Moved(f: File, ids: set<string>, g: File)
    requires ids <= f.profiles.Keys
  {
    && g.profiles.Keys == (f.profiles.Keys - ids) + Targets(f, ids)
    && (DistinctTargets(f, ids) ==>
          forall id :: id in ids ==> Target(f, id) in g.profiles && g.profiles[Target(f, id)] == f.profiles[id])
    && (forall id :: id in f.profiles.Keys - ids ==> id in g.profiles && g.profiles[id] == f.profiles[id])
    && g.active == if f.active in ids then Target(f, f.active) else f.active
  }

  lemma OneMoreTarget(f: File, ids: set<string>, id: string)
    ensures Targets(f, ids + {id}) == Targets(f, ids) + {Target(f, id)}
  {
  }

  lemma KeysMove(keys: set<string>, ids: set<string>, targets: set<string>, id: string, to: string)
    requires targets !! keys && id in keys && id !in ids
    ensures (keys - ids) + targets - {id} + {to} == (keys - (ids + {id})) + (targets + {to})
  {
  }

  lemma MoveOneKeys(f: File, ids: set<string>, g: File, id: string)
    requires ids <= RenamedIds(f) && Moved(f, ids, g) && id in RenamedIds(f) && id !in ids
    ensures g.profiles.Keys - {id} + {Target(f, id)} == (f.profiles.Keys - (ids + {id})) + Targets(f, ids + {id})
    ensures id in g.profiles && g.profiles[id] == f.profiles[id] && Target(f, id) !in f.profiles
  {
    OneMoreTarget(f, ids, id);
    assert Targets(f, ids) !! f.profiles.Keys;
    KeysMove(f.profiles.Keys, ids, Targets(f, ids), id, Target(f, id));
  }

  lemma MoveOne(f: File, ids: set<string>, g: File, id: string)
    requires ids <= RenamedIds(f) && Moved(f, ids, g) && id in RenamedIds(f) && id !in ids
    ensures Moved(f, ids + {id}, RenameOne(g, Rename(id, Target(f, id))))
  {
    MoveOneKeys(f, ids, g, id);
    var h := RenameOne(g, Rename(id, Target(f, id)));
    assert h.profiles == (g.profiles - {id})[Target(f, id) := f.profiles[id]];
    assert h.profiles.Keys == g.profiles.Keys - {id} + {Target(f, id)};
    assert f.active in ids ==> Target(f, f.active) !in f.profiles;
  }

  function Froms(renames: seq<Rename>): set<string> {
    set i | 0 <= i < |renames| :: renames[i].from
  }

  /** Distinct ids, each with its target. */
  ghost predicate AreRenames(f: File, renames: seq<Rename>) {
    && (forall i :: 0 <= i < |renames| ==>
          renames[i].from in RenamedIds(f) && renames[i].to == Target(f, renames[i].from))
    && forall i, j :: 0 <= i < j < |renames| ==> renames[i].from != renames[j].from
  }

  lemma {:induction false} RenameAllMoves(f: File, renames: seq<Rename>)
    requires AreRenames(f, renames)
    ensures Froms(renames) <= RenamedIds(f) && Moved(f, Froms(renames), RenameAll(f, renames))
  {
    if renames != [] {
      var n := |renames| - 1;
      var before, r := renames[..n], renames[n];
      assert forall i :: 0 <= i < n ==> before[i] == renames[i];
      RenameAllMoves(f, before);
      FromsMore(renames);
      MoveOne(f, Froms(before), RenameAll(f, before), r.from);
    } else {
      assert Targets(f, {}) == {} && Froms(renames) == {};
    }
  }

  lemma FromsMore(renames: seq<Rename>)
    requires renames != [] && forall i, j :: 0 <= i < j < |renames| ==> renames[i].from != renames[j].from
    ensures var n := |renames| - 1;
      Froms(renames) == Froms(renames[..n]) + {renames[n].from} && renames[n].from !in Froms(renames[..n])
  {
    var n := |renames| - 1;
    assert forall i :: 0 <= i < n ==> renames[..n][i] == renames[i];
    forall id | id in Froms(renames) ensures id in Froms(renames[..n]) + {renames[n].from} {
      var i :| 0 <= i <= n && renames[i].from == id;
      if i < n { assert renames[..n][i].from in Froms(renames[..n]); }
    }
  }

  lemma {:induction false} RenamesAre(f: File, order: seq<string>)
    requires forall i, j :: 0 <= i < j < |order| ==> order[i] != order[j]
    ensures AreRenames(f, Renames(f, order))
    ensures forall id :: id in Froms(Renames(f, order)) <==> id in order && Renamed(f, id)
  {
    if order != [] {
      var n := |order| - 1;
      var before, all := Renames(f, order[..n]), Renames(f, order);
      RenamesAre(f, order[..n]);
      assert order == order[..n] + [order[n]];
      assert forall i :: 0 <= i < |before| ==> all[i] == before[i] && before[i].from in Froms(before);
      if Renamed(f, order[n]) {
        FromsMore(all);
        assert all[..|before|] == before;
      } else {
        assert all == before;
      }
    }
  }

  /** The migration moves exactly the ids to be renamed, whatever order the map lists them in. */
  lemma MigrateMoves(f: File, order: seq<string>)
    requires IsOrder(order, f.profiles)
    ensures Moved(f, RenamedIds(f), Migrate(f, order))
  {
    RenamesAre(f, order);
    RenameAllMoves(f, Renames(f, order));
    assert Froms(Renames(f, order)) == RenamedIds(f);
  }

  // ---- What the migration promises ----

  /** Each id to be renamed is its own profile's environment and backend. */
  ghost predicate OwnIds(f: File) {
    forall id :: id in RenamedIds(f) ==> id == f.profiles[id].environment + "-" + f.profiles[id].backend
  }

  lemma OwnIdsHaveDistinctTargets(f: File)
    requires OwnIds(f)
    ensures DistinctTargets(f, RenamedIds(f))
  {
    forall a, b | a in RenamedIds(f) && b in RenamedIds(f) && Target(f, a) == Target(f, b) ensures a == b {
      var prefix := TargetIsPrefixed(f, a);
      var prefix' := TargetIsPrefixed(f, b);
      OldStyleHasOneHyphen(a);
      OldStyleHasOneHyphen(b);
      SameTail(prefix, a, prefix', b);
    }
  }

  lemma TargetIsPrefixed(f: File, id: string) returns (prefix: string)
    requires OwnIds(f) && id in RenamedIds(f)
    ensures Target(f, id) == prefix + "-" + id
  {
    var p := f.profiles[id];
    var host := if p.remote then (if p.remoteHost.Some? then p.remoteHost.value else "remote") else "local";
    prefix := Sanitize(host);
    assert prefix + "-" + p.environment + "-" + p.backend == prefix + "-" + (p.environment + "-" + p.backend);
  }

  /** Where an id of `f` is after the migration. */
  function MovedId(f: File, id: string): string {
    if id in RenamedIds(f) then Target(f, id) else id
  }

  /** The profiles are the same, one for one, under their new ids, and the active one is still the active one. */
  ghost predicate OneForOne(f: File, g: File) {
    && (forall id :: id in f.profiles ==> MovedId(f, id) in g.profiles && g.profiles[MovedId(f, id)] == f.profiles[id])
    && (forall a, b :: a in f.profiles && b in f.profiles && a != b ==> MovedId(f, a) != MovedId(f, b))
    && g.profiles.Keys == (set id | id in f.profiles :: MovedId(f, id))
    && g.active == MovedId(f, f.active)
  }

  /** The migration loses nothing if and only if no two ids to be renamed have the same target. */
  lemma MigrationIsOneForOne(f: File, order: seq<string>)
    requires IsOrder(order, f.profiles)
    ensures OneForOne(f, Migrate(f, order)) <==> DistinctTargets(f, RenamedIds(f))
    ensures OwnIds(f) ==> OneForOne(f, Migrate(f, order))
  {
    MigrateMoves(f, order);
    var g := Migrate(f, order);
    if OwnIds(f) { OwnIdsHaveDistinctTargets(f); }
    if DistinctTargets(f, RenamedIds(f)) { MovedIsOneForOne(f, g); }
  }

  lemma MovedIsOneForOne(f: File, g: File)
    requires Moved(f, RenamedIds(f), g) && DistinctTargets(f, RenamedIds(f))
    ensures OneForOne(f, g)
  {
    forall a, b | a in f.profiles && b in f.profiles && a != b ensures MovedId(f, a) != MovedId(f, b) {
      assert a in RenamedIds(f) ==> Target(f, a) !in f.profiles;
      assert b in RenamedIds(f) ==> Target(f, b) !in f.profiles;
    }
  }

  /**
   * What the migration does to one id. Only the six ids of an environment and a backend are renamed, each
   * to the new id of its profile, and only if that id is not taken; every other profile keeps its id.
   */
  lemma MigrationMovesOldIds(f: File, order: seq<string>, id: string)
    requires IsOrder(order, f.profiles) && id in f.profiles
    ensures var g, to := Migrate(f, order), NewId(f.profiles[id]);
      var oldStyle := id in {"production-docker", "production-proxmox", "staging-docker", "staging-proxmox",
                             "development-docker", "development-proxmox"};
      if oldStyle && to !in f.profiles then
        && to in g.profiles && id !in g.profiles
        && (DistinctTargets(f, RenamedIds(f)) ==> g.profiles[to] == f.profiles[id])
        && (f.active == id ==> g.active == to)
      else id in g.profiles && g.profiles[id] == f.profiles[id] && (f.active == id ==> g.active == id)
  {
    MigrateMoves(f, order);
    OldStyleAre(id);
    var g := Migrate(f, order);
    if id in RenamedIds(f) {
      assert Target(f, id) in Targets(f, RenamedIds(f));
      forall other | other in RenamedIds(f) ensures Target(f, other) != id {}
    }
  }

  lemma OldStyleAre(id: string)
    ensures IsOldStyle(id) <==> id in {"production-docker", "production-proxmox", "staging-docker", "staging-proxmox",
                                       "development-docker", "development-proxmox"}
  {
    assert "production" + "-" + "docker" == "production-docker";
    assert "production" + "-" + "proxmox" == "production-proxmox";
    assert "staging" + "-" + "docker" == "staging-docker" && "staging" + "-" + "proxmox" == "staging-proxmox";
    assert "development" + "-" + "docker" == "development-docker";
    assert "development" + "-" + "proxmox" == "development-proxmox";
  }

  /** Two old ids whose profiles have the same environment, backend and host: one of the two profiles is lost. */
  lemma SameTargetLosesAProfile(p: Profile, q: Profile, order: seq<string>)
    requires p.environment == q.environment && p.backend == q.backend && !p.remote && !q.remote
    requires IsOrder(order, map["production-docker" := p, "staging-docker" := q])
    ensures var f := File("", map["production-docker" := p, "staging-docker" := q]);
      !OneForOne(f, Migrate(f, order))
  {
    var f := File("", map["production-docker" := p, "staging-docker" := q]);
    assert "production" + "-" + "docker" == "production-docker" && "staging" + "-" + "docker" == "staging-docker";
    NewIdIsNotOldStyle(p);
    NewIdIsNotOldStyle(q);
    assert "production-docker" in RenamedIds(f) && "staging-docker" in RenamedIds(f);
    MigrationIsOneForOne(f, order);
    assert Target(f, "production-docker") == Target(f, "staging-docker");
  }

  /** Collisions or not, a migration leaves nothing for a second one to rename. */
  lemma SecondMigrationRenamesNothing(f: File, order: seq<string>, again: seq<string>)
    requires IsOrder(order, f.profiles) && IsOrder(again, Migrate(f, order).profiles)
    ensures Migrate(Migrate(f, order), again) == Migrate(f, order)
  {
    var g := Migrate(f, order);
    MigrateMoves(f, order);
    forall id | id in g.profiles ensures !Renamed(g, id) {
      if IsOldStyle(id) {
        forall a | a in RenamedIds(f) ensures Target(f, a) != id { NewIdIsNotOldStyle(f.profiles[a]); }
        assert id in f.profiles.Keys - RenamedIds(f);
        NewIdIsNotOldStyle(f.profiles[id]);
        assert NewId(f.profiles[id]) in f.profiles.Keys - RenamedIds(f);
      }
    }
    NothingToRename(g, again);
  }

  lemma {:induction false} NothingToRename(f: File, order: seq<string>)
    requires forall id :: id in order ==> !Renamed(f, id)
    ensures Renames(f, order) == []
  {
    if order != [] { NothingToRename(f, order[..|order| - 1]); }
  }

  // ---- Every operation keeps the active pointer ----

  /** The active id is empty or in the map. */
  predicate ActiveOk(f: File) {
    f.active == "" || f.active in f.profiles
  }

  lemma MigrationKeepsActive(f: File, order: seq<string>)
    requires IsOrder(order, f.profiles) && ActiveOk(f)
    ensures ActiveOk(Migrate(f, order))
  {
    MigrateMoves(f, order);
    if f.active in RenamedIds(f) { assert Target(f, f.active) in Targets(f, RenamedIds(f)); }
  }

  /** Every operation loads, and so migrates, first; `pick` is the key a map lists first. */
  datatype Op =
    | Load
    | Upsert(id: string, profile: Profile, setActive: bool)
    | Create(id: string, profile: Profile, setActive: bool)
    | Delete(id: string, pick: string)

  function Insert(f: File, id: string, profile: Profile, setActive: bool): File {
    File(if setActive then id else f.active, f.profiles[id := profile])
  }

  function Remove(f: File, id: string, pick: string): File {
    var rest := f.profiles - {id};
    File(if f.active != id then f.active else if rest == map[] then "" else pick, rest)
  }

  function Do(f: File, op: Op): File {
    match op
    case Load => f
    case Upsert(id, profile, setActive) => Insert(f, id, profile, setActive)
    case Create(id, profile, setActive) => if id in f.profiles then f else Insert(f, id, profile, setActive)
    case Delete(id, pick) => if id in f.profiles then Remove(f, id, pick) else f
  }

  ghost predicate Enabled(f: File, op: Op, order: seq<string>) {
    && IsOrder(order, f.profiles)
    && (op.Delete? && Migrate(f, order).profiles - {op.id} != map[] ==> op.pick in Migrate(f, order).profiles - {op.id})
  }

  ghost predicate IsRun(f: File, run: seq<(Op, seq<string>)>)
    decreases |run|
  {
    run == [] || (Enabled(f, run[0].0, run[0].1) && IsRun(Do(Migrate(f, run[0].1), run[0].0), run[1..]))
  }

  ghost function After(f: File, run: seq<(Op, seq<string>)>): File
    requires IsRun(f, run)
    decreases |run|
  {
    if run == [] then f else After(Do(Migrate(f, run[0].1), run[0].0), run[1..])
  }

  /** After any sequence of loads, upserts, creations and deletions the active id is empty or in the map. */
  lemma {:induction false} RunKeepsActive(f: File, run: seq<(Op, seq<string>)>)
    requires ActiveOk(f) && IsRun(f, run)
    ensures ActiveOk(After(f, run))
    decreases |run|
  {
    if run != [] {
      MigrationKeepsActive(f, run[0].1);
      RunKeepsActive(Do(Migrate(f, run[0].1), run[0].0), run[1..]);
    }
  }

  // ---- The file in memory ----

  class ProfilesFile {
    var active: string
    var profiles: map<string, Profile>

    function Contents(): File
      reads this
    {
      File(active, profiles)
    }

    constructor (f: File)
      ensures Contents() == f
    {
      active, profiles := f.active, f.profiles;
    }

    /** The first loop of `migrate_profile_ids`: nothing is changed while the renames are collected. */
    method CollectRenames() returns (renames: seq<Rename>)
      ensures AreRenames(Contents(), renames) && Froms(renames) == RenamedIds(Contents())
    {
      renames := [];
      var rest := profiles.Keys;
      while rest != {}
        invariant rest <= profiles.Keys
        invariant AreRenames(Contents(), renames) && Froms(renames) == RenamedIds(Contents()) - rest
        decreases |rest|
      {
        var id :| id in rest;
        rest := rest - {id};
        if !IsOldStyle(id) { continue; }
        var newId := NewId(profiles[id]);
        if id == newId || newId in profiles { continue; }
        MoreRenames(Contents(), renames, Rename(id, newId));
        renames := renames + [Rename(id, newId)];
      }
    }

    /** The second loop. */
    method ApplyRenames(renames: seq<Rename>)
      modifies this
      ensures Contents() == RenameAll(old(Contents()), renames)
    {
      for i := 0 to |renames|
        invariant Contents() == RenameAll(old(Contents()), renames[..i])
      {
        assert renames[..i + 1][..i] == renames[..i];
        var from, to := renames[i].from, renames[i].to;
        if from in profiles { profiles := (profiles - {from})[to := profiles[from]]; }
        if active == from { active := to; }
      }
      assert renames[..|renames|] == renames;
    }

    /** `migrate_profile_ids` */
    method MigrateProfileIds() returns (migrated: bool)
      modifies this
      ensures Moved(old(Contents()), RenamedIds(old(Contents())), Contents())
      ensures migrated <==> RenamedIds(old(Contents())) != {}
      ensures !migrated ==> Contents() == old(Contents())
    {
      var renames := CollectRenames();
      RenameAllMoves(Contents(), renames);
      if renames == [] { return false; }
      assert renames[0].from in Froms(renames);
      ApplyRenames(renames);
      migrated := true;
    }

    /** `upsert_profile` after loading */
    method Upsert(id: string, profile: Profile, setActive: bool)
      modifies this
      ensures Contents() == Insert(old(Contents()), id, profile, setActive)
      ensures profiles == old(profiles)[id := profile] && active == if setActive then id else old(active)
      ensures ActiveOk(old(Contents())) ==> ActiveOk(Contents())
    {
      profiles := profiles[id := profile];
      if setActive { active := id; }
    }

    /** `create_profile` after loading */
    method Create(id: string, profile: Profile, setActive: bool) returns (ok: bool)
      modifies this
      ensures ok <==> id !in old(profiles)
      ensures Contents() == Do(old(Contents()), Op.Create(id, profile, setActive))
      ensures !ok ==> Contents() == old(Contents())
      ensures ok ==> profiles == old(profiles)[id := profile] && active == if setActive then id else old(active)
    {
      if id in profiles { return false; }
      Upsert(id, profile, setActive);
      ok := true;
    }

    /** `delete_profile` after loading: if the active profile goes, any other becomes active. */
    method Delete(id: string) returns (ok: bool)
      modifies this
      ensures ok <==> id in old(profiles)
      ensures profiles == old(profiles) - {id}
      ensures exists pick :: Contents() == Do(old(Contents()), Op.Delete(id, pick))
      ensures active == old(active) ||
              (ok && old(active) == id && (active in profiles || (profiles == map[] && active == "")))
      ensures ActiveOk(old(Contents())) ==> ActiveOk(Contents())
    {
      ghost var before := Contents();
      if id !in profiles {
        assert profiles - {id} == profiles;
        assert Contents() == Do(before, Op.Delete(id, ""));
        return false;
      }
      profiles := profiles - {id};
      if active == id {
        if profiles.Keys == {} {
          active := "";
        } else {
          var next :| next in profiles;
          active := next;
        }
      }
      ok := true;
      assert Contents() == Do(before, Op.Delete(id, active));
    }
  }

  lemma MoreRenames(f: File, renames: seq<Rename>, r: Rename)
    requires AreRenames(f, renames) && r.from in RenamedIds(f) && r.to == Target(f, r.from) && r.from !in Froms(renames)
    ensures AreRenames(f, renames + [r]) && Froms(renames + [r]) == Froms(renames) + {r.from}
  {
    var more := renames + [r];
    assert forall i :: 0 <= i < |renames| ==> more[i] == renames[i] && renames[i].from in Froms(renames);
    assert more[..|renames|] == renames;
    FromsMore(more);
  }
}