/** The profile's lines in its state file (cli/busibox-core/src/profile.rs, `write_profile_state`). */
module StateFile {
  import opened Strings

  // ---- Lines ----

  function LineEnd(s: string): (i: nat)
    ensures i <= |s| && (forall k :: 0 <= k < i ==> s[k] != '\n') && (i < |s| ==> s[i] == '\n')
  {
    if s == "" || s[0] == '\n' then 0
    else LineEnd(s[1..]) + 1
  }

  function StripCr(line: string): string {
    if line != "" && line[|line| - 1] == '\r' then line[..|line| - 1] else line
  }

  /** `str::lines`: a carriage return is dropped only before a newline. */
  function LinesOf(s: string): seq<string>
    decreases |s|
  {
    if s == "" then []
    else
      var i := LineEnd(s);
      if i == |s| then [s] else [StripCr(s[..i])] + LinesOf(s[i + 1..])
  }

  function Join(lines: seq<string>): string {
    if lines == [] then "" else if |lines| == 1 then lines[0] else lines[0] + "\n" + Join(lines[1..])
  }

  predicate OneLine(line: string) { '\n' !in line }

  lemma LineEndIs(line: string, rest: string)
    requires OneLine(line)
    ensures LineEnd(line + "\n" + rest) == |line|
  {
    var s := line + "\n" + rest;
    assert s[|line|] == '\n';
    assert forall k :: 0 <= k < |line| ==> s[k] == line[k];
  }

  function StripAll(lines: seq<string>): seq<string> {
    seq(|lines|, i requires 0 <= i < |lines| => StripCr(lines[i]))
  }

  lemma LinesOfFirst(line: string, rest: string)
    requires OneLine(line)
    ensures LinesOf(line + "\n" + rest) == [StripCr(line)] + LinesOf(rest)
  {
    var s := line + "\n" + rest;
    LineEndIs(line, rest);
    assert s[..|line|] == line && s[|line| + 1..] == rest;
  }

  /** A last line without a newline is taken as it is. */
  lemma LinesOfLast(line: string)
    requires line != "" && OneLine(line)
    ensures LinesOf(line) == [line]
  {
    assert forall k :: 0 <= k < |line| ==> line[k] in line;
  }

  lemma StripFirst(lines: seq<string>)
    requires lines != []
    ensures StripAll(lines) == [StripCr(lines[0])] + StripAll(lines[1..])
  {
  }

  /** Lines that are joined and ended come back, each without its final carriage return. */
  lemma {:induction false} LinesOfJoin(lines: seq<string>)
    requires lines != [] && forall l :: l in lines ==> OneLine(l)
    ensures LinesOf(Join(lines) + "\n") == StripAll(lines)
  {
    StripFirst(lines);
    if |lines| == 1 {
      LinesOfFirst(lines[0], "");
      assert Join(lines) + "\n" == lines[0] + "\n" + "";
    } else {
      LinesOfFirst(lines[0], Join(lines[1..]) + "\n");
      assert Join(lines) + "\n" == lines[0] + "\n" + (Join(lines[1..]) + "\n");
      LinesOfJoin(lines[1..]);
    }
  }

  lemma {:induction false} LinesAreOneLine(s: string)
    ensures forall l :: l in LinesOf(s) ==> OneLine(l)
    decreases |s|
  {
    if s != "" {
      var i := LineEnd(s);
      if i < |s| { LinesAreOneLine(s[i + 1..]); } else { assert s[..i] == s; }
    }
  }

  // ---- What the profile manages ----

  const KEYS := [
    "ADMIN_EMAIL=", "ALLOWED_DOMAINS=", "MODEL_TIER=", "LLM_BACKEND=", "SITE_DOMAIN=", "SSL_CERT_NAME=",
    "DOCKER_RUNTIME=",
    "CLOUD_PROVIDER=", "CLOUD_API_KEY=", "OPENAI_API_KEY=", "ANTHROPIC_API_KEY=", "KUBECONFIG=", "K8S_OVERLAY=",
    "SPOT_TOKEN=", "DEV_APPS_DIR="]

  datatype Profile = Profile(
    adminEmail: Option<string>, allowedDomains: Option<string>, modelTier: Option<string>,
    hardwareBackend: Option<string>, siteDomain: Option<string>, sslCertName: Option<string>,
    dockerRuntime: Option<string>, cloudProvider: Option<string>, cloudApiKey: Option<string>,
    backendOverride: Option<string>, kubeconfig: Option<string>, k8sOverlay: Option<string>,
    spotToken: Option<string>, devAppsDir: Option<string>)

  predicate IsManaged(keys: seq<string>, line: string) {
    exists k :: 0 <= k < |keys| && keys[k] <= line
  }

  /** The value the profile wants under a key, if any. */
  function Wanted(p: Profile, k: nat): Option<string>
    requires k < 15
  {
    match k
    case 0 => p.adminEmail
    case 1 => p.allowedDomains
    case 2 => p.modelTier
    case 3 =>
      if p.hardwareBackend.Some? then p.hardwareBackend
      else if p.backendOverride == Some("cloud") then Some("cloud")
      else None
    case 4 => p.siteDomain
    case 5 => p.sslCertName
    case 6 => p.dockerRuntime
    case 7 => p.cloudProvider
    case 8 => if p.cloudProvider in {Some("openai"), Some("anthropic")} then None else p.cloudApiKey
    case 9 => if p.cloudProvider == Some("openai") then p.cloudApiKey else None
    case 10 => if p.cloudProvider == Some("anthropic") then p.cloudApiKey else None
    case 11 => p.kubeconfig
    case 12 => p.k8sOverlay
    case 13 => p.spotToken
    case _ => p.devAppsDir
  }

  /** A table of keys like `KEYS`: each ends in its only equals sign, and no two are the same. */
  ghost predicate GoodKeys(keys: seq<string>) {
    && |keys| == 15
    && (forall k :: 0 <= k < 15 ==> GoodKey(keys[k]))
    && (forall m, n :: 0 <= m < n < |keys| ==> keys[m] != keys[n])
  }

  predicate GoodKey(key: string) {
    && key != "" && key[|key| - 1] == '=' && OneLine(key)
    && forall q :: 0 <= q < |key| - 1 ==> key[q] != '='
  }

  lemma KeyEnds(k: nat)
    requires k < |KEYS|
    ensures KEYS[k] != "" && KEYS[k][|KEYS[k]| - 1] == '='
    ensures forall q :: 0 <= q < |KEYS[k]| - 1 ==> KEYS[k][q] != '='
  {
  }

  lemma KeyIsOneLine(k: nat)
    requires k < |KEYS|
    ensures OneLine(KEYS[k])
  {
  }

  lemma KeysDiffer(m: nat, n: nat)
    requires m < |KEYS| && n < |KEYS| && KEYS[m] == KEYS[n]
    ensures m == n
  {
  }

  lemma KeysAreGood(keys: seq<string>)
    requires keys == KEYS
    ensures GoodKeys(keys)
  {
    forall k | 0 <= k < |keys| ensures GoodKey(keys[k]) {
      KeyEnds(k);
      KeyIsOneLine(k);
    }
    forall m, n | 0 <= m < n < |keys| ensures keys[m] != keys[n] { if keys[m] == keys[n] { KeysDiffer(m, n); } }
    assert |keys| == 15;
  }

  lemma KeysAreApart(a: string, b: string, value: string)
    requires GoodKey(a) && GoodKey(b) && a <= b + value
    ensures a == b
  {
    var line := b + value;
    assert forall q :: 0 <= q < |a| ==> a[q] == line[q];
    assert forall q :: 0 <= q < |b| ==> b[q] == line[q];
    assert line[|a| - 1] == '=' && line[|b| - 1] == '=';
    assert |a| == |b|;
  }

  // ---- The new contents ----

  predicate StartsWith(keys: seq<string>, line: string, k: nat)
    requires k < |keys|
  {
    keys[k] <= line
  }

  function Kept(keys: seq<string>, lines: seq<string>): seq<string> {
    if lines == [] then [] else (if IsManaged(keys, lines[0]) then [] else [lines[0]]) + Kept(keys, lines[1..])
  }

  /** The n-th key in the order they are written; the cloud override's backend comes after the cloud key. */
  function Nth(p: Profile, n: nat): (k: nat)
    requires n < 15
    ensures k < 15
  {
    if p.hardwareBackend.Some? || n < 3 || n > 10 then n else if n == 10 then 3 else n + 1
  }

  /** The profile's lines from the n-th key on. */
  function ManagedLines(keys: seq<string>, p: Profile, n: nat): seq<string>
    requires |keys| == 15 && n <= 15
    decreases 15 - n
  {
    if n == 15 then []
    else
      var rest := ManagedLines(keys, p, n + 1);
      match Wanted(p, Nth(p, n))
      case None => rest
      case Some(v) => [keys[Nth(p, n)] + v] + rest
  }

  function NewLines(keys: seq<string>, existing: string, p: Profile): seq<string>
    requires |keys| == 15
  {
    Kept(keys, LinesOf(existing)) + ManagedLines(keys, p, 0)
  }

  function Written(keys: seq<string>, existing: string, p: Profile): string
    requires |keys| == 15
  {
    Join(NewLines(keys, existing, p)) + "\n"
  }

  /** Profile values hold no newline. */
  predicate OneLineValues(p: Profile) {
    forall k :: 0 <= k < 15 && Wanted(p, k).Some? ==> OneLine(Wanted(p, k).value)
  }

  function Count(keys: seq<string>, lines: seq<string>, k: nat): nat
    requires k < |keys|
  {
    if lines == [] then 0 else (if StartsWith(keys, lines[0], k) then 1 else 0) + Count(keys, lines[1..], k)
  }

  // ---- One line per key, the others in order ----

  lemma {:induction false} KeptIs(keys: seq<string>, lines: seq<string>)
    ensures forall l :: l in Kept(keys, lines) ==> l in lines && !IsManaged(keys, l)
    ensures (forall l :: l in lines ==> !IsManaged(keys, l)) ==> Kept(keys, lines) == lines
    ensures (forall l :: l in lines ==> IsManaged(keys, l)) ==> Kept(keys, lines) == []
  {
    if lines != [] {
      KeptIs(keys, lines[1..]);
      assert lines == [lines[0]] + lines[1..];
    }
  }

  lemma {:induction false} KeptAppend(keys: seq<string>, a: seq<string>, b: seq<string>)
    ensures Kept(keys, a + b) == Kept(keys, a) + Kept(keys, b)
  {
    if a == [] {
      assert a + b == b;
    } else {
      KeptAppend(keys, a[1..], b);
      assert (a + b)[1..] == a[1..] + b && (a + b)[0] == a[0];
      var first := if IsManaged(keys, a[0]) then [] else [a[0]];
      assert first + (Kept(keys, a[1..]) + Kept(keys, b)) == (first + Kept(keys, a[1..])) + Kept(keys, b);
    }
  }

  lemma {:induction false} CountAppend(keys: seq<string>, a: seq<string>, b: seq<string>, k: nat)
    requires k < |keys|
    ensures Count(keys, a + b, k) == Count(keys, a, k) + Count(keys, b, k)
  {
    if a == [] {
      assert a + b == b;
    } else {
      CountAppend(keys, a[1..], b, k);
      assert (a + b)[1..] == a[1..] + b;
    }
  }

  lemma {:induction false} CountUnmanaged(keys: seq<string>, lines: seq<string>, k: nat)
    requires GoodKeys(keys) && k < 15 && forall l :: l in lines ==> !IsManaged(keys, l)
    ensures Count(keys, lines, k) == 0
  {
    if lines != [] {
      assert lines[0] in lines && !StartsWith(keys, lines[0], k);
      CountUnmanaged(keys, lines[1..], k);
    }
  }

  lemma {:induction false} ManagedAre(keys: seq<string>, p: Profile, n: nat)
    requires GoodKeys(keys) && n <= 15 && OneLineValues(p)
    ensures forall l :: l in ManagedLines(keys, p, n) ==> IsManaged(keys, l) && OneLine(l)
    decreases 15 - n
  {
    if n < 15 {
      ManagedAre(keys, p, n + 1);
      var k := Nth(p, n);
      if Wanted(p, k).Some? {
        assert StartsWith(keys, keys[k] + Wanted(p, k).value, k);
      }
    }
  }

  /** Whether key `k` comes at or after position `n`. */
  ghost predicate Comes(p: Profile, n: nat, k: nat) {
    exists m :: n <= m < 15 && Nth(p, m) == k
  }

  lemma {:induction false} CountManaged(keys: seq<string>, p: Profile, n: nat, k: nat)
    requires GoodKeys(keys) && n <= 15 && k < 15
    ensures Count(keys, ManagedLines(keys, p, n), k) == if Comes(p, n, k) && Wanted(p, k).Some? then 1 else 0
    ensures Comes(p, n, k) && Wanted(p, k).Some? ==> keys[k] + Wanted(p, k).value in ManagedLines(keys, p, n)
    decreases 15 - n
  {
    if n < 15 {
      CountManaged(keys, p, n + 1, k);
      var m := Nth(p, n);
      assert Comes(p, n, k) <==> m == k || Comes(p, n + 1, k);
      assert !(m == k && Comes(p, n + 1, k));
      if Wanted(p, m).Some? { FirstLine(keys, m, Wanted(p, m).value, ManagedLines(keys, p, n + 1), k); }
    }
  }

  lemma FirstLine(keys: seq<string>, m: nat, v: string, rest: seq<string>, k: nat)
    requires GoodKeys(keys) && m < 15 && k < 15
    ensures Count(keys, [keys[m] + v] + rest, k) == (if m == k then 1 else 0) + Count(keys, rest, k)
  {
    var line := keys[m] + v;
    if StartsWith(keys, line, k) { KeysAreApart(keys[k], keys[m], v); }
    assert m == k ==> StartsWith(keys, line, k);
    assert ([line] + rest)[1..] == rest;
  }

  lemma EveryKeyComes(p: Profile, k: nat)
    requires k < 15
    ensures Comes(p, 0, k)
  {
    var m := if p.hardwareBackend.Some? || k < 3 || k > 10 then k else if k == 3 then 10 else k - 1;
    assert Nth(p, m) == k;
  }

  lemma StripKeepsKeys(keys: seq<string>, line: string)
    requires GoodKeys(keys)
    ensures IsManaged(keys, StripCr(line)) <==> IsManaged(keys, line)
    ensures forall k :: 0 <= k < 15 ==> (StartsWith(keys, StripCr(line), k) <==> StartsWith(keys, line, k))
  {
    forall k | 0 <= k < 15 ensures StartsWith(keys, StripCr(line), k) <==> StartsWith(keys, line, k) {
      if StartsWith(keys, line, k) { assert line[|keys[k]| - 1] == '='; }
    }
  }

  lemma {:induction false} CountStrip(keys: seq<string>, lines: seq<string>, k: nat)
    requires GoodKeys(keys) && k < 15
    ensures Count(keys, StripAll(lines), k) == Count(keys, lines, k)
  {
    if lines != [] {
      StripKeepsKeys(keys, lines[0]);
      CountStrip(keys, lines[1..], k);
      assert StripAll(lines)[1..] == StripAll(lines[1..]);
    }
  }

  lemma StripJoined(line: string, rest: seq<string>)
    ensures StripAll([line] + rest) == [StripCr(line)] + StripAll(rest)
  {
    StripFirst([line] + rest);
    assert ([line] + rest)[1..] == rest;
  }

  lemma KeptJoined(keys: seq<string>, line: string, rest: seq<string>)
    ensures Kept(keys, [line] + rest) == (if IsManaged(keys, line) then [] else [line]) + Kept(keys, rest)
  {
    assert ([line] + rest)[1..] == rest;
  }

  lemma {:induction false} KeptStrip(keys: seq<string>, lines: seq<string>)
    requires GoodKeys(keys)
    ensures Kept(keys, StripAll(lines)) == StripAll(Kept(keys, lines))
  {
    if lines != [] {
      StripKeepsKeys(keys, lines[0]);
      KeptStrip(keys, lines[1..]);
      StripFirst(lines);
      StripJoined(lines[0], Kept(keys, lines[1..]));
      KeptJoined(keys, StripCr(lines[0]), StripAll(lines[1..]));
    }
  }

  lemma NewLinesAreOneLine(keys: seq<string>, existing: string, p: Profile)
    requires GoodKeys(keys) && OneLineValues(p)
    ensures forall l :: l in NewLines(keys, existing, p) ==> OneLine(l)
  {
    LinesAreOneLine(existing);
    KeptIs(keys, LinesOf(existing));
    ManagedAre(keys, p, 0);
  }

  /** What reading the new file line by line gives. */
  lemma ReadBack(keys: seq<string>, existing: string, p: Profile)
    requires GoodKeys(keys) && OneLineValues(p)
    ensures LinesOf(Written(keys, existing, p)) ==
            if NewLines(keys, existing, p) == [] then [""] else StripAll(NewLines(keys, existing, p))
  {
    if NewLines(keys, existing, p) == [] {
      assert Written(keys, existing, p) == "" + "\n" + "";
      LineEndIs("", "");
    } else {
      NewLinesAreOneLine(keys, existing, p);
      LinesOfJoin(NewLines(keys, existing, p));
    }
  }

  lemma CountNew(keys: seq<string>, existing: string, p: Profile, k: nat)
    requires GoodKeys(keys) && k < 15
    ensures Count(keys, NewLines(keys, existing, p), k) == if Wanted(p, k).Some? then 1 else 0
    ensures Wanted(p, k).Some? ==> keys[k] + Wanted(p, k).value in NewLines(keys, existing, p)
  {
    KeptIs(keys, LinesOf(existing));
    CountUnmanaged(keys, Kept(keys, LinesOf(existing)), k);
    EveryKeyComes(p, k);
    CountManaged(keys, p, 0, k);
    CountAppend(keys, Kept(keys, LinesOf(existing)), ManagedLines(keys, p, 0), k);
  }

  lemma InStripAll(lines: seq<string>, line: string)
    requires line in lines
    ensures StripCr(line) in StripAll(lines)
  {
    var i :| 0 <= i < |lines| && lines[i] == line;
    assert StripAll(lines)[i] == StripCr(line);
  }

  /** Each managed key has exactly one line, with the profile's value, or none if the profile has none. */
  lemma OneLinePerKey(keys: seq<string>, existing: string, p: Profile, k: nat)
    requires GoodKeys(keys) && OneLineValues(p) && k < 15
    ensures Count(keys, LinesOf(Written(keys, existing, p)), k) == if Wanted(p, k).Some? then 1 else 0
    ensures Wanted(p, k).Some? ==> StripCr(keys[k] + Wanted(p, k).value) in LinesOf(Written(keys, existing, p))
  {
    ReadBack(keys, existing, p);
    CountNew(keys, existing, p, k);
    CountStrip(keys, NewLines(keys, existing, p), k);
    if Wanted(p, k).Some? {
      InStripAll(NewLines(keys, existing, p), keys[k] + Wanted(p, k).value);
    } else if NewLines(keys, existing, p) == [] {
      assert !StartsWith(keys, "", k);
    }
  }

  /** The lines have exactly one under `key`, with the value, or none if there is no value. */
  ghost predicate HasLine(lines: seq<string>, key: string, value: Option<string>) {
    match value
    case None => forall l :: l in lines ==> !(key <= l)
    case Some(v) => exists i :: 0 <= i < |lines| && lines[i] == StripCr(key + v)
                                && forall j :: 0 <= j < |lines| && key <= lines[j] ==> j == i
  }

  lemma {:induction false} CountNone(keys: seq<string>, lines: seq<string>, k: nat)
    requires k < |keys|
    ensures Count(keys, lines, k) == 0 <==> forall l :: l in lines ==> !(keys[k] <= l)
  {
    if lines != [] {
      CountNone(keys, lines[1..], k);
      assert forall l :: l in lines ==> l == lines[0] || l in lines[1..];
      assert lines[0] in lines && forall l :: l in lines[1..] ==> l in lines;
    }
  }

  lemma {:induction false} CountOne(keys: seq<string>, lines: seq<string>, k: nat) returns (i: nat)
    requires k < |keys| && Count(keys, lines, k) == 1
    ensures i < |lines| && keys[k] <= lines[i] && forall j :: 0 <= j < |lines| && keys[k] <= lines[j] ==> j == i
  {
    if keys[k] <= lines[0] {
      i := 0;
      CountNone(keys, lines[1..], k);
      forall j | 0 < j < |lines| ensures !(keys[k] <= lines[j]) { assert lines[j] in lines[1..]; }
    } else {
      var m := CountOne(keys, lines[1..], k);
      i := m + 1;
      forall j | 0 <= j < |lines| && keys[k] <= lines[j] ensures j == i {
        if j > 0 { assert lines[1..][j - 1] == lines[j]; }
      }
    }
  }

  lemma LineUnder(keys: seq<string>, existing: string, p: Profile, k: nat, value: Option<string>)
    requires GoodKeys(keys) && OneLineValues(p) && k < 15 && Wanted(p, k) == value
    ensures HasLine(LinesOf(Written(keys, existing, p)), keys[k], value)
  {
    var lines := LinesOf(Written(keys, existing, p));
    OneLinePerKey(keys, existing, p, k);
    match value
    case None => CountNone(keys, lines, k);
    case Some(v) =>
      var i := CountOne(keys, lines, k);
      StripKeepsKeys(keys, keys[k] + v);
      assert StartsWith(keys, keys[k] + v, k);
      var m :| 0 <= m < |lines| && lines[m] == StripCr(keys[k] + v);
      assert m == i;
  }

  /** The lines are those of the file written for the profile. */
  ghost predicate AreLines(lines: seq<string>, existing: string, p: Profile) {
    OneLineValues(p) && lines == LinesOf(Written(KEYS, existing, p))
  }

  lemma WantedLine(
    lines: seq<string>, existing: string, p: Profile, k: nat, key: string, value: Option<string>)
    requires AreLines(lines, existing, p) && k < 15 && KEYS[k] == key && Wanted(p, k) == value
    ensures HasLine(lines, key, value)
  {
    KeysAreGood(KEYS);
    LineUnder(KEYS, existing, p, k, value);
  }

  /** The provider's key goes under the provider's own name. */
  lemma CloudKeyLines(lines: seq<string>, existing: string, p: Profile)
    requires AreLines(lines, existing, p)
    ensures HasLine(lines, "OPENAI_API_KEY=", if p.cloudProvider == Some("openai") then p.cloudApiKey else None)
    ensures HasLine(lines, "ANTHROPIC_API_KEY=",
              if p.cloudProvider == Some("anthropic") then p.cloudApiKey else None)
  {
    WantedLine(lines, existing, p, 9, "OPENAI_API_KEY=", Wanted(p, 9));
    WantedLine(lines, existing, p, 10, "ANTHROPIC_API_KEY=", Wanted(p, 10));
  }

  /** Any other provider's goes under the common one. */
  lemma ProviderLines(lines: seq<string>, existing: string, p: Profile)
    requires AreLines(lines, existing, p)
    ensures HasLine(lines, "CLOUD_PROVIDER=", p.cloudProvider)
    ensures HasLine(lines, "CLOUD_API_KEY=",
              if p.cloudProvider in {Some("openai"), Some("anthropic")} then None else p.cloudApiKey)
  {
    WantedLine(lines, existing, p, 7, "CLOUD_PROVIDER=", p.cloudProvider);
    WantedLine(lines, existing, p, 8, "CLOUD_API_KEY=", Wanted(p, 8));
  }

  /** The hardware's backend, or else the cloud if that is forced. */
  lemma BackendLine(lines: seq<string>, existing: string, p: Profile)
    requires AreLines(lines, existing, p)
    ensures HasLine(lines, "LLM_BACKEND=",
              if p.hardwareBackend.Some? then p.hardwareBackend
              else if p.backendOverride == Some("cloud") then Some("cloud") else None)
  {
    WantedLine(lines, existing, p, 3, "LLM_BACKEND=", Wanted(p, 3));
  }

  /** Every other field has its own key. */
  lemma OwnerLines(lines: seq<string>, existing: string, p: Profile)
    requires AreLines(lines, existing, p)
    ensures HasLine(lines, "ADMIN_EMAIL=", p.adminEmail)
    ensures HasLine(lines, "ALLOWED_DOMAINS=", p.allowedDomains)
    ensures HasLine(lines, "MODEL_TIER=", p.modelTier)
  {
    WantedLine(lines, existing, p, 0, "ADMIN_EMAIL=", p.adminEmail);
    WantedLine(lines, existing, p, 1, "ALLOWED_DOMAINS=", p.allowedDomains);
    WantedLine(lines, existing, p, 2, "MODEL_TIER=", p.modelTier);
  }

  lemma SiteLines(lines: seq<string>, existing: string, p: Profile)
    requires AreLines(lines, existing, p)
    ensures HasLine(lines, "SITE_DOMAIN=", p.siteDomain)
    ensures HasLine(lines, "SSL_CERT_NAME=", p.sslCertName)
    ensures HasLine(lines, "DOCKER_RUNTIME=", p.dockerRuntime)
  {
    WantedLine(lines, existing, p, 4, "SITE_DOMAIN=", p.siteDomain);
    WantedLine(lines, existing, p, 5, "SSL_CERT_NAME=", p.sslCertName);
    WantedLine(lines, existing, p, 6, "DOCKER_RUNTIME=", p.dockerRuntime);
  }

  lemma ClusterLines(lines: seq<string>, existing: string, p: Profile)
    requires AreLines(lines, existing, p)
    ensures HasLine(lines, "KUBECONFIG=", p.kubeconfig)
    ensures HasLine(lines, "K8S_OVERLAY=", p.k8sOverlay)
  {
    WantedLine(lines, existing, p, 11, "KUBECONFIG=", p.kubeconfig);
    WantedLine(lines, existing, p, 12, "K8S_OVERLAY=", p.k8sOverlay);
  }

  lemma DevLines(lines: seq<string>, existing: string, p: Profile)
    requires AreLines(lines, existing, p)
    ensures HasLine(lines, "SPOT_TOKEN=", p.spotToken)
    ensures HasLine(lines, "DEV_APPS_DIR=", p.devAppsDir)
  {
    WantedLine(lines, existing, p, 13, "SPOT_TOKEN=", p.spotToken);
    WantedLine(lines, existing, p, 14, "DEV_APPS_DIR=", p.devAppsDir);
  }

  /** The unmanaged lines survive, in order, each without a final carriage return. */
  lemma OtherLinesSurvive(keys: seq<string>, existing: string, p: Profile)
    requires GoodKeys(keys) && OneLineValues(p)
    ensures Kept(keys, LinesOf(Written(keys, existing, p))) ==
            if NewLines(keys, existing, p) == [] then [""] else StripAll(Kept(keys, LinesOf(existing)))
  {
    var kept, managed := Kept(keys, LinesOf(existing)), ManagedLines(keys, p, 0);
    ReadBack(keys, existing, p);
    if NewLines(keys, existing, p) == [] {
      assert !IsManaged(keys, "");
    } else {
      KeptStrip(keys, kept + managed);
      KeptAppend(keys, kept, managed);
      KeptIs(keys, LinesOf(existing));
      KeptIs(keys, kept);
      ManagedAre(keys, p, 0);
      KeptIs(keys, managed);
    }
  }

  /** The kept lines as written, and after stripping, have the same length only if there was nothing to strip. */
  lemma {:induction false} StrippingShortens(kept: seq<string>, managed: seq<string>)
    ensures |Join(StripAll(kept) + managed)| <= |Join(kept + managed)|
    ensures StripAll(kept) != kept ==> |Join(StripAll(kept) + managed)| < |Join(kept + managed)|
  {
    if kept != [] {
      StrippingShortens(kept[1..], managed);
      assert StripAll(kept)[1..] == StripAll(kept[1..]);
      assert (kept + managed)[1..] == kept[1..] + managed;
      assert (StripAll(kept) + managed)[1..] == StripAll(kept)[1..] + managed;
      assert StripCr(kept[0]) == kept[0] && StripAll(kept[1..]) == kept[1..] ==> StripAll(kept) == kept by {
        assert kept == [kept[0]] + kept[1..] && StripAll(kept) == [StripCr(kept[0])] + StripAll(kept)[1..];
      }
    } else {
      assert StripAll(kept) == kept;
    }
  }

  predicate EndsInCr(line: string) { line != "" && line[|line| - 1] == '\r' }

  lemma NothingToStrip(lines: seq<string>)
    ensures StripAll(lines) == lines <==> forall l :: l in lines ==> !EndsInCr(l)
  {
    if i :| 0 <= i < |lines| && EndsInCr(lines[i]) { assert StripAll(lines)[i] != lines[i]; }
  }

  /** Writing the same profile again changes nothing if and only if no kept line still ends in a carriage return. */
  lemma WritingTwice(keys: seq<string>, existing: string, p: Profile)
    requires GoodKeys(keys) && OneLineValues(p)
    ensures Written(keys, Written(keys, existing, p), p) == Written(keys, existing, p) <==>
            forall l :: l in Kept(keys, LinesOf(existing)) ==> !EndsInCr(l)
  {
    var kept, managed := Kept(keys, LinesOf(existing)), ManagedLines(keys, p, 0);
    OtherLinesSurvive(keys, existing, p);
    NothingToStrip(kept);
    if NewLines(keys, existing, p) == [] {
      assert [""] + managed == [""] && Join([""]) == Join([]);
    } else {
      StrippingShortens(kept, managed);
    }
  }

  // ---- The code ----

  method KeepLines(keys: seq<string>, all: seq<string>) returns (lines: seq<string>)
    ensures lines == Kept(keys, all)
  {
    lines := [];
    for i := 0 to |all|
      invariant lines == Kept(keys, all[..i])
    {
      KeptAppend(keys, all[..i], [all[i]]);
      assert all[..i + 1] == all[..i] + [all[i]];
      if !IsManaged(keys, all[i]) { lines := lines + [all[i]]; }
    }
    assert all[..|all|] == all;
  }

  /** `if let Some(value) = … { lines.push(…) }` */
  function Push(lines: seq<string>, key: string, value: Option<string>): seq<string> {
    match value
    case None => lines
    case Some(v) => lines + [key + v]
  }

  lemma Pushed(keys: seq<string>, p: Profile, n: nat, lines: seq<string>, all: seq<string>)
    requires |keys| == 15 && n < 15 && lines + ManagedLines(keys, p, n) == all
    ensures Push(lines, keys[Nth(p, n)], Wanted(p, Nth(p, n))) + ManagedLines(keys, p, n + 1) == all
  {
  }

  /** The pushes up to the hardware's backend. */
  method PushOwner(keys: seq<string>, p: Profile, kept: seq<string>, ghost all: seq<string>)
    returns (lines: seq<string>)
    requires |keys| == 15 && kept + ManagedLines(keys, p, 0) == all
    ensures lines + ManagedLines(keys, p, if p.hardwareBackend.Some? then 4 else 3) == all
  {
    lines := kept;
    Pushed(keys, p, 0, lines, all);
    lines := Push(lines, keys[0], p.adminEmail);
    Pushed(keys, p, 1, lines, all);
    lines := Push(lines, keys[1], p.allowedDomains);
    Pushed(keys, p, 2, lines, all);
    lines := Push(lines, keys[2], p.modelTier);
    if p.hardwareBackend.Some? { Pushed(keys, p, 3, lines, all); }
    lines := Push(lines, keys[3], p.hardwareBackend);
  }

  /** The pushes up to the cloud provider's. */
  method PushSite(keys: seq<string>, p: Profile, before: seq<string>, ghost all: seq<string>)
    returns (lines: seq<string>)
    requires |keys| == 15 && before + ManagedLines(keys, p, if p.hardwareBackend.Some? then 4 else 3) == all
    ensures lines + ManagedLines(keys, p, if p.hardwareBackend.Some? then 8 else 7) == all
  {
    ghost var hw := if p.hardwareBackend.Some? then 1 else 0;
    lines := before;
    Pushed(keys, p, 3 + hw, lines, all);
    lines := Push(lines, keys[4], p.siteDomain);
    Pushed(keys, p, 4 + hw, lines, all);
    lines := Push(lines, keys[5], p.sslCertName);
    Pushed(keys, p, 5 + hw, lines, all);
    lines := Push(lines, keys[6], p.dockerRuntime);
    Pushed(keys, p, 6 + hw, lines, all);
    lines := Push(lines, keys[7], p.cloudProvider);
  }

  /** The cloud key, under the name its provider gives it. */
  method PushCloudKey(keys: seq<string>, p: Profile, before: seq<string>, ghost all: seq<string>)
    returns (lines: seq<string>)
    requires |keys| == 15 && before + ManagedLines(keys, p, if p.hardwareBackend.Some? then 8 else 7) == all
    ensures lines + ManagedLines(keys, p, if p.hardwareBackend.Some? then 11 else 10) == all
  {
    ghost var n := if p.hardwareBackend.Some? then 8 else 7;
    Pushed(keys, p, n, before, all);
    ghost var l8 := Push(before, keys[8], Wanted(p, 8));
    Pushed(keys, p, n + 1, l8, all);
    ghost var l9 := Push(l8, keys[9], Wanted(p, 9));
    Pushed(keys, p, n + 2, l9, all);
    ghost var l10 := Push(l9, keys[10], Wanted(p, 10));
    if p.cloudProvider == Some("openai") {
      lines := Push(before, keys[9], p.cloudApiKey);
    } else if p.cloudProvider == Some("anthropic") {
      lines := Push(before, keys[10], p.cloudApiKey);
    } else {
      lines := Push(before, keys[8], p.cloudApiKey);
    }
    assert lines == l10;
  }

  /** The forced cloud backend, unless there is a backend line already. */
  method PushOverride(keys: seq<string>, p: Profile, before: seq<string>, ghost all: seq<string>)
    returns (lines: seq<string>)
    requires |keys| == 15 && before + ManagedLines(keys, p, if p.hardwareBackend.Some? then 11 else 10) == all
    requires Count(keys, before, 3) == if p.hardwareBackend.Some? then 1 else 0
    ensures lines + ManagedLines(keys, p, 11) == all
  {
    lines := before;
    HasKey(keys, before, 3);
    if p.hardwareBackend.None? { Pushed(keys, p, 10, before, all); }
    if p.backendOverride == Some("cloud") {
      if !(exists i :: 0 <= i < |before| && StartsWith(keys, before[i], 3)) {
        lines := lines + [keys[3] + "cloud"];
      }
    }
  }

  lemma {:induction false} HasKey(keys: seq<string>, lines: seq<string>, k: nat)
    requires k < |keys|
    ensures Count(keys, lines, k) > 0 <==> exists i :: 0 <= i < |lines| && StartsWith(keys, lines[i], k)
  {
    if lines != [] {
      HasKey(keys, lines[1..], k);
      if i :| 0 <= i < |lines| && StartsWith(keys, lines[i], k) {
        if i > 0 { assert lines[1..][i - 1] == lines[i]; }
      }
      if i :| 0 <= i < |lines| - 1 && StartsWith(keys, lines[1..][i], k) { assert StartsWith(keys, lines[i + 1], k); }
    }
  }

  method PushLast(keys: seq<string>, p: Profile, before: seq<string>, ghost all: seq<string>)
    returns (lines: seq<string>)
    requires |keys| == 15 && before + ManagedLines(keys, p, 11) == all
    ensures lines == all
  {
    Pushed(keys, p, 11, before, all);
    lines := Push(before, keys[11], p.kubeconfig);
    Pushed(keys, p, 12, lines, all);
    lines := Push(lines, keys[12], p.k8sOverlay);
    Pushed(keys, p, 13, lines, all);
    lines := Push(lines, keys[13], p.spotToken);
    Pushed(keys, p, 14, lines, all);
    lines := Push(lines, keys[14], p.devAppsDir);
    assert lines + ManagedLines(keys, p, 15) == lines;
  }

  method WriteWith(keys: seq<string>, existing: string, p: Profile) returns (content: string)
    requires GoodKeys(keys)
    ensures content == Written(keys, existing, p)
  {
    var kept := KeepLines(keys, LinesOf(existing));
    ghost var all := NewLines(keys, existing, p);
    var lines := PushOwner(keys, p, kept, all);
    lines := PushSite(keys, p, lines, all);
    lines := PushCloudKey(keys, p, lines, all);
    OneBackendSoFar(keys, existing, p, lines);
    lines := PushOverride(keys, p, lines, all);
    lines := PushLast(keys, p, lines, all);
    content := Join(lines) + "\n";
  }

  /** The only backend line so far is the hardware's. */
  lemma OneBackendSoFar(keys: seq<string>, existing: string, p: Profile, lines: seq<string>)
    requires GoodKeys(keys)
    requires lines + ManagedLines(keys, p, if p.hardwareBackend.Some? then 11 else 10) == NewLines(keys, existing, p)
    ensures Count(keys, lines, 3) == if p.hardwareBackend.Some? then 1 else 0
  {
    var n := if p.hardwareBackend.Some? then 11 else 10;
    CountNew(keys, existing, p, 3);
    CountManaged(keys, p, n, 3);
    CountAppend(keys, lines, ManagedLines(keys, p, n), 3);
    if p.hardwareBackend.None? { assert Nth(p, 10) == 3; }
  }

  /** `write_profile_state`, from the old contents of the file to the new. */
  method WriteProfileState(existing: string, p: Profile) returns (content: string)
    ensures content == Written(KEYS, existing, p)
  {
    KeysAreGood(KEYS);
    content := WriteWith(KEYS, existing, p);
  }
}
