/** Proxmox health checks, one by one and in one batch (cli/busibox-core/src/health.rs). */
module HealthBatch {
  import opened Strings

  datatype Status = Healthy | Unhealthy | Down | Checking

  datatype CheckMethod = Http(path: string, port: nat) | Cli

  datatype ServiceDef = ServiceDef(
    name: string, check: CheckMethod, containerId: Option<nat>, proxmoxHealth: Option<(nat, string)>)

  // ---- What is probed and how it answers ----

  /** A host is a network base and a container id. */
  datatype Probe = Curl(base: string, id: nat, port: nat, path: string) | Ping(base: string, id: nat)

  /** What the command printed on its standard output, and whether it exited with 0. */
  datatype Reply = Reply(printed: string, ok: bool)

  function EffectiveBase(def: ServiceDef, networkBase: string, vllmBase: string): string {
    if def.name == "vllm" then vllmBase else networkBase
  }

  function ProbeOf(def: ServiceDef, base: string): Option<Probe> {
    match def.containerId
    case None => None
    case Some(id) =>
      if def.check.Http? then Some(Curl(base, id, def.check.port, def.check.path))
      else if def.proxmoxHealth.Some? then Some(Curl(base, id, def.proxmoxHealth.value.0, def.proxmoxHealth.value.1))
      else Some(Ping(base, id))
  }

  // ---- Reading a code ----

  predicate IsDigit(c: char) { '0' <= c <= '9' }

  predicate AllDigits(s: string) { forall i :: 0 <= i < |s| ==> IsDigit(s[i]) }

  function Value(s: string): nat
    requires AllDigits(s)
  {
    if s == "" then 0 else 10 * Value(s[..|s| - 1]) + (s[|s| - 1] as int - '0' as int)
  }

  /** `str::parse::<u16>`: an optional plus, digits, and at most 65535. */
  function ParseU16(s: string): Option<nat> {
    var digits := if s != "" && s[0] == '+' then s[1..] else s;
    if digits == "" || !AllDigits(digits) || Value(digits) > 65535 then None else Some(Value(digits))
  }

  function CodeOf(s: string): nat {
    match ParseU16(s) case None => 0 case Some(n) => n
  }

  function StatusFromHttp(code: nat): Status {
    if code == 0 then Down
    else if 200 <= code <= 299 || code in {301, 302, 401, 403} then Healthy
    else Unhealthy
  }

  predicate IsWhite(c: char) {
    || '\t' <= c <= '\r' || c == ' '
    || c in {'\U{85}', '\U{A0}', '\U{1680}', '\U{2028}', '\U{2029}', '\U{202F}', '\U{205F}', '\U{3000}'}
    || '\U{2000}' <= c <= '\U{200A}'
  }

  function Trim(s: string): string {
    if s != "" && IsWhite(s[0]) then Trim(s[1..])
    else if s != "" && IsWhite(s[|s| - 1]) then Trim(s[..|s| - 1])
    else s
  }

  function TrimColons(s: string): string {
    if s != "" && s[0] == ':' then TrimColons(s[1..]) else s
  }

  // ---- One service at a time ----

  /** The individual check of a probe: `ssh.run` fails when the command does, and then there is no output. */
  function CheckProbe(probe: Probe, reply: Reply): Status {
    var output := if reply.ok then reply.printed else "";
    match probe
    case Curl(_, _, _, _) => StatusFromHttp(CodeOf(Trim(output)))
    case Ping(_, _) => if reply.ok then Healthy else Down
  }

  /** `check_service_pub` for Proxmox, over a connection (if any) to a host whose probes answer as `world` says. */
  ghost function CheckService(def: ServiceDef, ssh: bool, base: string, vllmBase: string,
    world: Probe -> Reply): Status {
    match ProbeOf(def, EffectiveBase(def, base, vllmBase))
    case None => Down
    case Some(probe) => if ssh then CheckProbe(probe, world(probe)) else Down
  }

  // ---- The batch ----

  const MARKER := "___BUSIBOX_SEP___"

  /** What one command of the batch echoes after the marker; the shell drops the newline of a substituted `echo 000`. */
  function Echoed(probe: Option<Probe>, reply: Reply): string {
    match probe
    case None => "000"
    case Some(Curl(_, _, _, _)) => if reply.ok then reply.printed else reply.printed + "000"
    case Some(Ping(_, _)) => if reply.ok then "PING_OK" else "PING_FAIL"
  }

  function Piece(echoed: string): string { ":" + echoed + "\n" }

  ghost function Echo(def: ServiceDef, base: string, vllmBase: string, world: Probe -> Reply): string {
    var probe := ProbeOf(def, EffectiveBase(def, base, vllmBase));
    Echoed(probe, if probe.Some? then world(probe.value) else Reply("", true))
  }

  ghost function Echoes(defs: seq<ServiceDef>, base: string, vllmBase: string, world: Probe -> Reply): seq<string> {
    seq(|defs|, i requires 0 <= i < |defs| => Echo(defs[i], base, vllmBase, world))
  }

  /** What commands that echo these texts after the marker print together. */
  function Printed(texts: seq<string>, marker: string): string {
    if texts == [] then "" else marker + Piece(texts[0]) + Printed(texts[1..], marker)
  }

  /** What the batch prints. */
  ghost function Output(defs: seq<ServiceDef>, base: string, vllmBase: string, world: Probe -> Reply): string {
    Printed(Echoes(defs, base, vllmBase, world), MARKER)
  }

  function NonEmpty(parts: seq<string>): seq<string> {
    if parts == [] then [] else (if parts[0] == "" then [] else [parts[0]]) + NonEmpty(parts[1..])
  }

  function Classify(piece: string): Status {
    var trimmed := TrimColons(Trim(piece));
    if trimmed == "PING_OK" then Healthy
    else if trimmed == "PING_FAIL" then Down
    else StatusFromHttp(CodeOf(trimmed))
  }

  /** The i-th service gets the i-th non-empty part. */
  function StatusAt(results: seq<string>, i: nat): Status {
    if i < |results| then Classify(results[i]) else Down
  }

  /** The loop that builds the batch: nothing to probe is an `echo` of 000. */
  method BuildCommands(defs: seq<ServiceDef>, base: string, vllmBase: string) returns (commands: seq<Option<Probe>>)
    ensures |commands| == |defs|
    ensures forall i :: 0 <= i < |defs| ==> commands[i] == ProbeOf(defs[i], EffectiveBase(defs[i], base, vllmBase))
  {
    commands := [];
    for i := 0 to |defs|
      invariant |commands| == i
      invariant forall k :: 0 <= k < i ==> commands[k] == ProbeOf(defs[k], EffectiveBase(defs[k], base, vllmBase))
    {
      var def := defs[i];
      if def.containerId.None? {
        commands := commands + [None];
        continue;
      }
      var effectiveBase := if def.name == "vllm" then vllmBase else base;
      var id := def.containerId.value;
      var command :=
        match def.check
        case Http(path, port) => Curl(effectiveBase, id, port, path)
        case Cli =>
          if def.proxmoxHealth.Some? then Curl(effectiveBase, id, def.proxmoxHealth.value.0, def.proxmoxHealth.value.1)
          else Ping(effectiveBase, id);
      commands := commands + [Some(command)];
    }
  }

  /** The loop over the services, given the batch's output. */
  method ReadBatch(count: nat, output: string) returns (statuses: seq<Status>)
    ensures |statuses| == count
    ensures forall i :: 0 <= i < count ==> statuses[i] == StatusAt(NonEmpty(SplitBy(output, MARKER)), i)
  {
    var results := NonEmpty(SplitBy(output, MARKER));
    statuses := [];
    for i := 0 to count
      invariant |statuses| == i
      invariant forall k :: 0 <= k < i ==> statuses[k] == StatusAt(results, k)
    {
      statuses := statuses + [if i < |results| then Classify(results[i]) else Down];
    }
  }

  // ---- The batch says what the individual checks say ----

  /** What curl prints for `%{http_code}`: nothing at all, 000, or three digits from 100 on. */
  predicate IsHttpCode(s: string) {
    s == "" || s == "000" || (|s| == 3 && AllDigits(s) && s[0] != '0')
  }

  ghost predicate Answers(world: Probe -> Reply) {
    forall probe: Probe :: probe.Curl? ==> IsHttpCode(world(probe).printed)
  }

  lemma ValueSnoc(s: string, c: char)
    requires AllDigits(s) && IsDigit(c)
    ensures AllDigits(s + [c]) && Value(s + [c]) == 10 * Value(s) + (c as int - '0' as int)
  {
    assert (s + [c])[..|s|] == s;
  }

  lemma ValueThousand(s: string)
    requires AllDigits(s)
    ensures AllDigits(s + "000") && Value(s + "000") == 1000 * Value(s)
  {
    ValueSnoc(s, '0');
    ValueSnoc(s + "0", '0');
    ValueSnoc(s + "0" + "0", '0');
    assert s + "0" + "0" + "0" == s + "000";
  }

  lemma ValueOfThree(s: string)
    requires |s| == 3 && AllDigits(s)
    ensures Value(s) == 100 * (s[0] as int - '0' as int) + 10 * (s[1] as int - '0' as int) + (s[2] as int - '0' as int)
  {
    ValueSnoc("", s[0]);
    ValueSnoc([s[0]], s[1]);
    ValueSnoc([s[0], s[1]], s[2]);
    assert s == [s[0], s[1]] + [s[2]] && [s[0], s[1]] == [s[0]] + [s[1]] && [s[0]] == "" + [s[0]];
  }

  /**
   * After a failed curl that printed a number, the batch agrees (service down) exactly if a thousandfold
   * overflows or is 0.
   */
  lemma FailedCurlIsDown(printed: string)
    requires AllDigits(printed)
    ensures StatusFromHttp(CodeOf(printed + "000")) == Down <==> Value(printed) == 0 || Value(printed) > 65
  {
    ValueThousand(printed);
    assert printed != "" ==> (printed + "000")[0] == printed[0];
  }

  lemma TrimPiece(text: string)
    requires text != "" ==> !IsWhite(text[|text| - 1]) && text[0] != ':'
    ensures TrimColons(Trim(Piece(text))) == text
  {
    var piece := Piece(text);
    assert piece[..|piece| - 1] == ":" + text;
    assert (":" + text)[1..] == text;
  }

  lemma ClassifyDigits(text: string)
    requires AllDigits(text)
    ensures Classify(Piece(text)) == StatusFromHttp(CodeOf(text))
  {
    TrimPiece(text);
    assert text != "" ==> IsDigit(text[0]);
  }

  /** One piece of the batch's output is read as the individual check reads the reply. */
  lemma PieceAgrees(probe: Probe, reply: Reply)
    requires probe.Curl? ==> IsHttpCode(reply.printed)
    ensures Classify(Piece(Echoed(Some(probe), reply))) == CheckProbe(probe, reply)
  {
    if probe.Curl? {
      var code := reply.printed;
      assert AllDigits(code) && Trim(code) == code;
      if reply.ok {
        ClassifyDigits(code);
      } else {
        ValueThousand(code);
        ClassifyDigits(code + "000");
        if |code| == 3 { ValueOfThree(code); }
        FailedCurlIsDown(code);
      }
    } else {
      TrimPiece(Echoed(Some(probe), reply));
    }
  }

  lemma NoContainerIsDown(reply: Reply)
    ensures Classify(Piece(Echoed(None, reply))) == Down
  {
    var text := Echoed(None, reply);
    ClassifyDigits(text);
    ValueThousand("");
    assert text == "" + "000";
  }

  /** The first marker after a piece is the one that follows it. */
  predicate IsPiece(piece: string, marker: string) {
    piece != "" && Find(piece + marker, marker, 0) == Some(|piece|)
  }

  lemma MarkerAfter(piece: string, marker: string, rest: string)
    requires marker != "" && IsPiece(piece, marker)
    ensures SplitBy(piece + marker + rest, marker) == [piece] + SplitBy(rest, marker)
    ensures Find(piece, marker, 0) == None
  {
    var s, start := piece + marker + rest, piece + marker;
    FindFirst(start, marker, 0);
    forall j | 0 <= j < |piece| ensures !MatchesAt(s, marker, j) && !MatchesAt(piece, marker, j) {
      assert !MatchesAt(start, marker, j);
      var k :| 0 <= k < |marker| && start[j + k] != marker[k];
      assert s[j + k] == start[j + k];
    }
    FindIs(s, marker, 0, Some(|piece|));
    FindIs(piece, marker, 0, None);
    assert s[..|piece|] == piece && s[|piece| + |marker|..] == rest;
  }

  /** Text that lacks a character of the marker and ends in one that the marker lacks. */
  lemma LineIsPiece(line: string, marker: string, k: nat)
    requires line != "" && k < |marker| && marker[k] !in line && line[|line| - 1] !in marker
    ensures IsPiece(line, marker)
  {
    var s := line + marker;
    forall j | 0 <= j < |line| ensures !MatchesAt(s, marker, j) {
      var i := |line| - 1 - j;
      if i < |marker| { assert s[j + i] != marker[i]; } else { assert s[j + k] == line[j + k] != marker[k]; }
    }
    FindIs(s, marker, 0, Some(|line|));
  }

  lemma EchoIsPiece(def: ServiceDef, base: string, vllmBase: string, world: Probe -> Reply)
    requires Answers(world)
    ensures IsPiece(Piece(Echo(def, base, vllmBase, world)), MARKER)
  {
    var probe := ProbeOf(def, EffectiveBase(def, base, vllmBase));
    if probe.Some? && probe.value.Curl? {
      assert IsHttpCode(world(probe.value).printed);
    }
    var piece := Piece(Echo(def, base, vllmBase, world));
    assert MARKER[3] == 'B' && 'B' !in piece && piece[|piece| - 1] == '\n';
    LineIsPiece(piece, MARKER, 3);
  }

  lemma EchoesArePieces(defs: seq<ServiceDef>, base: string, vllmBase: string, world: Probe -> Reply)
    requires Answers(world)
    ensures var texts := Echoes(defs, base, vllmBase, world);
      forall k :: 0 <= k < |texts| ==> IsPiece(Piece(texts[k]), MARKER)
  {
    forall k | 0 <= k < |defs| ensures IsPiece(Piece(Echo(defs[k], base, vllmBase, world)), MARKER) {
      EchoIsPiece(defs[k], base, vllmBase, world);
    }
  }

  /** A first part, then one part for each text. */
  predicate PartsAre(parts: seq<string>, first: string, texts: seq<string>) {
    |parts| == |texts| + 1 && parts[0] == first && forall i :: 0 < i <= |texts| ==> parts[i] == Piece(texts[i - 1])
  }

  /** Splitting what was printed after a piece gives that piece and one part for each text. */
  lemma {:induction false} SplitPrinted(piece: string, texts: seq<string>, marker: string)
    requires marker != "" && IsPiece(piece, marker) && forall i :: 0 <= i < |texts| ==> IsPiece(Piece(texts[i]), marker)
    ensures PartsAre(NonEmpty(SplitBy(piece + Printed(texts, marker), marker)), piece, texts)
    decreases |texts|
  {
    if texts == [] {
      assert piece + "" == piece;
      MarkerAfter(piece, marker, "");
      assert NonEmpty([piece]) == [piece];
    } else {
      var next, tail := Piece(texts[0]), Printed(texts[1..], marker);
      assert piece + Printed(texts, marker) == piece + marker + (next + tail);
      MarkerAfter(piece, marker, next + tail);
      SplitPrinted(next, texts[1..], marker);
    }
  }

  /** With nothing printed before the first marker, the non-empty parts are the services' pieces. */
  lemma SplitOutput(texts: seq<string>, marker: string, i: nat)
    requires marker != "" && i < |texts| && forall i :: 0 <= i < |texts| ==> IsPiece(Piece(texts[i]), marker)
    ensures StatusAt(NonEmpty(SplitBy(Printed(texts, marker), marker)), i) == Classify(Piece(texts[i]))
  {
    var next, tail := Piece(texts[0]), Printed(texts[1..], marker);
    assert Printed(texts, marker) == marker + (next + tail);
    SplitPrinted(next, texts[1..], marker);
  }

  /** `run_health_checks_proxmox_batched`: without a connection, or when the command fails, everything is down. */
  ghost function BatchStatus(output: Option<string>, i: nat): Status {
    match output
    case None => Down
    case Some(text) => StatusAt(NonEmpty(SplitBy(text, MARKER)), i)
  }

  lemma EchoAgrees(def: ServiceDef, base: string, vllmBase: string, world: Probe -> Reply)
    requires Answers(world)
    ensures Classify(Piece(Echo(def, base, vllmBase, world))) == CheckService(def, true, base, vllmBase, world)
  {
    var probe := ProbeOf(def, EffectiveBase(def, base, vllmBase));
    if probe.Some? { PieceAgrees(probe.value, world(probe.value)); } else { NoContainerIsDown(Reply("", true)); }
  }

  /** For every list of services and every outcome of their probes, the batch and the individual checks agree. */
  lemma BatchAgrees(defs: seq<ServiceDef>, ssh: bool, base: string, vllmBase: string, world: Probe -> Reply, i: nat)
    requires Answers(world) && i < |defs|
    ensures BatchStatus(if ssh then Some(Output(defs, base, vllmBase, world)) else None, i) ==
            CheckService(defs[i], ssh, base, vllmBase, world)
  {
    var texts := Echoes(defs, base, vllmBase, world);
    EchoesArePieces(defs, base, vllmBase, world);
    SplitOutput(texts, MARKER, i);
    EchoAgrees(defs[i], base, vllmBase, world);
  }

  lemma CountParts(texts: seq<string>, marker: string)
    requires marker != "" && forall i :: 0 <= i < |texts| ==> IsPiece(Piece(texts[i]), marker)
    ensures |NonEmpty(SplitBy(Printed(texts, marker), marker))| == |texts|
  {
    if texts != [] {
      var next, tail := Piece(texts[0]), Printed(texts[1..], marker);
      assert Printed(texts, marker) == marker + (next + tail);
      SplitPrinted(next, texts[1..], marker);
    }
  }

  /** If the output breaks off after `n` services these have their statuses, and all later ones are down. */
  lemma CutOutputIsDown(
    defs: seq<ServiceDef>, n: nat, base: string, vllmBase: string, world: Probe -> Reply, i: nat)
    requires Answers(world) && n <= |defs| && i < |defs|
    ensures BatchStatus(Some(Output(defs[..n], base, vllmBase, world)), i) ==
            if i < n then CheckService(defs[i], true, base, vllmBase, world) else Down
  {
    if i < n {
      BatchAgrees(defs[..n], true, base, vllmBase, world, i);
    } else {
      EchoesArePieces(defs[..n], base, vllmBase, world);
      CountParts(Echoes(defs[..n], base, vllmBase, world), MARKER);
    }
  }

  lemma NoiseShiftsParts(noise: string, texts: seq<string>, i: nat)
    requires IsPiece(noise, MARKER) && i < |texts| && forall k :: 0 <= k < |texts| ==> IsPiece(Piece(texts[k]), MARKER)
    ensures BatchStatus(Some(noise + Printed(texts, MARKER)), i) ==
        Classify(if i == 0 then noise else Piece(texts[i - 1]))
  {
    SplitPrinted(noise, texts, MARKER);
  }

  /** Text printed before the first marker moves every result one service on. */
  lemma NoiseShiftsResults(
    noise: string, defs: seq<ServiceDef>, base: string, vllmBase: string, world: Probe -> Reply, i: nat)
    requires IsPiece(noise, MARKER) && Answers(world) && i < |defs|
    ensures BatchStatus(Some(noise + Output(defs, base, vllmBase, world)), i) ==
            if i == 0 then Classify(noise) else CheckService(defs[i - 1], true, base, vllmBase, world)
  {
    EchoesArePieces(defs, base, vllmBase, world);
    NoiseShiftsParts(noise, Echoes(defs, base, vllmBase, world), i);
    if i > 0 { EchoAgrees(defs[i - 1], base, vllmBase, world); }
  }

  /** In this world every service gets, from a batch with `noise` before it, the status of its individual check. */
  ghost predicate Agrees(noise: string, defs: seq<ServiceDef>, base: string, vllmBase: string, world: Probe -> Reply) {
    var output := Some(noise + Output(defs, base, vllmBase, world));
    forall i: nat :: i < |defs| ==> BatchStatus(output, i) == CheckService(defs[i], true, base, vllmBase, world)
  }

  lemma {:induction false} NoiseIsCopied(
    noise: string, defs: seq<ServiceDef>, base: string, vllmBase: string, world: Probe -> Reply, i: nat)
    requires IsPiece(noise, MARKER) && Answers(world) && i < |defs| && Agrees(noise, defs, base, vllmBase, world)
    ensures CheckService(defs[i], true, base, vllmBase, world) == Classify(noise)
  {
    NoiseShiftsResults(noise, defs, base, vllmBase, world, i);
    if i > 0 { NoiseIsCopied(noise, defs, base, vllmBase, world, i - 1); }
  }

  function AllUp(probe: Probe): Reply { Reply("200", true) }

  function AllDown(probe: Probe): Reply { Reply("", false) }

  lemma UpAndDown(def: ServiceDef, base: string, vllmBase: string)
    requires def.containerId.Some?
    ensures CheckService(def, true, base, vllmBase, AllUp) == Healthy
    ensures CheckService(def, true, base, vllmBase, AllDown) == Down
  {
    var code := "200";
    ValueOfThree(code);
    assert Trim(code) == code && CodeOf(code) == 200;
    assert Trim("") == "" && CodeOf("") == 0;
  }

  /** If any service is probed, the batch agrees in every world if and only if nothing is printed before it. */
  lemma AgreesWithoutNoise(noise: string, defs: seq<ServiceDef>, base: string, vllmBase: string, j: nat)
    requires noise == "" || IsPiece(noise, MARKER)
    requires j < |defs| && defs[j].containerId.Some?
    ensures (forall world :: Answers(world) ==> Agrees(noise, defs, base, vllmBase, world)) <==> noise == ""
  {
    if noise == "" {
      forall world | Answers(world) ensures Agrees(noise, defs, base, vllmBase, world) {
        AgreesSilently(defs, base, vllmBase, world);
      }
    } else {
      UpAndDown(defs[j], base, vllmBase);
      assert Answers(AllUp) && Answers(AllDown);
      if Agrees(noise, defs, base, vllmBase, AllUp) && Agrees(noise, defs, base, vllmBase, AllDown) {
        NoiseIsCopied(noise, defs, base, vllmBase, AllUp, j);
        NoiseIsCopied(noise, defs, base, vllmBase, AllDown, j);
      }
    }
  }

  lemma AgreesSilently(defs: seq<ServiceDef>, base: string, vllmBase: string, world: Probe -> Reply)
    requires Answers(world)
    ensures Agrees("", defs, base, vllmBase, world)
  {
    var output := Output(defs, base, vllmBase, world);
    assert "" + output == output;
    forall i: nat | i < |defs|
      ensures BatchStatus(Some(output), i) == CheckService(defs[i], true, base, vllmBase, world) {
      BatchAgrees(defs, true, base, vllmBase, world, i);
    }
  }

  // ---- What the statuses mean ----

  /** What the reply of a curl for a status code says. */
  lemma CurlMeans(probe: Probe, reply: Reply)
    requires probe.Curl? && IsHttpCode(reply.printed)
    ensures CheckProbe(probe, reply) ==
            if !reply.ok || reply.printed in {"", "000"} then Down
            else if reply.printed[0] == '2' || reply.printed in {"301", "302", "401", "403"} then Healthy
            else Unhealthy
  {
    var code := if reply.ok then reply.printed else "";
    assert AllDigits(code) && Trim(code) == code;
    if |code| == 3 {
      ValueOfThree(code);
      assert code == [code[0], code[1], code[2]];
    }
  }

  /**
   * A service with a container is asked at that container - on the vllm network if it is vllm - for the
   * path of its check, or else of its Proxmox check; without either its container is pinged. It is
   * healthy if the code is 2xx, 301, 302, 401 or 403, and a ping if it is answered. Without a
   * container or a connection it is down.
   */
  lemma StatusMeans(def: ServiceDef, ssh: bool, base: string, vllmBase: string, world: Probe -> Reply)
    requires Answers(world)
    ensures var status := CheckService(def, ssh, base, vllmBase, world);
      if !ssh || def.containerId.None? then status == Down
      else
        var host, id := if def.name == "vllm" then vllmBase else base, def.containerId.value;
        if def.check.Http? then IsStatusOf(status, world(Curl(host, id, def.check.port, def.check.path)))
        else if def.proxmoxHealth.Some? then
          IsStatusOf(status, world(Curl(host, id, def.proxmoxHealth.value.0, def.proxmoxHealth.value.1)))
        else status == if world(Ping(host, id)).ok then Healthy else Down
  {
    var probe := ProbeOf(def, EffectiveBase(def, base, vllmBase));
    if probe.Some? && probe.value.Curl? { CurlMeans(probe.value, world(probe.value)); }
  }

  predicate IsStatusOf(status: Status, reply: Reply) {
    var answered := reply.ok && reply.printed !in {"", "000"};
    && (status == Down <==> !answered)
    && (status == Healthy <==>
          answered && (reply.printed[0] == '2' || reply.printed in {"301", "302", "401", "403"}))
    && status != Checking
  }

  // ---- The deployment state ----

  datatype Result = Result(name: string, status: Status)

  datatype DeploymentState = StillChecking | Nothing | Partial(healthy: nat) | BootstrapComplete | Complete

  predicate IsUp(results: seq<Result>, name: string) {
    exists i :: 0 <= i < |results| && results[i].name == name && results[i].status == Healthy
  }

  function CountHealthy(results: seq<Result>): nat {
    if results == [] then 0
    else
      var n := |results| - 1;
      CountHealthy(results[..n]) + if results[n].status == Healthy then 1 else 0
  }

  predicate AnyChecking(results: seq<Result>) {
    exists i :: 0 <= i < |results| && results[i].status == Checking
  }

  const BOOTSTRAP := ["postgres", "authz", "config", "deploy", "proxy", "portal", "admin"]

  predicate BootstrapDone(results: seq<Result>) {
    forall i :: 0 <= i < |BOOTSTRAP| ==> IsUp(results, BOOTSTRAP[i])
  }

  function StateFromHealth(results: seq<Result>): DeploymentState {
    if forall i :: 0 <= i < |results| ==> results[i].status == Checking then StillChecking
    else if BootstrapDone(results) && IsUp(results, "agent") && IsUp(results, "litellm") then Complete
    else if BootstrapDone(results) then BootstrapComplete
    else if AnyChecking(results) then StillChecking
    else if CountHealthy(results) == 0 then Nothing
    else Partial(CountHealthy(results))
  }

  /** Later results: checks that were still running may have finished. */
  predicate Later(results: seq<Result>, later: seq<Result>) {
    |results| == |later| &&
    forall i :: 0 <= i < |results| ==>
      results[i].name == later[i].name && results[i].status in {Checking, later[i].status}
  }

  function Rank(state: DeploymentState): nat {
    match state case Complete => 2 case BootstrapComplete => 1 case _ => 0
  }

  /** As results come in the state only moves up, and a lesser state is final. */
  lemma StateDoesNotFlicker(results: seq<Result>, later: seq<Result>)
    requires Later(results, later)
    ensures Rank(StateFromHealth(results)) <= Rank(StateFromHealth(later))
    ensures StateFromHealth(results) in {Nothing, Partial(CountHealthy(results))} ==> later == results
  {
    forall name: string | IsUp(results, name) ensures IsUp(later, name) {
      var i :| 0 <= i < |results| && results[i].name == name && results[i].status == Healthy;
      assert later[i].name == name && later[i].status == Healthy;
    }
    if !AnyChecking(results) {
      forall i | 0 <= i < |results| ensures results[i] == later[i] {
        assert results[i].status != Checking;
      }
    }
    if BootstrapDone(results) {
      assert IsUp(later, BOOTSTRAP[0]);
    }
  }

  ghost predicate HealthyIn(results: seq<Result>, names: set<string>) {
    forall name :: name in names ==> exists i :: 0 <= i < |results| && results[i] == Result(name, Healthy)
  }

  lemma {:induction false} CountIs(results: seq<Result>)
    ensures CountHealthy(results) == |set i | 0 <= i < |results| && results[i].status == Healthy|
  {
    var all := set i | 0 <= i < |results| && results[i].status == Healthy;
    if results != [] {
      var n := |results| - 1;
      var before := set i | 0 <= i < n && results[..n][i].status == Healthy;
      CountIs(results[..n]);
      assert all == before + if results[n].status == Healthy then {n} else {};
    }
  }

  /** What the state says of the results. */
  lemma StateMeans(results: seq<Result>)
    ensures var state := StateFromHealth(results);
      var bootstrap := HealthyIn(results, {"postgres", "authz", "config", "deploy", "proxy", "portal", "admin"});
      var running := exists i :: 0 <= i < |results| && results[i].status == Checking;
      var healthy := |set i | 0 <= i < |results| && results[i].status == Healthy|;
      && (state == Complete <==> bootstrap && HealthyIn(results, {"agent", "litellm"}))
      && (state == BootstrapComplete <==> bootstrap && !HealthyIn(results, {"agent", "litellm"}))
      && (state == StillChecking <==> !bootstrap && (results == [] || running))
      && (state == Nothing <==> results != [] && !running && healthy == 0)
      && (forall n: nat :: state == Partial(n) <==> !bootstrap && !running && healthy == n && n > 0)
  {
    CountIs(results);
    forall name: string ensures IsUp(results, name) <==> HealthyIn(results, {name}) {
      if IsUp(results, name) {
        var i :| 0 <= i < |results| && results[i].name == name && results[i].status == Healthy;
        assert results[i] == Result(name, Healthy);
      }
    }
    StateNames(results);
    var healthy := set i | 0 <= i < |results| && results[i].status == Healthy;
    if HealthyIn(results, {"postgres"}) {
      var i :| 0 <= i < |results| && results[i] == Result("postgres", Healthy);
      assert i in healthy;
    }
  }

  lemma StateNames(results: seq<Result>)
    requires forall name: string :: IsUp(results, name) <==> HealthyIn(results, {name})
    ensures BootstrapDone(results) <==>
            HealthyIn(results, {"postgres", "authz", "config", "deploy", "proxy", "portal", "admin"})
    ensures IsUp(results, "agent") && IsUp(results, "litellm") <==> HealthyIn(results, {"agent", "litellm"})
  {
    assert BOOTSTRAP[0] == "postgres" && BOOTSTRAP[1] == "authz" && BOOTSTRAP[2] == "config";
    assert BOOTSTRAP[3] == "deploy" && BOOTSTRAP[4] == "proxy" && BOOTSTRAP[5] == "portal" && BOOTSTRAP[6] == "admin";
    forall names: set<string>, name: string | name in names && HealthyIn(results, names)
      ensures HealthyIn(results, {name}) {}
  }
}
