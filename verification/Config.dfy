/** The client's configuration file of src/ngrok/client/config.go: a line parser
    and a printer, and when printing and parsing again restores a configuration. */
module Config {
  import opened Options
  import opened Strings

  type uint16 = n: nat | n < 0x1_0000

  datatype Tunnel = Tunnel(subdomain: string, hostname: string, httpAuth: string, remotePort: uint16,
                           protocols: map<string, string>)

  datatype Settings = Settings(httpProxy: string, serverAddr: string, inspectAddr: string, inspectAuth: string,
                               trustHostRootCerts: bool, authToken: string, tunnels: map<string, Tunnel>)

  const NO_TUNNEL := Tunnel("", "", "", 0, map[])
  const NO_SETTINGS := Settings("", "", "", "", false, "", map[])

  datatype Problem = NotKeyValue | UnknownKey | UnexpectedNested | OptionWithoutTunnel | InvalidPort
                   | UnknownTunnelKey | ProtocolWithoutProto | Indentation | TokenTooLong

  // ----- One line -----

  /** bufio.MaxScanTokenSize: a line of this many bytes does not fit the scanner. */
  const MAX_TOKEN := 65536

  function DropCarriageReturn(line: string): string {
    if line != [] && line[|line| - 1] == '\r' then line[..|line| - 1] else line
  }

  function StripComment(line: string): (r: string)
    ensures r <= line && '#' !in r
  {
    line[..IndexOf(line, '#')]
  }

  function LeadingSpaces(line: string): nat {
    |line| - |TrimLeft(Blanks, line)|
  }

  /** What a value becomes when it is read. */
  function Tidy(value: string): string {
    Trim(Quotes, TrimSpace(value))
  }

  datatype Line = Empty | Malformed | Entry(indent: nat, key: string, value: string)

  function SplitKeyValue(indent: nat, line: string): Line {
    var i := IndexOf(line, ':');
    if i == |line| || TrimSpace(line[..i]) == "" then Malformed
    else Entry(indent, TrimSpace(line[..i]), Tidy(line[i + 1..]))
  }

  function ReadLine(text: string): Line {
    var raw := StripComment(text);
    if TrimSpace(raw) == "" then Empty else SplitKeyValue(LeadingSpaces(raw), TrimSpace(raw))
  }

  // ----- The parser as a fold over lines -----

  /** The parser's variables: what is read so far, whether a tunnels section is
      open, the tunnel being read, and whether its proto section is open. */
  datatype Parsing = Parsing(settings: Settings, inTunnels: bool, current: Option<string>, inProto: bool)

  datatype Outcome = Good(state: Parsing) | Bad(problem: Problem)

  function Truth(value: string): bool {
    ToLower(value) in ["true", "yes", "1", "on"]
  }

  function SetTop(s: Settings, key: string, value: string): Outcome {
    if key == "http_proxy" then Good(Parsing(s.(httpProxy := value), false, None, false))
    else if key == "server_addr" then Good(Parsing(s.(serverAddr := value), false, None, false))
    else if key == "inspect_addr" then Good(Parsing(s.(inspectAddr := value), false, None, false))
    else if key == "inspect_auth" then Good(Parsing(s.(inspectAuth := value), false, None, false))
    else if key == "trust_host_root_certs" then Good(Parsing(s.(trustHostRootCerts := Truth(value)), false, None, false))
    else if key == "auth_token" then Good(Parsing(s.(authToken := value), false, None, false))
    else if key == "tunnels" then Good(Parsing(s, true, None, false))
    else Bad(UnknownKey)
  }

  function TunnelOf(s: Settings, name: string): Tunnel {
    if name in s.tunnels then s.tunnels[name] else NO_TUNNEL
  }

  function WithTunnel(st: Parsing, name: string, t: Tunnel, inProto: bool): Parsing {
    Parsing(st.settings.(tunnels := st.settings.tunnels[name := t]), st.inTunnels, Some(name), inProto)
  }

  function SetOption(st: Parsing, name: string, key: string, value: string): Outcome {
    var t := TunnelOf(st.settings, name);
    if key == "subdomain" then Good(WithTunnel(st, name, t.(subdomain := value), false))
    else if key == "hostname" then Good(WithTunnel(st, name, t.(hostname := value), false))
    else if key == "auth" then Good(WithTunnel(st, name, t.(httpAuth := value), false))
    else if key == "remote_port" then
      match ParseUint(value, 0x1_0000)
      case None => Bad(InvalidPort)
      case Some(port) => Good(WithTunnel(st, name, t.(remotePort := port), false))
    else if key == "proto" then Good(WithTunnel(st, name, t, true))
    else Bad(UnknownTunnelKey)
  }

  function SetProtocol(st: Parsing, name: string, key: string, value: string): Parsing {
    var t := TunnelOf(st.settings, name);
    WithTunnel(st, name, t.(protocols := t.protocols[key := value]), true)
  }

  function Step(st: Parsing, line: Line): Outcome {
    match line
    case Empty => Good(st)
    case Malformed => Bad(NotKeyValue)
    case Entry(indent, key, value) =>
      if indent == 0 then SetTop(st.settings, key, value)
      else if indent == 2 then
        if !st.inTunnels then Bad(UnexpectedNested) else Good(WithTunnel(st, key, NO_TUNNEL, false))
      else if indent == 4 then
        if st.current == None then Bad(OptionWithoutTunnel) else SetOption(st, st.current.value, key, value)
      else if indent == 6 then
        if st.current == None || !st.inProto then Bad(ProtocolWithoutProto)
        else Good(SetProtocol(st, st.current.value, key, value))
      else Bad(Indentation)
  }

  datatype Result = Result(settings: Settings, error: Option<(nat, Problem)>)

  /** Parsing a text from a given state and line number. */
  function ParseText(data: string, st: Parsing, lineNo: nat): Result
    decreases |data|
  {
    if data == [] then Result(st.settings, None)
    else
      var i := IndexOf(data, '\n');
      if ByteLength(data[..i]) >= MAX_TOKEN then Result(st.settings, Some((lineNo, TokenTooLong)))
      else
        match Step(st, ReadLine(DropCarriageReturn(data[..i])))
        case Bad(problem) => Result(st.settings, Some((lineNo, problem)))
        case Good(next) => ParseText(if i == |data| then [] else data[i + 1..], next, lineNo + 1)
  }

  function Start(s: Settings): Parsing {
    Parsing(s, false, None, false)
  }

  function Parse(data: string): Result {
    ParseText(data, Start(NO_SETTINGS), 1)
  }

  function Fold(lines: seq<string>, st: Parsing): Option<Parsing>
    decreases |lines|
  {
    if lines == [] then Some(st)
    else
      match Step(st, ReadLine(DropCarriageReturn(lines[0])))
      case Bad(_) => None
      case Good(next) => Fold(lines[1..], next)
  }

  function Unlines(lines: seq<string>): string {
    if lines == [] then [] else lines[0] + "\n" + Unlines(lines[1..])
  }

  lemma {:induction false} FoldConcat(a: seq<string>, b: seq<string>, st: Parsing, mid: Parsing)
    requires Fold(a, st) == Some(mid)
    ensures Fold(a + b, st) == Fold(b, mid)
    decreases |a|
  {
    hide Step, ReadLine, DropCarriageReturn;
    if a == [] {
      assert a + b == b;
    } else {
      assert (a + b)[1..] == a[1..] + b && (a + b)[0] == a[0];
      FoldConcat(a[1..], b, Step(st, ReadLine(DropCarriageReturn(a[0]))).state, mid);
    }
  }

  predicate Scannable(line: string) {
    '\n' !in line && ByteLength(line) < MAX_TOKEN
  }

  lemma FirstLine(line: string, rest: string)
    requires '\n' !in line
    ensures IndexOf(line + "\n" + rest, '\n') == |line|
    ensures (line + "\n" + rest)[..|line|] == line && (line + "\n" + rest)[|line| + 1..] == rest
  {
    IndexAfter(line, '\n', rest);
  }

  lemma {:induction false} ParseLines(lines: seq<string>, st: Parsing, lineNo: nat)
    requires forall l :: l in lines ==> Scannable(l)
    requires Fold(lines, st).Some?
    ensures ParseText(Unlines(lines), st, lineNo) == Result(Fold(lines, st).value.settings, None)
    decreases |lines|
  {
    if lines != [] {
      assert Scannable(lines[0]);
      FirstLine(lines[0], Unlines(lines[1..]));
      ParseLines(lines[1..], Step(st, ReadLine(DropCarriageReturn(lines[0]))).state, lineNo + 1);
    }
  }

  /** One line that does not fit the scanner makes the whole parse fail. */
  lemma {:induction false} LongLineFails(lines: seq<string>, st: Parsing, lineNo: nat, k: nat)
    requires k < |lines| && !Scannable(lines[k])
    requires forall l :: l in lines ==> '\n' !in l
    ensures ParseText(Unlines(lines), st, lineNo).error.Some?
    decreases |lines|
  {
    FirstLine(lines[0], Unlines(lines[1..]));
    var outcome := Step(st, ReadLine(DropCarriageReturn(lines[0])));
    if k > 0 && outcome.Good? {
      LongLineFails(lines[1..], outcome.state, lineNo + 1, k - 1);
    }
  }

  // ----- The printer -----

  function Spaces(n: nat): (r: string)
    ensures |r| == n && forall i :: 0 <= i < n ==> r[i] == ' '
  {
    seq(n, _ => ' ')
  }

  function Pair(indent: nat, key: string, value: string): string {
    Spaces(indent) + key + ": " + value
  }

  function Header(indent: nat, key: string): string {
    Spaces(indent) + key + ":"
  }

  function Field(indent: nat, key: string, value: string): seq<string> {
    if value == "" then [] else [Pair(indent, key, value)]
  }

  function TopLines(s: Settings): seq<string> {
    Field(0, "http_proxy", s.httpProxy) + Field(0, "server_addr", s.serverAddr)
    + Field(0, "inspect_addr", s.inspectAddr) + Field(0, "inspect_auth", s.inspectAuth)
    + Field(0, "trust_host_root_certs", if s.trustHostRootCerts then "true" else "")
    + Field(0, "auth_token", s.authToken)
  }

  function ProtocolLines(protocols: map<string, string>, order: seq<string>): seq<string>
    requires forall k :: k in order ==> k in protocols
  {
    if order == [] then []
    else [Pair(6, order[0], protocols[order[0]])] + ProtocolLines(protocols, order[1..])
  }

  function OptionLines(t: Tunnel): seq<string> {
    Field(4, "subdomain", t.subdomain) + Field(4, "hostname", t.hostname) + Field(4, "auth", t.httpAuth)
    + Field(4, "remote_port", if t.remotePort == 0 then "" else Itoa(t.remotePort))
  }

  function ProtoLines(t: Tunnel, order: seq<string>): seq<string>
    requires Orders(order, t.protocols.Keys)
  {
    if |t.protocols| == 0 then [] else [Header(4, "proto")] + ProtocolLines(t.protocols, order)
  }

  function TunnelLines(name: string, t: Tunnel, order: seq<string>): seq<string>
    requires Orders(order, t.protocols.Keys)
  {
    [Header(2, name)] + OptionLines(t) + ProtoLines(t, order)
  }

  /** An order in which a range over a map can visit its keys. */
  predicate Orders(order: seq<string>, keys: set<string>) {
    && (set k | k in order) == keys
    && (forall i, j :: 0 <= i < j < |order| ==> order[i] != order[j])
  }

  /** The orders of a whole run of the printer: the tunnels, and the protocols of each. */
  datatype Visit = Visit(names: seq<string>, protocols: map<string, seq<string>>)

  ghost predicate Visits(v: Visit, s: Settings) {
    && Orders(v.names, s.tunnels.Keys)
    && (forall n :: n in s.tunnels ==> n in v.protocols && Orders(v.protocols[n], s.tunnels[n].protocols.Keys))
  }

  function TunnelsLines(tunnels: map<string, Tunnel>, names: seq<string>, protocols: map<string, seq<string>>): seq<string>
    requires forall n :: n in names ==> n in tunnels && n in protocols && Orders(protocols[n], tunnels[n].protocols.Keys)
  {
    if names == [] then []
    else TunnelLines(names[0], tunnels[names[0]], protocols[names[0]]) + TunnelsLines(tunnels, names[1..], protocols)
  }

  function TunnelsSection(s: Settings, v: Visit): seq<string>
    requires Visits(v, s)
  {
    if |s.tunnels| == 0 then [] else [Header(0, "tunnels")] + TunnelsLines(s.tunnels, v.names, v.protocols)
  }

  function Lines(s: Settings, v: Visit): seq<string>
    requires Visits(v, s)
  {
    TopLines(s) + TunnelsSection(s, v)
  }

  // ----- Reading back a printed line -----

  /** A name the printer can write as a key. */
  predicate NameOk(name: string) {
    name != [] && Trimmed(White, name) && ':' !in name && Safe(name)
  }

  /** No character that ends a value early. */
  predicate Safe(value: string) {
    '#' !in value && '\n' !in value
  }

  lemma SpacesAreWhite(n: nat)
    ensures AllCut(White, Spaces(n)) && AllCut(Blanks, Spaces(n))
  {
  }

  lemma NoComment(line: string)
    requires '#' !in line
    ensures StripComment(line) == line
  {
    IndexAbsent(line, '#');
  }

  /** A printed line, less a carriage return at its end, has the indentation it
      was printed with, and trims to the key, the colon and the trimmed rest. */
  lemma TrimLine(indent: nat, key: string, tail: string, line: string)
    requires key != [] && !Cuts(White, key[0])
    requires line == Spaces(indent) + (key + ":" + tail) || line == DropCarriageReturn(Spaces(indent) + (key + ":" + tail))
    ensures TrimSpace(line) == key + ":" + TrimRight(White, tail)
    ensures LeadingSpaces(line) == indent
  {
    hide *;
    TrimPrinted(indent, key, tail);
    if line != Spaces(indent) + (key + ":" + tail) {
      LessReturn(Spaces(indent), key, tail);
      TrimPrinted(indent, key, DropCarriageReturn(tail));
      ReturnTrimmed(tail);
    }
  }

  lemma TrimPrinted(indent: nat, key: string, tail: string)
    requires key != [] && !Cuts(White, key[0])
    ensures var line := Spaces(indent) + (key + ":" + tail);
      TrimSpace(line) == key + ":" + TrimRight(White, tail) && LeadingSpaces(line) == indent
  {
    var body := key + ":" + tail;
    assert body[0] == key[0] && !Cuts(White, ':');
    hide TrimLeft, TrimRight, LeadingSpaces, Cuts;
    LeadsWith(indent, body);
    TrimRightKeeps(White, key + ":", tail);
  }

  lemma LessReturn(pad: string, key: string, tail: string)
    ensures DropCarriageReturn(pad + (key + ":" + tail)) == pad + (key + ":" + DropCarriageReturn(tail))
  {
    var line := pad + (key + ":" + tail);
    if tail == [] {
      assert line[|line| - 1] == ':';
    } else {
      var less := tail[..|tail| - 1];
      assert line[|line| - 1] == tail[|tail| - 1];
      assert line[..|line| - 1] == pad + (key + ":" + less);
    }
  }

  lemma ReturnTrimmed(tail: string)
    ensures TrimRight(White, DropCarriageReturn(tail)) == TrimRight(White, tail)
  {
    assert Cuts(White, '\r');
  }

  lemma LeadsWith(indent: nat, body: string)
    requires body != [] && !Cuts(White, body[0])
    ensures LeadingSpaces(Spaces(indent) + body) == indent
    ensures TrimLeft(White, Spaces(indent) + body) == body
  {
    SpacesAreWhite(indent);
    TrimLeftPad(Blanks, Spaces(indent), body);
    TrimLeftPad(White, Spaces(indent), body);
  }

  lemma SplitTail(indent: nat, key: string, rest: string)
    requires NameOk(key)
    ensures SplitKeyValue(indent, key + ":" + rest) == Entry(indent, key, Tidy(rest))
  {
    hide Trim, Cuts, Trimmed;
    IndexAfter(key, ':', rest);
    assert (key + ":" + rest)[..|key|] == key && (key + ":" + rest)[|key| + 1..] == rest;
    TrimFixed(White, key);
  }

  lemma ReadTail(indent: nat, key: string, tail: string)
    requires NameOk(key) && Safe(tail)
    ensures ReadLine(DropCarriageReturn(Spaces(indent) + (key + ":" + tail))) == Entry(indent, key, Tidy(tail))
  {
    var line := DropCarriageReturn(Spaces(indent) + (key + ":" + tail));
    assert '#' !in line;
    NoComment(line);
    TrimLine(indent, key, tail, line);
    hide TrimLeft, TrimRight, Cuts, StripComment, LeadingSpaces, DropCarriageReturn, SplitKeyValue, Spaces;
    SplitTail(indent, key, TrimRight(White, tail));
    TrimAfterRight(White, tail);
  }

  lemma PairShape(indent: nat, key: string, value: string)
    ensures Pair(indent, key, value) == Spaces(indent) + (key + ":" + (" " + value))
  {
    hide Spaces;
    assert ": " == ":" + " ";
  }

  lemma TidySpace(value: string)
    ensures Tidy(" " + value) == Tidy(value)
  {
    assert TrimLeft(White, " " + value) == TrimLeft(White, value) by {
      assert (" " + value)[1..] == value;
    }
    hide *;
    assert TrimSpace(" " + value) == TrimSpace(value) by {
      TrimSpaceIs(" " + value);
      TrimSpaceIs(value);
    }
    TidyIs(" " + value);
    TidyIs(value);
  }

  lemma TidyIs(value: string)
    ensures Tidy(value) == Trim(Quotes, TrimSpace(value))
  {
  }

  lemma TrimSpaceIs(value: string)
    ensures TrimSpace(value) == TrimRight(White, TrimLeft(White, value))
  {
  }

  lemma SafeSpace(value: string)
    requires Safe(value)
    ensures Safe(" " + value)
  {
  }

  lemma ReadPair(indent: nat, key: string, value: string)
    requires NameOk(key) && Safe(value)
    ensures ReadLine(DropCarriageReturn(Pair(indent, key, value))) == Entry(indent, key, Tidy(value))
  {
    hide *;
    PairShape(indent, key, value);
    TidySpace(value);
    SafeSpace(value);
    ReadTail(indent, key, " " + value);
  }

  lemma ReadHeader(indent: nat, key: string)
    requires NameOk(key)
    ensures ReadLine(DropCarriageReturn(Header(indent, key))) == Entry(indent, key, "")
  {
    assert Header(indent, key) == Spaces(indent) + (key + ":" + "");
    ReadTail(indent, key, "");
  }

  // ----- Reading back a printed configuration -----

  function TidyTunnel(t: Tunnel): Tunnel {
    Tunnel(Tidy(t.subdomain), Tidy(t.hostname), Tidy(t.httpAuth), t.remotePort, map k | k in t.protocols :: Tidy(t.protocols[k]))
  }

  /** Every value as it will be read. */
  function TidySettings(s: Settings): Settings {
    Settings(Tidy(s.httpProxy), Tidy(s.serverAddr), Tidy(s.inspectAddr), Tidy(s.inspectAuth),
             s.trustHostRootCerts, Tidy(s.authToken), map n | n in s.tunnels :: TidyTunnel(s.tunnels[n]))
  }

  predicate SafeTunnel(t: Tunnel) {
    && Safe(t.subdomain) && Safe(t.hostname) && Safe(t.httpAuth)
    && forall k :: k in t.protocols ==> NameOk(k) && Safe(t.protocols[k])
  }

  predicate SafeSettings(s: Settings) {
    && Safe(s.httpProxy) && Safe(s.serverAddr) && Safe(s.inspectAddr) && Safe(s.inspectAuth) && Safe(s.authToken)
    && forall n :: n in s.tunnels ==> NameOk(n) && SafeTunnel(s.tunnels[n])
  }

  lemma FoldOne(line: string, st: Parsing)
    requires Step(st, ReadLine(DropCarriageReturn(line))).Good?
    ensures Fold([line], st) == Some(Step(st, ReadLine(DropCarriageReturn(line))).state)
  {
    hide Step, ReadLine, DropCarriageReturn;
    assert [line][1..] == [];
  }

  lemma TidyNothing()
    ensures Tidy("") == ""
  {
  }

  lemma PlainOk(name: string)
    requires name != [] && forall i :: 0 <= i < |name| ==> 'a' <= name[i] <= 'z' || name[i] == '_'
    ensures NameOk(name) && Trimmed(Quotes, name)
  {
  }

  lemma KeysOk()
    ensures NameOk("http_proxy") && NameOk("server_addr") && NameOk("inspect_addr") && NameOk("inspect_auth")
    ensures NameOk("trust_host_root_certs") && NameOk("auth_token") && NameOk("tunnels")
  {
    hide *;
    PlainOk("http_proxy");
    PlainOk("server_addr");
    PlainOk("inspect_addr");
    PlainOk("inspect_auth");
    PlainOk("trust_host_root_certs");
    PlainOk("auth_token");
    PlainOk("tunnels");
  }

  lemma OptionKeysOk()
    ensures NameOk("subdomain") && NameOk("hostname") && NameOk("auth") && NameOk("remote_port") && NameOk("proto")
  {
    hide *;
    PlainOk("subdomain");
    PlainOk("hostname");
    PlainOk("auth");
    PlainOk("remote_port");
    PlainOk("proto");
  }

  lemma FoldField(indent: nat, key: string, value: string, st: Parsing, next: Parsing)
    requires NameOk(key) && Safe(value)
    requires if value == "" then next == st else Step(st, Entry(indent, key, Tidy(value))) == Good(next)
    ensures Fold(Field(indent, key, value), st) == Some(next)
  {
    hide Step, ReadLine, DropCarriageReturn, Pair, NameOk, Safe, Tidy;
    if value != "" {
      ReadPair(indent, key, value);
      FoldOne(Pair(indent, key, value), st);
    }
  }

  lemma FoldThen(a: seq<string>, b: seq<string>, st: Parsing, mid: Parsing, next: Parsing)
    requires Fold(a, st) == Some(mid) && Fold(b, mid) == Some(next)
    ensures Fold(a + b, st) == Some(next)
  {
    hide Fold;
    FoldConcat(a, b, st, mid);
  }

  lemma FoldTop(s: Settings)
    requires SafeSettings(s)
    ensures Fold(TopLines(s), Start(NO_SETTINGS)) == Some(Start(TidySettings(s).(tunnels := map[])))
  {
    KeysOk();
    TidyNothing();
    TidyTrue();
    hide Fold, NameOk, Tidy, Field;
    var t := TidySettings(s);
    var s1 := NO_SETTINGS.(httpProxy := t.httpProxy);
    var s2 := s1.(serverAddr := t.serverAddr);
    var s3 := s2.(inspectAddr := t.inspectAddr);
    var s4 := s3.(inspectAuth := t.inspectAuth);
    var s5 := s4.(trustHostRootCerts := t.trustHostRootCerts);
    var s6 := s5.(authToken := t.authToken);
    var trust := if s.trustHostRootCerts then "true" else "";
    FoldField(0, "http_proxy", s.httpProxy, Start(NO_SETTINGS), Start(s1));
    FoldField(0, "server_addr", s.serverAddr, Start(s1), Start(s2));
    FoldField(0, "inspect_addr", s.inspectAddr, Start(s2), Start(s3));
    FoldField(0, "inspect_auth", s.inspectAuth, Start(s3), Start(s4));
    FoldField(0, "trust_host_root_certs", trust, Start(s4), Start(s5));
    FoldField(0, "auth_token", s.authToken, Start(s5), Start(s6));
    var f1, f2 := Field(0, "http_proxy", s.httpProxy), Field(0, "server_addr", s.serverAddr);
    var f3, f4 := Field(0, "inspect_addr", s.inspectAddr), Field(0, "inspect_auth", s.inspectAuth);
    var f5, f6 := Field(0, "trust_host_root_certs", trust), Field(0, "auth_token", s.authToken);
    FoldThen(f1, f2, Start(NO_SETTINGS), Start(s1), Start(s2));
    FoldThen(f1 + f2, f3, Start(NO_SETTINGS), Start(s2), Start(s3));
    FoldThen(f1 + f2 + f3, f4, Start(NO_SETTINGS), Start(s3), Start(s4));
    FoldThen(f1 + f2 + f3 + f4, f5, Start(NO_SETTINGS), Start(s4), Start(s5));
    FoldThen(f1 + f2 + f3 + f4 + f5, f6, Start(NO_SETTINGS), Start(s5), Start(s6));
  }

  lemma TidyTrue()
    ensures Tidy("true") == "true" && Truth("true") && Safe("true")
  {
    PlainOk("true");
    TrimFixed(White, "true");
    TrimFixed(Quotes, "true");
    hide Trim, NameOk, Trimmed;
    LowerTrue();
    assert forall c :: c in "true" ==> c != '#' && c != '\n';
  }

  lemma LowerTrue()
    ensures Truth("true")
  {
    assert ToLower("true") == ['t', 'r', 'u', 'e'] == "true";
    assert "true" in ["true", "yes", "1", "on"];
  }

  function PutAll<V>(m: map<string, V>, values: map<string, V>, order: seq<string>): map<string, V>
    requires forall k :: k in order ==> k in values
    decreases |order|
  {
    if order == [] then m else PutAll(m[order[0] := values[order[0]]], values, order[1..])
  }

  lemma {:induction false} PutAllAt<V>(m: map<string, V>, values: map<string, V>, order: seq<string>, k: string)
    requires forall x :: x in order ==> x in values
    ensures var r := PutAll(m, values, order);
      if k in order then k in r && r[k] == values[k] else if k in m then k in r && r[k] == m[k] else k !in r
    decreases |order|
  {
    if order != [] {
      PutAllAt(m[order[0] := values[order[0]]], values, order[1..], k);
    }
  }

  lemma PutWhole<V>(values: map<string, V>, order: seq<string>)
    requires forall k :: k in order <==> k in values
    ensures PutAll(map[], values, order) == values
  {
    forall k ensures k in PutAll(map[], values, order) <==> k in values
             ensures k in values ==> PutAll(map[], values, order)[k] == values[k] {
      PutAllAt(map[], values, order, k);
    }
  }

  lemma {:induction false} FoldProtocols(st: Parsing, name: string, t: Tunnel, protocols: map<string, string>,
                                         tidy: map<string, string>, order: seq<string>)
    requires forall k :: k in order ==> k in protocols && NameOk(k) && Safe(protocols[k])
    requires forall k :: k in order ==> k in tidy && tidy[k] == Tidy(protocols[k])
    ensures Fold(ProtocolLines(protocols, order), WithTunnel(st, name, t, true))
         == Some(WithTunnel(st, name, t.(protocols := PutAll(t.protocols, tidy, order)), true))
    decreases |order|
  {
    var from := WithTunnel(st, name, t, true);
    if order == [] {
      assert t.(protocols := t.protocols) == t;
    } else {
      var k := order[0];
      var u := t.(protocols := t.protocols[k := tidy[k]]);
      var line := Pair(6, k, protocols[k]);
      ReadPair(6, k, protocols[k]);
      StepProtocol(st, name, t, k, tidy[k]);
      hide Step, ReadLine, DropCarriageReturn, Pair, NameOk, Safe, Tidy, Fold;
      FoldOne(line, from);
      FoldProtocols(st, name, u, protocols, tidy, order[1..]);
      FoldConcat([line], ProtocolLines(protocols, order[1..]), from, WithTunnel(st, name, u, true));
    }
  }

  lemma StepProtocol(st: Parsing, name: string, t: Tunnel, key: string, value: string)
    ensures Step(WithTunnel(st, name, t, true), Entry(6, key, value))
         == Good(WithTunnel(st, name, t.(protocols := t.protocols[key := value]), true))
  {
    assert st.settings.tunnels[name := t][name := t.(protocols := t.protocols[key := value])]
        == st.settings.tunnels[name := t.(protocols := t.protocols[key := value])];
  }

  /** What reading a printed option line does to the tunnel. */
  lemma StepOption(st: Parsing, name: string, t: Tunnel, inProto: bool, value: string)
    ensures var from := WithTunnel(st, name, t, inProto);
      && Step(from, Entry(4, "subdomain", value)) == Good(WithTunnel(st, name, t.(subdomain := value), false))
      && Step(from, Entry(4, "hostname", value)) == Good(WithTunnel(st, name, t.(hostname := value), false))
      && Step(from, Entry(4, "auth", value)) == Good(WithTunnel(st, name, t.(httpAuth := value), false))
      && Step(from, Entry(4, "proto", value)) == Good(WithTunnel(st, name, t, true))
  {
    hide ParseUint;
    PutTwice(st.settings.tunnels, name, t, t.(subdomain := value));
    PutTwice(st.settings.tunnels, name, t, t.(hostname := value));
    PutTwice(st.settings.tunnels, name, t, t.(httpAuth := value));
    PutTwice(st.settings.tunnels, name, t, t);
  }

  lemma StepPort(st: Parsing, name: string, t: Tunnel, inProto: bool, value: string, port: uint16)
    requires ParseUint(value, 0x1_0000) == Some(port)
    ensures Step(WithTunnel(st, name, t, inProto), Entry(4, "remote_port", value))
         == Good(WithTunnel(st, name, t.(remotePort := port), false))
  {
    hide ParseUint;
    PutTwice(st.settings.tunnels, name, t, t.(remotePort := port));
  }

  lemma PutTwice(m: map<string, Tunnel>, name: string, t: Tunnel, u: Tunnel)
    ensures m[name := t][name := u] == m[name := u]
  {
  }

  lemma DigitsOk(s: string)
    requires s != [] && forall i :: 0 <= i < |s| ==> Digit(s[i])
    ensures Safe(s) && Trimmed(White, s) && Trimmed(Quotes, s)
  {
  }

  lemma TidyPort(port: uint16)
    ensures Safe(Itoa(port)) && Tidy(Itoa(port)) == Itoa(port)
  {
    DigitsOk(Itoa(port));
    TrimFixed(White, Itoa(port));
    TrimFixed(Quotes, Itoa(port));
    hide Itoa, Trim, Trimmed, Safe;
  }

  lemma FoldOptions(st: Parsing, name: string, t: Tunnel)
    requires SafeTunnel(t)
    ensures Fold(Field(4, "subdomain", t.subdomain) + Field(4, "hostname", t.hostname) + Field(4, "auth", t.httpAuth)
                 + Field(4, "remote_port", if t.remotePort == 0 then "" else Itoa(t.remotePort)),
                 WithTunnel(st, name, NO_TUNNEL, false))
         == Some(WithTunnel(st, name, TidyTunnel(t).(protocols := map[]), false))
  {
    OptionKeysOk();
    TidyNothing();
    TidyPort(t.remotePort);
    ParseItoa(t.remotePort, 0x1_0000);
    var port := if t.remotePort == 0 then "" else Itoa(t.remotePort);
    var t1 := NO_TUNNEL.(subdomain := Tidy(t.subdomain));
    var t2 := t1.(hostname := Tidy(t.hostname));
    var t3 := t2.(httpAuth := Tidy(t.httpAuth));
    var t4 := t3.(remotePort := t.remotePort);
    StepOption(st, name, NO_TUNNEL, false, Tidy(t.subdomain));
    StepOption(st, name, t1, false, Tidy(t.hostname));
    StepOption(st, name, t2, false, Tidy(t.httpAuth));
    StepPort(st, name, t3, false, Itoa(t.remotePort), t.remotePort);
    hide Fold, NameOk, Tidy, Field, Step, Itoa, ParseUint, Safe, WithTunnel;
    FoldField(4, "subdomain", t.subdomain, WithTunnel(st, name, NO_TUNNEL, false), WithTunnel(st, name, t1, false));
    FoldField(4, "hostname", t.hostname, WithTunnel(st, name, t1, false), WithTunnel(st, name, t2, false));
    FoldField(4, "auth", t.httpAuth, WithTunnel(st, name, t2, false), WithTunnel(st, name, t3, false));
    FoldField(4, "remote_port", port, WithTunnel(st, name, t3, false), WithTunnel(st, name, t4, false));
    var f1, f2 := Field(4, "subdomain", t.subdomain), Field(4, "hostname", t.hostname);
    var f3, f4 := Field(4, "auth", t.httpAuth), Field(4, "remote_port", port);
    var from := WithTunnel(st, name, NO_TUNNEL, false);
    FoldThen(f1, f2, from, WithTunnel(st, name, t1, false), WithTunnel(st, name, t2, false));
    FoldThen(f1 + f2, f3, from, WithTunnel(st, name, t2, false), WithTunnel(st, name, t3, false));
    FoldThen(f1 + f2 + f3, f4, from, WithTunnel(st, name, t3, false), WithTunnel(st, name, t4, false));
  }

  lemma FoldProto(st: Parsing, name: string, t: Tunnel, order: seq<string>)
    requires SafeTunnel(t) && Orders(order, t.protocols.Keys)
    ensures Fold(ProtoLines(t, order), WithTunnel(st, name, TidyTunnel(t).(protocols := map[]), false))
         == Some(WithTunnel(st, name, TidyTunnel(t), |t.protocols| != 0))
  {
    var u := TidyTunnel(t).(protocols := map[]);
    var from, mid := WithTunnel(st, name, u, false), WithTunnel(st, name, u, true);
    OptionKeysOk();
    TidyNothing();
    StepOption(st, name, u, false, "");
    TidyEmptied(t);
    hide Tidy, NameOk, Step, TidyTunnel, Safe, Orders;
    if |t.protocols| == 0 {
      assert WithTunnel(st, name, u, false) == WithTunnel(st, name, TidyTunnel(t), false);
    } else {
      ReadHeader(4, "proto");
      FoldOne(Header(4, "proto"), from);
      OrderKeys(order, t.protocols.Keys);
      TidyProtocols(t);
      FoldProtocols(st, name, u, t.protocols, TidyTunnel(t).protocols, order);
      PutWhole(TidyTunnel(t).protocols, order);
      FoldThen([Header(4, "proto")], ProtocolLines(t.protocols, order), from, mid, WithTunnel(st, name, TidyTunnel(t), true));
    }
  }

  lemma OrderKeys(order: seq<string>, keys: set<string>)
    requires Orders(order, keys)
    ensures forall k :: k in order <==> k in keys
  {
    assert forall k :: k in order <==> k in (set x | x in order);
  }

  lemma TidyProtocols(t: Tunnel)
    ensures TidyTunnel(t).protocols.Keys == t.protocols.Keys
    ensures forall k :: k in t.protocols ==> TidyTunnel(t).protocols[k] == Tidy(t.protocols[k])
  {
    hide Tidy;
  }

  lemma TidyEmptied(t: Tunnel)
    ensures |t.protocols| == 0 ==> TidyTunnel(t).(protocols := map[]) == TidyTunnel(t)
  {
    hide Tidy;
    if |t.protocols| == 0 {
      assert t.protocols == map[];
    }
  }

  lemma StepName(st: Parsing, name: string, value: string)
    requires st.inTunnels
    ensures Step(st, Entry(2, name, value)) == Good(WithTunnel(st, name, NO_TUNNEL, false))
  {
  }

  lemma FoldTunnel(st: Parsing, name: string, t: Tunnel, order: seq<string>)
    requires st.inTunnels && NameOk(name) && SafeTunnel(t) && Orders(order, t.protocols.Keys)
    ensures Fold(TunnelLines(name, t, order), st) == Some(WithTunnel(st, name, TidyTunnel(t), |t.protocols| != 0))
  {
    hide *;
    var from := WithTunnel(st, name, NO_TUNNEL, false);
    var mid := WithTunnel(st, name, TidyTunnel(t).(protocols := map[]), false);
    var last := WithTunnel(st, name, TidyTunnel(t), |t.protocols| != 0);
    ReadHeader(2, name);
    StepName(st, name, "");
    FoldOne(Header(2, name), st);
    FoldOptionLines(st, name, t);
    FoldProto(st, name, t, order);
    FoldThen([Header(2, name)], OptionLines(t), st, from, mid);
    FoldThen([Header(2, name)] + OptionLines(t), ProtoLines(t, order), st, mid, last);
    TunnelShape(name, t, order);
  }

  lemma TunnelShape(name: string, t: Tunnel, order: seq<string>)
    requires Orders(order, t.protocols.Keys)
    ensures TunnelLines(name, t, order) == [Header(2, name)] + OptionLines(t) + ProtoLines(t, order)
  {
    hide Field, Header, Itoa, ProtocolLines, OptionLines, ProtoLines, Orders;
  }

  lemma FoldOptionLines(st: Parsing, name: string, t: Tunnel)
    requires SafeTunnel(t)
    ensures Fold(OptionLines(t), WithTunnel(st, name, NO_TUNNEL, false))
         == Some(WithTunnel(st, name, TidyTunnel(t).(protocols := map[]), false))
  {
    hide Field, Itoa, Fold, TidyTunnel, WithTunnel, SafeTunnel;
    FoldOptions(st, name, t);
  }

  lemma {:induction false} FoldTunnels(st: Parsing, tunnels: map<string, Tunnel>, tidy: map<string, Tunnel>,
                                       names: seq<string>, protocols: map<string, seq<string>>)
    requires st.inTunnels
    requires forall n :: n in names ==> n in tunnels && NameOk(n) && SafeTunnel(tunnels[n])
    requires forall n :: n in names ==> n in tidy && tidy[n] == TidyTunnel(tunnels[n])
    requires forall n :: n in names ==> n in protocols && Orders(protocols[n], tunnels[n].protocols.Keys)
    ensures Fold(TunnelsLines(tunnels, names, protocols), st).Some?
    ensures Fold(TunnelsLines(tunnels, names, protocols), st).value.settings
         == st.settings.(tunnels := PutAll(st.settings.tunnels, tidy, names))
    decreases |names|
  {
    hide NameOk, SafeTunnel, Orders, TidyTunnel, TunnelLines;
    if names != [] {
      var n := names[0];
      var t := tunnels[n];
      var next := WithTunnel(st, n, TidyTunnel(t), |t.protocols| != 0);
      FoldTunnel(st, n, t, protocols[n]);
      FoldTunnels(next, tunnels, tidy, names[1..], protocols);
      FoldConcat(TunnelLines(n, t, protocols[n]), TunnelsLines(tunnels, names[1..], protocols), st, next);
    }
  }

  lemma FoldSection(s: Settings, v: Visit, top: Settings)
    requires Visits(v, s) && SafeSettings(s) && top.tunnels == map[]
    ensures Fold(TunnelsSection(s, v), Start(top)).Some?
    ensures Fold(TunnelsSection(s, v), Start(top)).value.settings == top.(tunnels := TidySettings(s).tunnels)
  {
    if |s.tunnels| == 0 {
      assert s.tunnels == map[];
      assert TidySettings(s).tunnels == map[];
    } else {
      KeysOk();
      VisitNames(s, v);
      var open := Parsing(top, true, None, false);
      assert Step(Start(top), Entry(0, "tunnels", "")) == Good(open);
      hide Tidy, NameOk, Step, TidyTunnel, Safe, Orders, SafeTunnel, Fold, Visits, SafeSettings, TidySettings, Start;
      ReadHeader(0, "tunnels");
      FoldOne(Header(0, "tunnels"), Start(top));
      TidyTunnels(s);
      FoldTunnels(open, s.tunnels, TidySettings(s).tunnels, v.names, v.protocols);
      PutWhole(TidySettings(s).tunnels, v.names);
      FoldConcat([Header(0, "tunnels")], TunnelsLines(s.tunnels, v.names, v.protocols), Start(top), open);
    }
  }

  lemma VisitNames(s: Settings, v: Visit)
    requires Visits(v, s) && SafeSettings(s)
    ensures forall n :: n in v.names ==> n in s.tunnels && NameOk(n) && SafeTunnel(s.tunnels[n])
    ensures forall n :: n in v.names ==> n in v.protocols && Orders(v.protocols[n], s.tunnels[n].protocols.Keys)
    ensures forall n :: n in v.names <==> n in s.tunnels
  {
    OrderKeys(v.names, s.tunnels.Keys);
    hide Orders, NameOk, SafeTunnel;
  }

  lemma TidyTunnels(s: Settings)
    ensures TidySettings(s).tunnels.Keys == s.tunnels.Keys
    ensures forall n :: n in s.tunnels ==> TidySettings(s).tunnels[n] == TidyTunnel(s.tunnels[n])
  {
    hide Tidy, TidyTunnel;
  }

  /** Reading back what was printed gives every value tidied, whatever the orders. */
  lemma FoldLines(s: Settings, v: Visit)
    requires Visits(v, s) && SafeSettings(s)
    ensures Fold(Lines(s, v), Start(NO_SETTINGS)).Some?
    ensures Fold(Lines(s, v), Start(NO_SETTINGS)).value.settings == TidySettings(s)
  {
    hide Tidy, NameOk, Orders, SafeTunnel, Fold, Visits, SafeSettings, TidySettings, Start, TopLines, TunnelsSection;
    var top := TidySettings(s).(tunnels := map[]);
    FoldTop(s);
    FoldSection(s, v, top);
    FoldConcat(TopLines(s), TunnelsSection(s, v), Start(NO_SETTINGS), Start(top));
  }

  // ----- When reading restores what was printed -----

  predicate Clean(value: string) {
    Safe(value) && Trimmed(White, value) && Trimmed(Quotes, value)
  }

  predicate CleanTunnel(t: Tunnel) {
    && Clean(t.subdomain) && Clean(t.hostname) && Clean(t.httpAuth)
    && forall k :: k in t.protocols ==> NameOk(k) && Clean(t.protocols[k])
  }

  predicate CleanSettings(s: Settings) {
    && Clean(s.httpProxy) && Clean(s.serverAddr) && Clean(s.inspectAddr) && Clean(s.inspectAuth) && Clean(s.authToken)
    && forall n :: n in s.tunnels ==> NameOk(n) && CleanTunnel(s.tunnels[n])
  }

  lemma TidyClean(value: string)
    ensures Clean(value) <==> Safe(value) && Tidy(value) == value
  {
    TrimFixed(White, value);
    TrimFixed(Quotes, value);
    TidyShrinks(value);
    hide Safe, Trimmed, TrimLeft, TrimRight;
  }

  lemma TidyShrinks(value: string)
    ensures |Trim(Quotes, TrimSpace(value))| <= |TrimSpace(value)| <= |value|
    ensures |TrimSpace(value)| == |value| ==> TrimSpace(value) == value
  {
  }

  lemma TidyCleanTunnel(t: Tunnel)
    ensures CleanTunnel(t) <==> SafeTunnel(t) && TidyTunnel(t) == t
  {
    hide Clean, Safe, Tidy, NameOk;
    TidyClean(t.subdomain);
    TidyClean(t.hostname);
    TidyClean(t.httpAuth);
    forall k | k in t.protocols
      ensures Clean(t.protocols[k]) <==> Safe(t.protocols[k]) && Tidy(t.protocols[k]) == t.protocols[k]
    {
      TidyClean(t.protocols[k]);
    }
  }

  lemma TidyCleanSettings(s: Settings)
    ensures CleanSettings(s) <==> SafeSettings(s) && TidySettings(s) == s
  {
    hide Clean, Safe, Tidy, NameOk, CleanTunnel, SafeTunnel, TidyTunnel;
    TidyClean(s.httpProxy);
    TidyClean(s.serverAddr);
    TidyClean(s.inspectAddr);
    TidyClean(s.inspectAuth);
    TidyClean(s.authToken);
    forall n | n in s.tunnels
      ensures CleanTunnel(s.tunnels[n]) <==> SafeTunnel(s.tunnels[n]) && TidyTunnel(s.tunnels[n]) == s.tunnels[n]
    {
      TidyCleanTunnel(s.tunnels[n]);
    }
  }

  /** Every key read is a good name, and no value read holds a '#' or a line break. */
  lemma ReadLineSafe(text: string)
    requires '\n' !in text
    ensures var l := ReadLine(text); l.Entry? ==> NameOk(l.key) && Safe(l.value)
  {
    var raw := StripComment(text);
    assert Safe(raw);
    SafePart(raw);
    hide StripComment, LeadingSpaces, TrimLeft, TrimRight, Tidy;
    SplitSafe(LeadingSpaces(raw), TrimSpace(raw));
  }

  lemma SplitSafe(indent: nat, line: string)
    requires Safe(line)
    ensures var l := SplitKeyValue(indent, line); l.Entry? ==> NameOk(l.key) && Safe(l.value)
  {
    hide TrimSpace, Tidy;
    var i := IndexOf(line, ':');
    if i < |line| {
      assert Safe(line[..i]) && Safe(line[i + 1..]);
      hide Safe, Trimmed;
      SafePart(line[..i]);
      TrimmedSpace(line[..i]);
      NoColon(line[..i]);
      SafePart(line[i + 1..]);
    }
  }

  lemma NoColon(s: string)
    requires ':' !in s
    ensures ':' !in TrimSpace(s)
  {
  }

  lemma TrimmedSpace(s: string)
    ensures Trimmed(White, TrimSpace(s))
  {
    TrimFixed(White, s);
  }

  lemma SafePart(s: string)
    requires Safe(s)
    ensures Safe(TrimSpace(s)) && Safe(Tidy(s))
  {
  }

  predicate SafeParsing(st: Parsing) {
    SafeSettings(st.settings) && (st.current.Some? ==> NameOk(st.current.value))
  }

  lemma StepSafe(st: Parsing, line: Line)
    requires SafeParsing(st) && (line.Entry? ==> NameOk(line.key) && Safe(line.value))
    ensures var next := Step(st, line); next.Good? ==> SafeParsing(next.state)
  {
    hide SetTop, SetOption, SetProtocol, WithTunnel;
    NothingSafe();
    if line.Entry? {
      TopSafe(st.settings, line.key, line.value);
      WithTunnelSafe(st, line.key, NO_TUNNEL, false);
      if st.current.Some? {
        OptionSafe(st, st.current.value, line.key, line.value);
        ProtocolSafe(st, st.current.value, line.key, line.value);
      }
    }
  }

  lemma TopSafe(s: Settings, key: string, value: string)
    requires SafeSettings(s) && Safe(value)
    ensures SetTop(s, key, value).Good? ==> SafeParsing(SetTop(s, key, value).state)
  {
    hide Safe, NameOk, SafeTunnel;
  }

  lemma WithTunnelSafe(st: Parsing, name: string, t: Tunnel, inProto: bool)
    requires SafeParsing(st) && NameOk(name) && SafeTunnel(t)
    ensures SafeParsing(WithTunnel(st, name, t, inProto))
  {
    hide Safe, NameOk, SafeTunnel;
  }

  lemma OptionSafe(st: Parsing, name: string, key: string, value: string)
    requires SafeParsing(st) && NameOk(name) && Safe(value)
    ensures SetOption(st, name, key, value).Good? ==> SafeParsing(SetOption(st, name, key, value).state)
  {
    hide Safe, NameOk, WithTunnel, ParseUint, SafeParsing;
    var t := TunnelOf(st.settings, name);
    TunnelOfSafe(st, name);
    var next := SetOption(st, name, key, value);
    if next.Good? {
      var u, inProto := if key == "subdomain" then t.(subdomain := value)
        else if key == "hostname" then t.(hostname := value)
        else if key == "auth" then t.(httpAuth := value)
        else if key == "remote_port" then t.(remotePort := ParseUint(value, 0x1_0000).value)
        else t, key == "proto";
      WithTunnelSafe(st, name, u, inProto);
    }
  }

  lemma TunnelOfSafe(st: Parsing, name: string)
    requires SafeParsing(st)
    ensures SafeTunnel(TunnelOf(st.settings, name))
  {
    NothingSafe();
    hide SafeTunnel, Safe, NameOk;
  }

  lemma ProtocolSafe(st: Parsing, name: string, key: string, value: string)
    requires SafeParsing(st) && NameOk(name) && NameOk(key) && Safe(value)
    ensures SafeParsing(SetProtocol(st, name, key, value))
  {
    hide Safe, NameOk, WithTunnel, SafeParsing;
    var t := TunnelOf(st.settings, name);
    TunnelOfSafe(st, name);
    WithTunnelSafe(st, name, t.(protocols := t.protocols[key := value]), true);
  }

  lemma NothingSafe()
    ensures SafeTunnel(NO_TUNNEL) && SafeParsing(Start(NO_SETTINGS))
  {
  }

  lemma {:induction false} ParsedSafe(data: string, st: Parsing, lineNo: nat)
    requires SafeParsing(st)
    ensures SafeSettings(ParseText(data, st, lineNo).settings)
    decreases |data|
  {
    hide SafeSettings, Step, ReadLine, DropCarriageReturn, NameOk, Safe;
    if data != [] {
      var i := IndexOf(data, '\n');
      LineOf(data, i);
      var line := ReadLine(DropCarriageReturn(data[..i]));
      ReadLineSafe(DropCarriageReturn(data[..i]));
      StepSafe(st, line);
      if ByteLength(data[..i]) < MAX_TOKEN && Step(st, line).Good? {
        ParsedSafe(if i == |data| then [] else data[i + 1..], Step(st, line).state, lineNo + 1);
      }
    }
  }

  lemma LineOf(data: string, i: nat)
    requires i <= |data| && '\n' !in data[..i]
    ensures '\n' !in DropCarriageReturn(data[..i])
  {
  }

  // ----- The lines of safe settings hold no line break -----

  predicate OneLine(lines: seq<string>) {
    forall l :: l in lines ==> '\n' !in l
  }

  lemma FieldOneLine(indent: nat, key: string, value: string)
    requires NameOk(key) && Safe(value)
    ensures OneLine(Field(indent, key, value)) && OneLine([Pair(indent, key, value)]) && OneLine([Header(indent, key)])
  {
    assert forall c :: c in Spaces(indent) ==> c == ' ';
    assert '\n' !in ": " && '\n' !in ":";
    hide Spaces, Trimmed;
  }

  lemma TopOneLine(s: Settings)
    requires SafeSettings(s)
    ensures OneLine(TopLines(s))
  {
    KeysOk();
    TidyTrue();
    assert Safe("");
    hide Field, NameOk, Safe;
    FieldOneLine(0, "http_proxy", s.httpProxy);
    FieldOneLine(0, "server_addr", s.serverAddr);
    FieldOneLine(0, "inspect_addr", s.inspectAddr);
    FieldOneLine(0, "inspect_auth", s.inspectAuth);
    FieldOneLine(0, "trust_host_root_certs", if s.trustHostRootCerts then "true" else "");
    FieldOneLine(0, "auth_token", s.authToken);
  }

  lemma {:induction false} ProtocolsOneLine(protocols: map<string, string>, order: seq<string>)
    requires forall k :: k in order ==> k in protocols && NameOk(k) && Safe(protocols[k])
    ensures OneLine(ProtocolLines(protocols, order))
    decreases |order|
  {
    hide Pair, NameOk, Safe;
    if order != [] {
      FieldOneLine(6, order[0], protocols[order[0]]);
      ProtocolsOneLine(protocols, order[1..]);
    }
  }

  lemma TunnelOneLine(name: string, t: Tunnel, order: seq<string>)
    requires NameOk(name) && SafeTunnel(t) && Orders(order, t.protocols.Keys)
    ensures OneLine(TunnelLines(name, t, order))
  {
    OptionKeysOk();
    TidyPort(t.remotePort);
    OrderKeys(order, t.protocols.Keys);
    assert Safe("");
    hide Field, NameOk, Safe, Header, Itoa, Orders, ProtocolLines;
    FieldOneLine(2, name, "");
    FieldOneLine(4, "proto", "");
    FieldOneLine(4, "subdomain", t.subdomain);
    FieldOneLine(4, "hostname", t.hostname);
    FieldOneLine(4, "auth", t.httpAuth);
    FieldOneLine(4, "remote_port", if t.remotePort == 0 then "" else Itoa(t.remotePort));
    ProtocolsOneLine(t.protocols, order);
  }

  lemma {:induction false} TunnelsOneLine(tunnels: map<string, Tunnel>, names: seq<string>, protocols: map<string, seq<string>>)
    requires forall n :: n in names ==> n in tunnels && NameOk(n) && SafeTunnel(tunnels[n])
    requires forall n :: n in names ==> n in protocols && Orders(protocols[n], tunnels[n].protocols.Keys)
    ensures OneLine(TunnelsLines(tunnels, names, protocols))
    decreases |names|
  {
    hide NameOk, SafeTunnel, Orders, TunnelLines;
    if names != [] {
      TunnelOneLine(names[0], tunnels[names[0]], protocols[names[0]]);
      TunnelsOneLine(tunnels, names[1..], protocols);
    }
  }

  lemma LinesOneLine(s: Settings, v: Visit)
    requires Visits(v, s) && SafeSettings(s)
    ensures OneLine(Lines(s, v))
  {
    KeysOk();
    TopOneLine(s);
    VisitNames(s, v);
    assert Safe("");
    hide NameOk, SafeTunnel, Orders, TunnelsLines, TopLines, Header;
    FieldOneLine(0, "tunnels", "");
    TunnelsOneLine(s.tunnels, v.names, v.protocols);
  }

  /** The round trip, exactly: parsing what the printer wrote restores the settings
      if and only if every value is clean, every name and protocol can be a key,
      and every line fits the scanner. */
  lemma RoundTrip(s: Settings, v: Visit)
    requires Visits(v, s)
    ensures Parse(Unlines(Lines(s, v))) == Result(s, None)
       <==> CleanSettings(s) && forall l :: l in Lines(s, v) ==> ByteLength(l) < MAX_TOKEN
  {
    hide Lines, Visits, SafeSettings, CleanSettings, TidySettings, ParseText, Fold;
    var text := Unlines(Lines(s, v));
    NothingSafe();
    assert SafeParsing(Start(NO_SETTINGS));
    ParsedSafe(text, Start(NO_SETTINGS), 1);
    TidyCleanSettings(s);
    if SafeSettings(s) {
      LinesOneLine(s, v);
      FoldLines(s, v);
      if forall l :: l in Lines(s, v) ==> ByteLength(l) < MAX_TOKEN {
        ParseLines(Lines(s, v), Start(NO_SETTINGS), 1);
      } else {
        var k :| 0 <= k < |Lines(s, v)| && !Scannable(Lines(s, v)[k]);
        LongLineFails(Lines(s, v), Start(NO_SETTINGS), 1, k);
      }
    }
  }

  // ----- The configuration object -----

  class Configuration {
    var httpProxy: string
    var serverAddr: string
    var inspectAddr: string
    var inspectAuth: string
    var trustHostRootCerts: bool
    var authToken: string
    var tunnels: map<string, Tunnel>

    function Contents(): Settings
      reads this
    {
      Settings(httpProxy, serverAddr, inspectAddr, inspectAuth, trustHostRootCerts, authToken, tunnels)
    }

    constructor ()
      ensures Contents() == NO_SETTINGS
    {
      httpProxy, serverAddr, inspectAddr, inspectAuth := "", "", "", "";
      trustHostRootCerts, authToken, tunnels := false, "", map[];
    }

    /** Lines without indentation. */
    method SetKey(key: string, value: string) returns (problem: Option<Problem>, inTunnels: bool)
      modifies this
      ensures match SetTop(old(Contents()), key, value)
              case Bad(p) => problem == Some(p) && Contents() == old(Contents())
              case Good(next) => problem == None && next == Parsing(Contents(), inTunnels, None, false)
    {
      problem, inTunnels := None, false;
      if key == "http_proxy" {
        httpProxy := value;
      } else if key == "server_addr" {
        serverAddr := value;
      } else if key == "inspect_addr" {
        inspectAddr := value;
      } else if key == "inspect_auth" {
        inspectAuth := value;
      } else if key == "trust_host_root_certs" {
        trustHostRootCerts := Truth(value);
      } else if key == "auth_token" {
        authToken := value;
      } else if key == "tunnels" {
        inTunnels := true;
      } else {
        problem := Some(UnknownKey);
      }
    }

    /** Lines inside the tunnel that was named last. */
    method SetTunnelKey(name: string, key: string, value: string, inTunnels: bool)
      returns (problem: Option<Problem>, inProto: bool)
      requires name in tunnels
      modifies this`tunnels
      ensures name in tunnels
      ensures match SetOption(Parsing(old(Contents()), inTunnels, Some(name), false), name, key, value)
              case Bad(p) => problem == Some(p) && Contents() == old(Contents())
              case Good(next) => problem == None && next == Parsing(Contents(), inTunnels, Some(name), inProto)
    {
      hide ParseUint;
      problem, inProto := None, false;
      var current := tunnels[name];
      if key == "subdomain" {
        current := current.(subdomain := value);
      } else if key == "hostname" {
        current := current.(hostname := value);
      } else if key == "auth" {
        current := current.(httpAuth := value);
      } else if key == "remote_port" {
        var port := ParseUint(value, 0x1_0000);
        if port == None {
          return Some(InvalidPort), false;
        }
        current := current.(remotePort := port.value);
      } else if key == "proto" {
        inProto := true;
      } else {
        return Some(UnknownTunnelKey), false;
      }
      tunnels := tunnels[name := current];
    }

    /** The body of the line loop: one line, already out of the scanner. */
    method ReadEntry(text: string, inTunnels: bool, current: Option<string>, inProto: bool)
      returns (problem: Option<Problem>, inTunnels': bool, current': Option<string>, inProto': bool)
      requires current.Some? ==> current.value in tunnels
      modifies this
      ensures match Step(Parsing(old(Contents()), inTunnels, current, inProto), ReadLine(text))
              case Bad(p) => problem == Some(p) && Contents() == old(Contents())
              case Good(next) => problem == None && next == Parsing(Contents(), inTunnels', current', inProto')
      ensures problem == None && current'.Some? ==> current'.value in tunnels
    {
      hide ReadLine, SetTop, SetOption;
      problem, inTunnels', current', inProto' := None, inTunnels, current, inProto;
      var line := ReadLine(text);
      if line.Malformed? {
        problem := Some(NotKeyValue);
      } else if line.Entry? {
        if line.indent == 0 {
          current', inProto' := None, false;
          problem, inTunnels' := SetKey(line.key, line.value);
        } else if line.indent == 2 {
          if !inTunnels {
            return Some(UnexpectedNested), inTunnels, current, inProto;
          }
          current', inProto' := Some(line.key), false;
          tunnels := tunnels[line.key := NO_TUNNEL];
        } else if line.indent == 4 {
          if current == None {
            return Some(OptionWithoutTunnel), inTunnels, current, inProto;
          }
          SetOptionForgets(Parsing(Contents(), inTunnels, current, inProto), current.value, line.key, line.value);
          problem, inProto' := SetTunnelKey(current.value, line.key, line.value, inTunnels);
        } else if line.indent == 6 {
          if current == None || !inProto {
            return Some(ProtocolWithoutProto), inTunnels, current, inProto;
          }
          var t := tunnels[current.value];
          tunnels := tunnels[current.value := t.(protocols := t.protocols[line.key := line.value])];
        } else {
          problem := Some(Indentation);
        }
      }
    }

    /** The line loop: it reads what the fold reads, and stops where it stops. */
    method ParseConfiguration(data: string) returns (err: Option<(nat, Problem)>)
      modifies this
      ensures ParseText(data, Start(old(Contents())), 1) == Result(Contents(), err)
    {
      hide Step, ReadLine, DropCarriageReturn;
      var rest, lineNo := data, 1;
      var inTunnels, current: Option<string>, inProto := false, None, false;
      while rest != []
        invariant current.Some? ==> current.value in tunnels
        invariant ParseText(rest, Parsing(Contents(), inTunnels, current, inProto), lineNo)
               == ParseText(data, Start(old(Contents())), 1)
        decreases |rest|
      {
        var i := IndexOf(rest, '\n');
        if ByteLength(rest[..i]) >= MAX_TOKEN {
          return Some((lineNo, TokenTooLong));
        }
        var problem;
        problem, inTunnels, current, inProto := ReadEntry(DropCarriageReturn(rest[..i]), inTunnels, current, inProto);
        if problem.Some? {
          return Some((lineNo, problem.value));
        }
        rest, lineNo := if i == |rest| then [] else rest[i + 1..], lineNo + 1;
      }
      return None;
    }

    /** The printer. Which order each range over a map takes is left open. */
    method FormatConfiguration() returns (b: string, ghost v: Visit)
      ensures Visits(v, Contents()) && b == Unlines(Lines(Contents(), v))
    {
      var s := Contents();
      b := WriteString("", [], 0, "http_proxy", httpProxy);
      b := WriteString(b, Field(0, "http_proxy", s.httpProxy), 0, "server_addr", serverAddr);
      ghost var l2 := Field(0, "http_proxy", s.httpProxy) + Field(0, "server_addr", s.serverAddr);
      b := WriteString(b, l2, 0, "inspect_addr", inspectAddr);
      ghost var l3 := l2 + Field(0, "inspect_addr", s.inspectAddr);
      b := WriteString(b, l3, 0, "inspect_auth", inspectAuth);
      ghost var l4 := l3 + Field(0, "inspect_auth", s.inspectAuth);
      b := WriteString(b, l4, 0, "trust_host_root_certs", if trustHostRootCerts then "true" else "");
      ghost var l5 := l4 + Field(0, "trust_host_root_certs", if s.trustHostRootCerts then "true" else "");
      b := WriteString(b, l5, 0, "auth_token", authToken);
      hide Field, Unlines;
      assert l5 + Field(0, "auth_token", s.authToken) == TopLines(s);
      b, v := WriteTunnels(b, TopLines(s), s);
    }
  }

  lemma {:induction false} UnlinesMore(lines: seq<string>, line: string)
    ensures Unlines(lines + [line]) == Unlines(lines) + line + "\n"
  {
    if lines == [] {
      assert [line][1..] == [];
    } else {
      assert (lines + [line])[1..] == lines[1..] + [line];
      UnlinesMore(lines[1..], line);
    }
  }

  method WriteLine(b: string, ghost lines: seq<string>, line: string) returns (r: string)
    requires b == Unlines(lines)
    ensures r == Unlines(lines + [line])
  {
    UnlinesMore(lines, line);
    r := b + line + "\n";
  }

  /** Writes nothing for an empty value. */
  method WriteString(b: string, ghost lines: seq<string>, indent: nat, key: string, value: string) returns (r: string)
    requires b == Unlines(lines)
    ensures r == Unlines(lines + Field(indent, key, value))
  {
    hide Unlines, Pair;
    if value == "" {
      assert lines + Field(indent, key, value) == lines;
      return b;
    }
    r := WriteLine(b, lines, Pair(indent, key, value));
  }

  /** Visiting one more key. */
  lemma OrderMore(order: seq<string>, k: string, todo: set<string>, keys: set<string>)
    requires Orders(order, keys - todo) && k in todo && todo <= keys
    ensures Orders(order + [k], keys - (todo - {k}))
  {
    assert forall x :: x in order ==> x in (set y | y in order);
    assert (set x | x in order + [k]) == (set x | x in order) + {k};
  }

  method WriteProtocols(b: string, ghost lines: seq<string>, protocols: map<string, string>) returns (r: string, ghost order: seq<string>)
    requires b == Unlines(lines)
    ensures Orders(order, protocols.Keys) && (forall k :: k in order ==> k in protocols)
    ensures r == Unlines(lines + ProtocolLines(protocols, order))
  {
    hide Unlines, Pair, Orders;
    r, order := b, [];
    var todo := protocols.Keys;
    NoOrder(protocols.Keys);
    assert lines + ProtocolLines(protocols, []) == lines;
    while todo != {}
      invariant todo <= protocols.Keys && Orders(order, protocols.Keys - todo)
      invariant forall k :: k in order ==> k in protocols
      invariant r == Unlines(lines + ProtocolLines(protocols, order))
    {
      var k :| k in todo;
      OrderMore(order, k, todo, protocols.Keys);
      ProtocolLinesMore(protocols, order, k);
      ghost var before := lines + ProtocolLines(protocols, order);
      r := WriteLine(r, before, Pair(6, k, protocols[k]));
      assert before + [Pair(6, k, protocols[k])] == lines + ProtocolLines(protocols, order + [k]);
      order, todo := order + [k], todo - {k};
    }
    assert protocols.Keys - todo == protocols.Keys;
  }

  lemma NoOrder(keys: set<string>)
    ensures Orders([], keys - keys)
  {
    assert (set k | k in []) == keys - keys;
  }

  lemma {:induction false} ProtocolLinesMore(protocols: map<string, string>, order: seq<string>, k: string)
    requires forall x :: x in order + [k] ==> x in protocols
    ensures forall x :: x in order ==> x in protocols
    ensures ProtocolLines(protocols, order + [k]) == ProtocolLines(protocols, order) + [Pair(6, k, protocols[k])]
  {
    hide Pair;
    assert forall x :: x in order ==> x in order + [k];
    if order == [] {
      assert order + [k] == [k] && [k][1..] == [];
    } else {
      assert (order + [k])[1..] == order[1..] + [k];
      assert forall x :: x in order[1..] + [k] ==> x in order + [k];
      ProtocolLinesMore(protocols, order[1..], k);
    }
  }

  method WriteTunnel(b: string, ghost lines: seq<string>, name: string, t: Tunnel) returns (r: string, ghost order: seq<string>)
    requires b == Unlines(lines)
    ensures Orders(order, t.protocols.Keys) && r == Unlines(lines + TunnelLines(name, t, order))
  {
    hide Unlines, Field, Header, Orders, Itoa;
    r := WriteLine(b, lines, Header(2, name));
    ghost var l1 := lines + [Header(2, name)];
    r := WriteString(r, l1, 4, "subdomain", t.subdomain);
    ghost var l2 := l1 + Field(4, "subdomain", t.subdomain);
    r := WriteString(r, l2, 4, "hostname", t.hostname);
    ghost var l3 := l2 + Field(4, "hostname", t.hostname);
    r := WriteString(r, l3, 4, "auth", t.httpAuth);
    ghost var l4 := l3 + Field(4, "auth", t.httpAuth);
    r := WriteString(r, l4, 4, "remote_port", if t.remotePort == 0 then "" else Itoa(t.remotePort));
    ghost var l5 := l4 + Field(4, "remote_port", if t.remotePort == 0 then "" else Itoa(t.remotePort));
    assert l5 == lines + [Header(2, name)] + OptionLines(t);
    if |t.protocols| > 0 {
      r := WriteLine(r, l5, Header(4, "proto"));
      r, order := WriteProtocols(r, l5 + [Header(4, "proto")], t.protocols);
      assert l5 + [Header(4, "proto")] + ProtocolLines(t.protocols, order) == lines + TunnelLines(name, t, order);
    } else {
      order := [];
      NoOrder(t.protocols.Keys);
      assert t.protocols == map[];
      assert t.protocols.Keys - t.protocols.Keys == t.protocols.Keys;
      assert l5 == lines + TunnelLines(name, t, order);
    }
  }

  ghost predicate Covers(names: seq<string>, orders: map<string, seq<string>>, tunnels: map<string, Tunnel>) {
    forall n :: n in names ==> n in tunnels && n in orders && Orders(orders[n], tunnels[n].protocols.Keys)
  }

  method WriteTunnels(b: string, ghost lines: seq<string>, s: Settings) returns (r: string, ghost v: Visit)
    requires b == Unlines(lines)
    ensures Visits(v, s) && r == Unlines(lines + TunnelsSection(s, v))
  {
    hide Unlines, Header, Orders, TunnelLines;
    r, v := b, Visit([], map[]);
    var todo := s.tunnels.Keys;
    NoOrder(s.tunnels.Keys);
    if |s.tunnels| == 0 {
      assert s.tunnels == map[] && s.tunnels.Keys - s.tunnels.Keys == s.tunnels.Keys;
      assert lines + TunnelsSection(s, v) == lines;
      return;
    }
    ghost var head := lines + [Header(0, "tunnels")];
    r := WriteLine(b, lines, Header(0, "tunnels"));
    assert head + TunnelsLines(s.tunnels, [], map[]) == head;
    while todo != {}
      invariant todo <= s.tunnels.Keys && Orders(v.names, s.tunnels.Keys - todo)
      invariant Covers(v.names, v.protocols, s.tunnels)
      invariant r == Unlines(head + TunnelsLines(s.tunnels, v.names, v.protocols))
    {
      var n :| n in todo;
      OrderMore(v.names, n, todo, s.tunnels.Keys);
      NotYet(v.names, n, todo, s.tunnels.Keys);
      r, v := WriteOneTunnel(r, head, s.tunnels, n, v);
      todo := todo - {n};
    }
    assert s.tunnels.Keys - todo == s.tunnels.Keys;
    OrderKeys(v.names, s.tunnels.Keys);
    assert head + TunnelsLines(s.tunnels, v.names, v.protocols) == lines + TunnelsSection(s, v);
  }

  method WriteOneTunnel(b: string, ghost head: seq<string>, tunnels: map<string, Tunnel>, n: string, ghost v: Visit)
    returns (r: string, ghost next: Visit)
    requires Covers(v.names, v.protocols, tunnels) && n in tunnels && n !in v.names
    requires b == Unlines(head + TunnelsLines(tunnels, v.names, v.protocols))
    ensures next.names == v.names + [n] && Covers(next.names, next.protocols, tunnels)
    ensures r == Unlines(head + TunnelsLines(tunnels, next.names, next.protocols))
  {
    hide Unlines, Orders, TunnelLines, TunnelsLines;
    ghost var before, order := TunnelsLines(tunnels, v.names, v.protocols), [];
    r, order := WriteTunnel(b, head + before, n, tunnels[n]);
    TunnelsLinesMore(tunnels, v.names, v.protocols, n, order);
    next := Visit(v.names + [n], v.protocols[n := order]);
    assert (head + before) + TunnelLines(n, tunnels[n], order) == head + (before + TunnelLines(n, tunnels[n], order));
  }

  lemma NotYet(order: seq<string>, k: string, todo: set<string>, keys: set<string>)
    requires Orders(order, keys - todo) && k in todo
    ensures k !in order
  {
    OrderKeys(order, keys - todo);
  }

  lemma {:induction false} TunnelsLinesMore(tunnels: map<string, Tunnel>, names: seq<string>, orders: map<string, seq<string>>, n: string, order: seq<string>)
    requires Covers(names, orders, tunnels) && n in tunnels && n !in names && Orders(order, tunnels[n].protocols.Keys)
    ensures Covers(names + [n], orders[n := order], tunnels)
    ensures TunnelsLines(tunnels, names + [n], orders[n := order])
         == TunnelsLines(tunnels, names, orders) + TunnelLines(n, tunnels[n], order)
    decreases |names|
  {
    hide TunnelLines, Orders;
    if names == [] {
      assert names + [n] == [n] && [n][1..] == [];
    } else {
      var first, next, more := names[0], orders[n := order], names[1..] + [n];
      assert (names + [n])[1..] == more && (names + [n])[0] == first != n;
      TunnelsLinesMore(tunnels, names[1..], orders, n, order);
      assert TunnelsLines(tunnels, names + [n], next) == TunnelLines(first, tunnels[first], next[first]) + TunnelsLines(tunnels, more, next);
    }
  }

  lemma SetOptionForgets(st: Parsing, name: string, key: string, value: string)
    ensures SetOption(st, name, key, value) == SetOption(Parsing(st.settings, st.inTunnels, Some(name), false), name, key, value)
  {
    hide ParseUint;
  }
}
