/** A request for tunnels on a control connection: NewTunnel of
    src/ngrok/server/tunnel.go and registerTunnel of src/ngrok/server/control.go. */
module Requests {
  import opened Options
  import opened Registry
  import opened Strings
  import opened Vhosts

  datatype Request = Request(reqId: string, protocol: string, hostname: string, subdomain: string, remotePort: nat)

  datatype Message = Success(url: string, protocol: string, reqId: string) | Failure(error: RegisterError)

  /** What follows the scheme; the first occurrence of the scheme is at the front. */
  function HostOf(protocol: string, url: string): string {
    if HasPrefix(url, Scheme(protocol)) then url[|Scheme(protocol)|..] else url
  }

  function Host(answer: Message): string {
    match answer
    case Success(url, protocol, _) => HostOf(protocol, url)
    case Failure(_) => ""
  }

  predicate ForWeb(answer: Message) {
    answer.Success? && Web(answer.protocol)
  }

  /** A web tunnel never follows one that is not; and every web tunnel after the
      first has for its host the normal form of the first one's. */
  predicate OneHost(answers: seq<Message>) {
    forall i, j :: 0 <= i < j < |answers| && ForWeb(answers[j]) ==>
      ForWeb(answers[i]) && Host(answers[j]) == Normal(Host(answers[i])) == Normal(Host(answers[j]))
  }

  lemma ColonStays(hostname: string)
    requires ':' in hostname
    ensures ':' in Normal(hostname) && !ValidHostname(Normal(hostname))
  {
    var k :| 0 <= k < |hostname| && hostname[k] == ':';
    assert hostname == hostname[..k] + (":" + hostname[k + 1..]);
    ColonTrim(hostname[..k], hostname[k + 1..]);
    LowerColon(TrimSpace(hostname));
    hide TrimSpace, ToLower, ValidHostname;
    if ValidHostname(Normal(hostname)) {
      ValidIsNormal(Normal(hostname));
    }
  }

  lemma LowerColon(s: string)
    requires ':' in s
    ensures ':' in ToLower(s)
  {
    var i :| 0 <= i < |s| && s[i] == ':';
    assert ToLower(s)[i] == ':';
  }

  lemma {:induction false} ColonTrim(a: string, b: string)
    ensures ':' in TrimSpace(a + (":" + b))
  {
    if a == [] {
      assert a + (":" + b) == ":" + b;
      TrimRightKeeps(White, ":", b);
      assert (":" + TrimRight(White, b))[0] == ':';
    } else if Cuts(White, a[0]) {
      assert (a + (":" + b))[1..] == a[1..] + (":" + b);
      ColonTrim(a[1..], b);
    } else {
      assert a + (":" + b) == a + ":" + b;
      TrimRightKeeps(White, a + ":", b);
      assert (a + ":" + TrimRight(White, b))[|a|] == ':';
    }
  }

  lemma OneHostMore(answers: seq<Message>, answer: Message)
    requires OneHost(answers)
    requires answers != [] && ForWeb(answer) ==>
               && ForWeb(answers[|answers| - 1])
               && Host(answer) == Normal(Host(answers[|answers| - 1])) == Normal(Host(answer))
    ensures OneHost(answers + [answer])
  {
    hide Normal, HostOf, ForWeb;
    var all, n := answers + [answer], |answers|;
    forall i, j | 0 <= i < j < |all| && ForWeb(all[j])
      ensures ForWeb(all[i]) && Host(all[j]) == Normal(Host(all[i])) == Normal(Host(all[j]))
    {
      if j == n && i < n - 1 {
        assert Host(all[n - 1]) == Normal(Host(all[i])) == Normal(Host(all[n - 1]));
      }
    }
  }

  predicate SharedHost(answers: seq<Message>) {
    forall i, j :: 0 <= i < j < |answers| && ForWeb(answers[i]) && ForWeb(answers[j]) ==> Host(answers[i]) == Host(answers[j])
  }

  /** When a request gets two web tunnels or more, they all have one host if and only
      if the request names a host or the first virtual host of its first protocol is
      in normal form. */
  lemma OneHostExactly(server: Server, answers: seq<Message>, added: seq<Tunnel>, protocols: seq<string>, req: Request, i: nat, j: nat)
    requires Answered(server, answers, added, protocols, req)
    requires i < j < |answers| && ForWeb(answers[i]) && ForWeb(answers[j])
    ensures SharedHost(answers) <==>
              || Normal(req.hostname) != ""
              || (var vhosts := PublicVhosts(server, protocols[0]); vhosts != [] && Normal(vhosts[0]) == vhosts[0])
  {
    hide Normal, PublicVhosts, HostOf, Affine, UnderFirst, Scheme, ValidHostname;
    assert ForWeb(answers[0]) && ForWeb(answers[1]);
    FirstHost(server, answers[0], protocols[0], req.hostname);
    var first := Host(answers[0]);
    assert Host(answers[1]) == Normal(first);
    if Normal(first) == first {
      assert forall k :: 0 < k < |answers| && ForWeb(answers[k]) ==> Host(answers[k]) == first;
    }
  }

  lemma FirstHost(server: Server, answer: Message, protocol: string, hostname: string)
    requires ForWeb(answer) && answer.protocol == protocol && Named(server, protocol, hostname, answer.url)
    ensures Normal(Host(answer)) == Host(answer) <==>
              || Normal(hostname) != ""
              || (var vhosts := PublicVhosts(server, protocol); vhosts != [] && Normal(vhosts[0]) == vhosts[0])
  {
    hide Normal, PublicVhosts, Scheme, ValidHostname, NamedUnder;
    if Normal(hostname) != "" {
      ValidIsNormal(Normal(hostname));
      AfterScheme(Scheme(protocol), Normal(hostname));
    } else {
      HostNormal(server, protocol, answer.url);
    }
  }

  // ----- Two hosts for one request -----

  /** A space before the default port of http stays when the port goes. */
  const SPACED := Server("a :80,a", [], map["http" := 80, "https" := 443], false)

  lemma SpacedItems(protocol: string)
    ensures Items(SPACED, protocol) == ["a :80", "a"]
  {
    hide Split;
    SplitMore("a :80", ',', "a");
    SplitOne("a", ',');
    assert "a :80,a" == "a :80" + [','] + "a";
  }

  lemma SpacedHosts()
    ensures PublicVhosts(SPACED, "http") == ["a ", "a"] && PublicVhosts(SPACED, "https") == ["a :80", "a"]
  {
    SpacedItems("http");
    SpacedItems("https");
    SpacedVhost();
    hide VhostOf, Items, Split;
    FirstsTwo("a :80", "a", "http");
    FirstsTwo("a :80", "a", "https");
  }

  lemma FirstsTwo(a: string, b: string, protocol: string)
    requires var v, w := VhostOf(a, protocol), VhostOf(b, protocol); v != "" && w != "" && v != w
    ensures Firsts([a, b], protocol) == [VhostOf(a, protocol), VhostOf(b, protocol)]
  {
    hide VhostOf;
    assert [a, b][..1] == [a] && [a][..0] == [];
    assert Firsts([a], protocol) == [VhostOf(a, protocol)];
  }

  /** Asked for by subdomain, or made up, the first tunnel gets the host "name.a "; the
      second protocol is then granted under "name.a". */
  lemma TwoHosts(name: string, subdomain: string)
    requires ValidHostnameLabel(name)
    ensures var first := NameUrl("http", name, "a ");
      && WishOf(SPACED, "http", "", name) == Exactly(first)
      && UnderFirst(SPACED, "http", first)
      && HostOf("http", first) == NameHost(name, "a ") != NameHost(name, "a")
      && WishOf(SPACED, "https", HostOf("http", first), subdomain) == Exactly(NameUrl("https", name, "a"))
  {
    assert IsName(name);
    assert "a " != "a";
    SpacedHosts();
    SecondHost(name);
    FirstWish(name);
    hide Normal, PublicVhosts, ValidHostname, ValidHostnameLabel, HostnameAllowed, UnderFirst, IsName, NameHost;
    NameUnder(SPACED, "http", name);
    AfterScheme(Scheme("http"), NameHost(name, "a "));
    SecondWish(name, subdomain);
  }

  lemma FirstWish(name: string)
    requires ValidHostnameLabel(name)
    ensures WishOf(SPACED, "http", "", name) == Exactly(NameUrl("http", name, "a "))
  {
    hide *;
    LabelNormal(name);
    SpacedHosts();
    BothWeb();
    assert ["a ", "a"] == ["a "] + ["a"];
    SubdomainWish(SPACED, "http", "", name, "a ", ["a"]);
  }

  lemma SubdomainWish(server: Server, protocol: string, hostname: string, name: string, vhost: string, more: seq<string>)
    requires Normal(hostname) == "" && Normal(name) == name != "" && ValidHostnameLabel(name)
    requires PublicVhosts(server, protocol) == [vhost] + more && DefaultPort(protocol) != 0
    ensures WishOf(server, protocol, hostname, name) == Exactly(NameUrl(protocol, name, vhost))
  {
    hide Normal, PublicVhosts, ValidHostnameLabel, NameUrl;
  }

  lemma SecondWish(name: string, subdomain: string)
    requires ValidHostnameLabel(name)
    ensures WishOf(SPACED, "https", NameHost(name, "a "), subdomain) == Exactly(NameUrl("https", name, "a"))
  {
    SpacedHosts();
    SecondHost(name);
    hide Normal, PublicVhosts, ValidHostnameLabel, HostnameAllowed, NameHost;
  }

  lemma LabelNormal(name: string)
    requires ValidHostnameLabel(name)
    ensures Normal("") == "" && Normal(name) == name != ""
  {
    LabelLower(name);
    hide *;
    LowerPlain("");
    NormalParts("");
    NormalParts(name);
    BlankTrimmed();
  }

  lemma BlankTrimmed()
    ensures Trimmed(White, "")
  {
  }

  lemma SecondHost(name: string)
    requires ValidHostnameLabel(name)
    ensures var host := NameHost(name, "a");
      && Normal(NameHost(name, "a ")) == host != NameHost(name, "a ")
      && ValidHostname(host) && HostnameAllowed(host, ["a :80", "a"])
  {
    var host := NameHost(name, "a");
    assert host + " " == NameHost(name, "a ");
    DottedValid(name);
    UnderA(name);
    OneSpace();
    hide ValidHostname, ValidHostnameLabel, HostnameAllowed, Normal, Trim, AllCut, NameHost;
    ValidIsNormal(host);
    TrimPad(White, host, " ");
    NormalTrims(host + " ", host);
  }

  lemma DottedValid(name: string)
    requires ValidHostnameLabel(name)
    ensures ValidHostname(NameHost(name, "a"))
  {
    assert '.' !in name;
    hide Split;
    SplitMore(name, '.', "a");
    SplitOne("a", '.');
    assert name + ['.'] + "a" == NameHost(name, "a");
  }

  lemma UnderA(name: string)
    ensures HostnameAllowed(NameHost(name, "a"), ["a :80", "a"])
  {
    assert LastIndexOf("a", ':') == 1;
    assert StripHostPort("a") == "a";
    hide StripHostPort;
    assert NameHost(name, "a")[|name|..] == "." + "a";
    assert Under(NameHost(name, "a"), StripHostPort(["a :80", "a"][1]));
  }

  lemma BothWeb()
    ensures Web("http") && Web("https") && DefaultPort("http") != 0
  {
  }

  lemma UrlIs(protocol: string, name: string, vhost: string)
    ensures NameUrl(protocol, name, vhost) == Scheme(protocol) + NameHost(name, vhost)
  {
  }

  lemma Schemes(a: string, b: string)
    ensures Scheme("http") + a != Scheme("https") + b
  {
    assert (Scheme("http") + a)[4] == ':' && (Scheme("https") + b)[4] == 's';
  }

  lemma SpacedVhost()
    ensures VhostOf("a :80", "http") == "a " && VhostOf("a", "http") == "a"
    ensures VhostOf("a :80", "https") == "a :80" && VhostOf("a", "https") == "a"
  {
    Spaced();
    hide Itoa, Normal;
    Ports();
    NormalOf("a :80");
    NormalOf("a");
    assert "a :80"[..2] == "a " && "a :80"[2..] == ":80" == ":" + "80";
    assert "a :80"[1..] == " :80" && ":" + "443" == ":443" && ":443"[0] != " :80"[0];
  }

  lemma NormalOf(s: string)
    ensures ToLower(TrimSpace(s)) == Normal(s)
  {
  }

  lemma Ports()
    ensures Itoa(80) == "80" && Itoa(443) == "443"
  {
    assert Itoa(8) == ['8'];
    assert Itoa(80) == Itoa(8) + ['0'];
    assert ['8'] + ['0'] == ['8', '0'] == "80";
    assert Itoa(4) == ['4'];
    assert Itoa(44) == Itoa(4) + ['4'];
    assert Itoa(443) == Itoa(44) + ['3'];
    assert ['4'] + ['4'] + ['3'] == ['4', '4', '3'] == "443";
  }

  lemma Spaced()
    ensures Normal("a :80") == "a :80" && Normal("a") == "a"
  {
    hide *;
    LowerPlain("a :80");
    LowerPlain("a");
    TrimmedPlain("a :80");
    TrimmedPlain("a");
    NormalParts("a :80");
    NormalParts("a");
  }

  lemma LowerPlain(s: string)
    requires forall i :: 0 <= i < |s| ==> s[i] < 'A' || 'a' <= s[i] <= 'z'
    ensures LowerOnly(s)
  {
  }

  lemma TrimmedPlain(s: string)
    requires s != [] && '!' <= s[0] <= '~' && '!' <= s[|s| - 1] <= '~'
    ensures Trimmed(White, s)
  {
  }

  lemma OneSpace()
    ensures AllCut(White, " ")
  {
  }

  lemma NormalTrims(s: string, t: string)
    requires Trim(White, s) == Trim(White, t)
    ensures Normal(s) == Normal(t)
  {
  }

  // ----- The operations -----

  /** What a registered tunnel is: it owns its one URL, which the server may publish. */
  ghost predicate Registered(server: Server, t: Tunnel, protocol: string)
    reads t
  {
    && t.protocol == protocol && t.urls == [t.url] && Affine(server, protocol, t.url)
    && (Web(protocol) || (protocol == "tcp" && ':' in HostOf(protocol, t.url)))
  }

  /** Each success answers its protocol with the URL of its tunnel, and the web
      tunnels have one host. */
  ghost predicate Answered(server: Server, answers: seq<Message>, added: seq<Tunnel>, protocols: seq<string>, req: Request)
    reads added
  {
    && |answers| == |added| <= |protocols|
    && OneHost(answers)
    && (answers != [] ==> Named(server, protocols[0], req.hostname, added[0].url))
    && forall i :: 0 <= i < |answers| ==>
         answers[i] == Success(added[i].url, protocols[i], req.reqId) && Registered(server, added[i], protocols[i])
  }

  /** What becomes of a request for one tunnel. */
  ghost predicate Outcome(server: Server, protocol: string, hostname: string, subdomain: string, remotePort: nat,
                          err: Option<RegisterError>, url: string, was: map<string, Tunnel>, busy: bool)
  {
    if Web(protocol) then
      if protocol !in server.ports then err == Some(NotListening)
      else Fulfils(server, protocol, WishOf(server, protocol, hostname, subdomain), err, url, was, busy)
    else if protocol == "tcp" then
      && (err == Some(PortsDisabled) <==> remotePort != 0 && !server.allowRemotePorts)
      && (err == None || err.value in {PortsDisabled, BindFailed, AlreadyRegistered, Crashed})
    else err == Some(NotSupported)
  }

  /** The registry once the answered tunnels are added. */
  ghost function AddAll(m: map<string, Tunnel>, answers: seq<Message>, added: seq<Tunnel>): map<string, Tunnel>
    requires |answers| == |added| && forall i :: 0 <= i < |answers| ==> answers[i].Success?
  {
    if answers == [] then m
    else
      var n := |answers| - 1;
      AddAll(m, answers[..n], added[..n])[answers[n].url := added[n]]
  }

  ghost predicate Successes(answers: seq<Message>) {
    forall i :: 0 <= i < |answers| ==> answers[i].Success?
  }

  /** Protocol i is asked for under the answer before's host, with the registry as the
      answers before left it. */
  ghost predicate Link(server: Server, req: Request, protocols: seq<string>, m: map<string, Tunnel>, answers: seq<Message>, added: seq<Tunnel>, i: nat)
    requires i < |answers| == |added| <= |protocols| && Successes(answers)
  {
    Outcome(server, protocols[i], LastHost(answers[..i], req.hostname), req.subdomain, req.remotePort, None, answers[i].url,
            AddAll(m, answers[..i], added[..i]), false)
  }

  /** Each protocol in turn. */
  ghost predicate Chain(server: Server, req: Request, protocols: seq<string>, m: map<string, Tunnel>, answers: seq<Message>, added: seq<Tunnel>) {
    && |answers| == |added| <= |protocols| && Successes(answers)
    && forall i :: 0 <= i < |answers| ==> Link(server, req, protocols, m, answers, added, i)
  }

  lemma ChainMore(server: Server, req: Request, protocols: seq<string>, m: map<string, Tunnel>, answers: seq<Message>, added: seq<Tunnel>,
                  answer: Message, t: Tunnel)
    requires Chain(server, req, protocols, m, answers, added) && |answers| < |protocols| && answer.Success?
    requires Outcome(server, protocols[|answers|], LastHost(answers, req.hostname), req.subdomain, req.remotePort, None, answer.url,
                     AddAll(m, answers, added), false)
    ensures Chain(server, req, protocols, m, answers + [answer], added + [t])
    ensures AddAll(m, answers + [answer], added + [t]) == AddAll(m, answers, added)[answer.url := t]
  {
    var all, ts, n := answers + [answer], added + [t], |answers|;
    assert all[..n] == answers && ts[..n] == added;
    hide Outcome, LastHost;
    forall i | 0 <= i < |all| ensures Link(server, req, protocols, m, all, ts, i) {
      if i < n {
        LinkStays(server, req, protocols, m, answers, added, answer, t, i);
      } else {
        hide AddAll;
      }
    }
    hide Link;
  }

  lemma LinkStays(server: Server, req: Request, protocols: seq<string>, m: map<string, Tunnel>, answers: seq<Message>, added: seq<Tunnel>,
                  answer: Message, t: Tunnel, i: nat)
    requires i < |answers| == |added| < |protocols| && Successes(answers) && answer.Success?
    requires Link(server, req, protocols, m, answers, added, i)
    ensures Link(server, req, protocols, m, answers + [answer], added + [t], i)
  {
    hide Outcome, LastHost, AddAll;
    assert (answers + [answer])[..i] == answers[..i] && (added + [t])[..i] == added[..i];
  }

  lemma NoChain(server: Server, req: Request, protocols: seq<string>, m: map<string, Tunnel>)
    ensures Chain(server, req, protocols, m, [], []) && AddAll(m, [], []) == m
  {
  }

  /** Where the next protocol is asked for. */
  function LastHost(answers: seq<Message>, hostname: string): string {
    if answers == [] then hostname else Host(answers[|answers| - 1])
  }

  /** The answer to a failure; the manager recovers from a panic without one. */
  function Reported(error: RegisterError): seq<Message> {
    if error == Crashed then [] else [Failure(error)]
  }

  class Control {
    const registry: TunnelRegistry
    const clientIp: string
    const clientId: string
    var tunnels: seq<Tunnel>
    var out: seq<Message>
    var shutdown: bool

    ghost predicate Valid()
      reads registry, registry.affinity, registry.affinity.list
    {
      registry.Valid()
    }

    constructor (registry: TunnelRegistry, clientIp: string, clientId: string)
      requires registry.Valid()
      ensures Valid() && this.registry == registry && tunnels == [] && out == [] && !shutdown
    {
      this.registry, this.clientIp, this.clientId := registry, clientIp, clientId;
      tunnels, out, shutdown := [], [], false;
    }

    /** Binds a port, any one for 0, and registers its URL. Without a domain to name in
        the URL, indexing the first one panics. */
    method BindTcp(t: Tunnel, port: nat, busy: bool) returns (err: Option<RegisterError>, ghost was: map<string, Tunnel>)
      requires Valid() && t.protocol == "tcp" && t.urls == []
      modifies registry`tunnels, registry.affinity, registry.affinity.Entries(), t
      ensures Valid() && (!busy ==> was == old(registry.tunnels))
      ensures err == None ==> Registered(registry.server, t, "tcp") && t.url !in was && registry.tunnels == was[t.url := t]
      ensures err != None ==> t.urls == [] && registry.tunnels == was
      ensures err == Some(Crashed) ==> registry.server.domains == []
      ensures registry.server.domains == [] ==> err == Some(BindFailed) || err == Some(Crashed)
      ensures err == None || err.value in {BindFailed, AlreadyRegistered, Crashed}
      ensures fresh(registry.affinity.Entries() - old(registry.affinity.Entries()))
    {
      hide Affine, UnderFirst, Published, Registry.Sound, HostOf, TcpUrl, Registered;
      was := registry.tunnels;
      var listens: bool, free: nat := *, *;
      if !listens {
        return Some(BindFailed), was;
      }
      if |registry.server.domains| == 0 {
        return Some(Crashed), was;
      }
      var bound := (if port == 0 then free else port) % 0x1_0000;
      var url := TcpUrl(registry.server.domains[0], bound);
      TcpAffine(registry.server, bound);
      err, was := RegisterBound(t, url, busy);
    }

    method RegisterBound(t: Tunnel, url: string, busy: bool) returns (err: Option<RegisterError>, ghost was: map<string, Tunnel>)
      requires Valid() && t.protocol == "tcp" && t.urls == []
      requires UnderFirst(registry.server, "tcp", url) && Affine(registry.server, "tcp", url) && ':' in HostOf("tcp", url)
      modifies registry`tunnels, registry.affinity, registry.affinity.Entries(), t
      ensures Valid() && (!busy ==> was == old(registry.tunnels))
      ensures err == None ==> Registered(registry.server, t, "tcp") && t.url !in was && registry.tunnels == was[t.url := t]
      ensures err != None ==> t.urls == [] && registry.tunnels == was
      ensures err == None || err == Some(AlreadyRegistered)
      ensures fresh(registry.affinity.Entries() - old(registry.affinity.Entries()))
    {
      hide Affine, UnderFirst, Published, Registry.Sound, HostOf;
      t.url := url;
      err, was := registry.Attempt(t, url, busy);
      if err == None {
        t.urls := t.urls + [url];
      }
    }

    method NewTcpTunnel(t: Tunnel, remotePort: nat, busy: bool) returns (err: Option<RegisterError>, ghost was: map<string, Tunnel>)
      requires Valid() && t.protocol == "tcp" && t.urls == []
      modifies registry`tunnels, registry.affinity, registry.affinity.Entries(), t
      ensures Valid() && (!busy ==> was == old(registry.tunnels))
      ensures err == None ==> Registered(registry.server, t, "tcp") && t.url !in was && registry.tunnels == was[t.url := t]
      ensures err != None ==> registry.tunnels == was
      ensures err == Some(PortsDisabled) <==> remotePort != 0 && !registry.server.allowRemotePorts
      ensures err == None || err.value in {PortsDisabled, BindFailed, AlreadyRegistered, Crashed}
      ensures err == Some(Crashed) ==> registry.server.domains == []
      ensures registry.server.domains == [] ==> err == Some(BindFailed) || err == Some(Crashed) || err == Some(PortsDisabled)
      ensures fresh(registry.affinity.Entries() - old(registry.affinity.Entries()))
    {
      hide Affine, UnderFirst, Published, Registry.Sound, Registered, Registry.Cached;
      if remotePort != 0 {
        if !registry.server.allowRemotePorts {
          return Some(PortsDisabled), registry.tunnels;
        }
        err, was := BindTcp(t, remotePort, busy);
        return;
      }
      err, was := BindCached(t, busy);
      if err != None && err != Some(Crashed) {
        err, was := BindTcp(t, 0, busy);
      }
    }

    /** The port that the client had before, if the cache knows one. */
    method BindCached(t: Tunnel, busy: bool) returns (err: Option<RegisterError>, ghost was: map<string, Tunnel>)
      requires Valid() && t.protocol == "tcp" && t.urls == []
      modifies registry`tunnels, registry.affinity, registry.affinity.Entries(), t
      ensures Valid() && (!busy ==> was == old(registry.tunnels))
      ensures err == None ==> Registered(registry.server, t, "tcp") && t.url !in was && registry.tunnels == was[t.url := t]
      ensures err != None ==> t.urls == [] && registry.tunnels == was
      ensures err == Some(Crashed) ==> registry.server.domains == []
      ensures registry.server.domains == [] ==> err == Some(BindFailed) || err == Some(Crashed)
      ensures err == None || err.value in {BindFailed, AlreadyRegistered, Crashed}
      ensures fresh(registry.affinity.Entries() - old(registry.affinity.Entries()))
    {
      hide Affine, UnderFirst, Published, Registry.Sound, Registered, Registry.Cached;
      err, was := Some(BindFailed), registry.tunnels;
      var cachedUrl := registry.GetCachedRegistration(t);
      if cachedUrl != "" {
        var parts := Split(cachedUrl, ':');
        var port := ParseUint(parts[|parts| - 1], 0x8000_0000_0000_0000);
        if port.Some? {
          err, was := BindTcp(t, port.value, busy);
        }
      }
    }

    method NewWebTunnel(t: Tunnel, busy: bool) returns (err: Option<RegisterError>, ghost was: map<string, Tunnel>)
      requires Valid() && Web(t.protocol) && t.urls == [] && t.url == ""
      modifies registry`tunnels, registry.affinity, registry.affinity.Entries(), t
      ensures Valid() && (!busy ==> was == old(registry.tunnels))
      ensures err == None ==> Registered(registry.server, t, t.protocol) && t.url !in was && registry.tunnels == was[t.url := t]
      ensures err != None ==> registry.tunnels == was
      ensures err == None ==> Named(registry.server, t.protocol, t.hostname, t.url)
      ensures err != Some(Crashed)
      ensures if t.protocol !in registry.server.ports then err == Some(NotListening)
              else Fulfils(registry.server, t.protocol, WishOf(registry.server, t.protocol, t.hostname, t.subdomain), err, t.url, was, busy)
      ensures fresh(registry.affinity.Entries() - old(registry.affinity.Entries()))
    {
      hide Affine, UnderFirst, Published, Registry.Sound, Normal, ValidHostname, WishOf, Scheme, HostOf;
      WishNamed(registry.server, t.protocol, t.hostname, t.subdomain);
      if t.protocol !in registry.server.ports {
        return Some(NotListening), registry.tunnels;
      }
      err, was := registry.RegisterVhost(t, busy);
    }

    /** A failed NewTunnel leaves the registry as it was; a successful one adds one
        URL that was free. Which it is, and what the URL, follows from the request and
        what is registered. */
    method NewTunnel(protocol: string, hostname: string, subdomain: string, remotePort: nat, busy: bool)
      returns (t: Tunnel, err: Option<RegisterError>, ghost was: map<string, Tunnel>)
      requires Valid()
      modifies registry`tunnels, registry.affinity, registry.affinity.Entries()
      ensures Valid() && fresh(t) && (!busy ==> was == old(registry.tunnels))
      ensures err == None ==> Registered(registry.server, t, protocol) && t.url !in was && registry.tunnels == was[t.url := t]
      ensures err != None ==> registry.tunnels == was
      ensures err == None ==> Named(registry.server, protocol, hostname, t.url)
      ensures err == Some(Crashed) ==> protocol == "tcp" && registry.server.domains == []
      ensures protocol == "tcp" && registry.server.domains == [] ==> err != None
      ensures Outcome(registry.server, protocol, hostname, subdomain, remotePort, err, t.url, was, busy)
      ensures fresh(registry.affinity.Entries() - old(registry.affinity.Entries()))
    {
      assert !Web("tcp");
      hide Affine, UnderFirst, Published, Registry.Sound, Normal, ValidHostname, Scheme, Registered, Web;
      t := new Tunnel(protocol, hostname, subdomain, clientIp, clientId);
      was := registry.tunnels;
      if protocol == "tcp" {
        err, was := NewTcpTunnel(t, remotePort, busy);
      } else if Web(protocol) {
        err, was := NewWebTunnel(t, busy);
      } else {
        err := Some(NotSupported);
      }
    }

    /** registerTunnel: k protocols are answered by k successes, or by j < k of them
        and then one error; the tunnels grow by the successes; a first failure with
        no tunnel at all begins the shutdown, and so does a panic, which answers nothing. */
    method RegisterTunnel(req: Request, busy: bool)
      returns (ghost answers: seq<Message>, ghost added: seq<Tunnel>, err: Option<RegisterError>)
      requires Valid()
      modifies this, registry`tunnels, registry.affinity, registry.affinity.Entries()
      ensures Valid() && tunnels == old(tunnels) + added
      ensures fresh(added) && Answered(registry.server, answers, added, Split(req.protocol, '+'), req)
      ensures if err == None
        then |answers| == |Split(req.protocol, '+')| && out == old(out) + answers
        else |answers| < |Split(req.protocol, '+')| && out == old(out) + answers + Reported(err.value)
      ensures shutdown == (old(shutdown) || (err != None && (tunnels == [] || err == Some(Crashed))))
      ensures err == Some(Crashed) ==> registry.server.domains == []
      ensures |answers| == |added| && Successes(answers)
      ensures !busy ==> var protocols := Split(req.protocol, '+');
        && Chain(registry.server, req, protocols, old(registry.tunnels), answers, added)
        && registry.tunnels == AddAll(old(registry.tunnels), answers, added)
        && (err != None ==> Outcome(registry.server, protocols[|answers|], LastHost(answers, req.hostname), req.subdomain, req.remotePort,
                                    err, "", AddAll(old(registry.tunnels), answers, added), false))
    {
      hide Split, Affine, UnderFirst, Published, Registry.Sound, Answered, LastHost, Normal, Named, Registered, HostOf, Valid;
      hide Outcome, Chain, AddAll;
      ghost var m := registry.tunnels;
      NoChain(registry.server, req, Split(req.protocol, '+'), m);
      var protocols, hostname := Split(req.protocol, '+'), req.hostname;
      answers, added, err := [], [], None;
      NoAnswers(registry.server, protocols, req);
      for n := 0 to |protocols|
        invariant Valid() && tunnels == old(tunnels) + added && |answers| == n && err == None
        invariant out == old(out) + answers && shutdown == old(shutdown)
        invariant fresh(added) && Answered(registry.server, answers, added, protocols, req)
        invariant hostname == LastHost(answers, req.hostname)
        invariant |answers| == |added| && Successes(answers)
        invariant !busy ==> Chain(registry.server, req, protocols, m, answers, added) && registry.tunnels == AddAll(m, answers, added)
        invariant fresh(registry.affinity.Entries() - old(registry.affinity.Entries()))
      {
        var t;
        answers, added, hostname, t, err := RegisterNext(req, protocols, n, hostname, busy, answers, added, m);
        if err != None {
          return;
        }
      }
    }

    /** The body of the loop, for the protocol after the answered ones. */
    method RegisterNext(req: Request, protocols: seq<string>, n: nat, hostname: string, busy: bool, ghost answers: seq<Message>, ghost added: seq<Tunnel>, ghost m: map<string, Tunnel>)
      returns (ghost answers': seq<Message>, ghost added': seq<Tunnel>, hostname': string, t: Tunnel, err: Option<RegisterError>)
      requires Valid() && |answers| == |added| == n < |protocols| && Answered(registry.server, answers, added, protocols, req) && Successes(answers)
      requires hostname == LastHost(answers, req.hostname)
      requires !busy ==> Chain(registry.server, req, protocols, m, answers, added) && registry.tunnels == AddAll(m, answers, added)
      modifies this`tunnels, this`out, this`shutdown, registry`tunnels, registry.affinity, registry.affinity.Entries()
      ensures Valid() && Answered(registry.server, answers', added', protocols, req)
      ensures err == None ==> fresh(t) && added' == added + [t] && tunnels == old(tunnels) + [t]
      ensures err == None ==> out == old(out) + [Success(t.url, protocols[n], req.reqId)]
      ensures err == None ==> answers' == answers + [Success(t.url, protocols[n], req.reqId)]
      ensures err == None ==> hostname' == LastHost(answers', req.hostname)
      ensures err != None ==> answers' == answers && added' == added && tunnels == old(tunnels) && out == old(out) + Reported(err.value)
      ensures shutdown == (old(shutdown) || (err != None && (tunnels == [] || err == Some(Crashed))))
      ensures err == Some(Crashed) ==> registry.server.domains == []
      ensures |answers'| == |added'| && Successes(answers')
      ensures !busy ==> Chain(registry.server, req, protocols, m, answers', added') && registry.tunnels == AddAll(m, answers', added')
      ensures !busy && err != None ==>
        Outcome(registry.server, protocols[n], LastHost(answers, req.hostname), req.subdomain, req.remotePort, err, "", AddAll(m, answers, added), false)
      ensures fresh(registry.affinity.Entries() - old(registry.affinity.Entries()))
    {
      hide Split, Affine, UnderFirst, Published, Registry.Sound, Answered, LastHost, Normal, Named, Registered, HostOf, Valid;
      ghost var was;
      t, err, was := RegisterOne(req, protocols[n], hostname, busy);
      answers', added', hostname' := answers, added, hostname;
      if err != None {
        OutcomeFails(registry.server, protocols[n], hostname, req.subdomain, req.remotePort, err, t.url, was, busy);
      } else {
        if !busy {
          ChainMore(registry.server, req, protocols, m, answers, added, Success(t.url, protocols[n], req.reqId), t);
        }
        AnsweredMore(registry.server, answers, added, protocols, req, t);
        answers', added' := answers + [Success(t.url, protocols[n], req.reqId)], added + [t];
        hostname' := HostOf(protocols[n], t.url);
      }
    }

    /** One protocol of the request: its answer, and what follows from a failure. */
    method RegisterOne(req: Request, protocol: string, hostname: string, busy: bool)
      returns (t: Tunnel, err: Option<RegisterError>, ghost was: map<string, Tunnel>)
      requires Valid()
      modifies this`tunnels, this`out, this`shutdown, registry`tunnels, registry.affinity, registry.affinity.Entries()
      ensures Valid() && fresh(t)
      ensures tunnels == if err == None then old(tunnels) + [t] else old(tunnels)
      ensures out == old(out) + (if err == None then [Success(t.url, protocol, req.reqId)] else Reported(err.value))
      ensures shutdown == (old(shutdown) || (err != None && (tunnels == [] || err == Some(Crashed))))
      ensures err == Some(Crashed) ==> protocol == "tcp" && registry.server.domains == []
      ensures err == None ==> Registered(registry.server, t, protocol)
      ensures err == None ==> Named(registry.server, protocol, hostname, t.url)
      ensures Outcome(registry.server, protocol, hostname, req.subdomain, req.remotePort, err, t.url, was, busy)
      ensures registry.tunnels == (if err == None then was[t.url := t] else was) && (!busy ==> was == old(registry.tunnels))
      ensures fresh(registry.affinity.Entries() - old(registry.affinity.Entries()))
    {
      hide Split, Affine, UnderFirst, Published, Registry.Sound, Answered, LastHost, Normal, Named, Registered, HostOf, Valid;
      t, err, was := NewTunnel(protocol, hostname, req.subdomain, req.remotePort, busy);
      if err == Some(Crashed) {
        shutdown := true;
        return;
      }
      if err != None {
        out := out + [Failure(err.value)];
        if |tunnels| == 0 {
          shutdown := true;
        }
        return;
      }
      tunnels := tunnels + [t];
      out := out + [Success(t.url, protocol, req.reqId)];
    }
  }

  /** A web request that names a host got exactly that host, in normal form; one that
      does not got a name under the first virtual host. */
  predicate Named(server: Server, protocol: string, hostname: string, url: string) {
    Web(protocol) ==>
      if Normal(hostname) != "" then url == Scheme(protocol) + Normal(hostname) && ValidHostname(Normal(hostname))
      else UnderFirst(server, protocol, url)
  }

  /** Of a failure the URL says nothing. */
  lemma OutcomeFails(server: Server, protocol: string, hostname: string, subdomain: string, remotePort: nat,
                     err: Option<RegisterError>, url: string, was: map<string, Tunnel>, busy: bool)
    requires Outcome(server, protocol, hostname, subdomain, remotePort, err, url, was, busy) && err != None
    ensures Outcome(server, protocol, hostname, subdomain, remotePort, err, "", was, busy)
  {
    hide WishOf, SomeTaken;
  }

  lemma NoAnswers(server: Server, protocols: seq<string>, req: Request)
    ensures Answered(server, [], [], protocols, req) && LastHost([], req.hostname) == req.hostname
  {
  }

  lemma AnsweredMore(server: Server, answers: seq<Message>, added: seq<Tunnel>, protocols: seq<string>, req: Request, t: Tunnel)
    requires Answered(server, answers, added, protocols, req) && |answers| < |protocols|
    requires Registered(server, t, protocols[|answers|])
    requires Named(server, protocols[|answers|], LastHost(answers, req.hostname), t.url)
    ensures var answer := Success(t.url, protocols[|answers|], req.reqId);
      && Answered(server, answers + [answer], added + [t], protocols, req)
      && LastHost(answers + [answer], req.hostname) == HostOf(protocols[|answers|], t.url)
  {
    hide Registered, Named, OneHost, HostOf, Normal, ForWeb;
    var n := |answers|;
    var answer := Success(t.url, protocols[n], req.reqId);
    if n > 0 {
      assert answers[n - 1] == Success(added[n - 1].url, protocols[n - 1], req.reqId);
      NextHost(server, added[n - 1], answers[n - 1], t, answer);
    }
    OneHostMore(answers, answer);
  }

  /** The next success of the same request, asked for under the last one's host. */
  lemma NextHost(server: Server, last: Tunnel, lastAnswer: Message, t: Tunnel, answer: Message)
    requires lastAnswer.Success? && answer.Success? && lastAnswer.url == last.url && answer.url == t.url
    requires Registered(server, last, lastAnswer.protocol) && Registered(server, t, answer.protocol)
    requires Named(server, answer.protocol, Host(lastAnswer), answer.url)
    ensures ForWeb(answer) ==> ForWeb(lastAnswer) && Host(answer) == Normal(Host(lastAnswer)) == Normal(Host(answer))
  {
    hide Normal, ValidHostname, HostOk, UnderFirst, PublicVhosts;
    var hostname := Host(lastAnswer);
    if ForWeb(answer) {
      if ForWeb(lastAnswer) {
        assert Normal(hostname) != "";
        ValidIsNormal(Normal(hostname));
        assert Host(answer) == Normal(hostname);
      } else {
        ColonStays(hostname);
        assert false;
      }
    }
  }

  /** A request that names a host gets that host or nothing. */
  lemma WishNamed(server: Server, protocol: string, hostname: string, subdomain: string)
    ensures WishOf(server, protocol, hostname, subdomain) != Refuse(Crashed)
    ensures Normal(hostname) != "" ==>
            match WishOf(server, protocol, hostname, subdomain)
            case Refuse(_) => true
            case Exactly(url) => url == Scheme(protocol) + Normal(hostname) && ValidHostname(Normal(hostname))
            case AnyUrl => false
  {
    hide Normal, ValidHostname, Scheme, PublicVhosts, HostnameAllowed, DefaultPort;
  }

  function TcpUrl(domain: string, port: nat): string {
    "tcp://" + domain + ":" + Itoa(port)
  }

  lemma TcpAffine(server: Server, port: nat)
    requires server.domains != []
    ensures var url := TcpUrl(server.domains[0], port);
      UnderFirst(server, "tcp", url) && Affine(server, "tcp", url) && ':' in HostOf("tcp", url)
  {
    var url := TcpUrl(server.domains[0], port);
    assert Scheme("tcp") == "tcp://";
    assert url == Scheme("tcp") + (server.domains[0] + ":" + Itoa(port));
    assert url[6..][|server.domains[0]|] == ':';
  }

  // ----- A run in which one request gets two hosts -----

  lemma ExactOutcome(server: Server, protocol: string, hostname: string, subdomain: string, remotePort: nat,
                     err: Option<RegisterError>, url: string, was: map<string, Tunnel>, wanted: string)
    requires Web(protocol) && protocol in server.ports && WishOf(server, protocol, hostname, subdomain) == Exactly(wanted)
    requires wanted !in was && Outcome(server, protocol, hostname, subdomain, remotePort, err, url, was, false)
    ensures err == None && url == wanted
  {
    hide WishOf;
  }

  /** A request for two protocols, whose wishes name two free URLs, gets both. */
  lemma BothGranted(server: Server, req: Request, protocols: seq<string>, first: string, second: string,
                    answers: seq<Message>, added: seq<Tunnel>, err: Option<RegisterError>)
    requires |protocols| == 2 && forall p :: p in protocols ==> Web(p) && p in server.ports
    requires WishOf(server, protocols[0], req.hostname, req.subdomain) == Exactly(first)
    requires WishOf(server, protocols[1], HostOf(protocols[0], first), req.subdomain) == Exactly(second) && first != second
    requires Chain(server, req, protocols, map[], answers, added)
    requires forall i :: 0 <= i < |answers| ==> answers[i].protocol == protocols[i]
    requires if err == None then |answers| == 2
             else |answers| < 2 && Outcome(server, protocols[|answers|], LastHost(answers, req.hostname), req.subdomain, req.remotePort,
                                           err, "", AddAll(map[], answers, added), false)
    ensures err == None && |answers| == 2 && answers[0].url == first && answers[1].url == second
  {
    hide WishOf, Outcome, HostOf, Web, AddAll;
    assert answers[..0] == [] && added[..0] == [] && AddAll(map[], [], []) == map[] by { NoChain(server, req, protocols, map[]); }
    if answers == [] {
      ExactOutcome(server, protocols[0], req.hostname, req.subdomain, req.remotePort, err, "", map[], first);
    } else {
      assert Link(server, req, protocols, map[], answers, added, 0);
      ExactOutcome(server, protocols[0], req.hostname, req.subdomain, req.remotePort, None, answers[0].url, map[], first);
      assert answers[..1] == [answers[0]] && added[..1] == [added[0]];
      OneAdded(answers[0], added[0]);
      if |answers| == 1 {
        assert answers == [answers[0]] && added == [added[0]];
        ExactOutcome(server, protocols[1], HostOf(protocols[0], first), req.subdomain, req.remotePort, err, "", map[first := added[0]], second);
      } else {
        assert Link(server, req, protocols, map[], answers, added, 1);
        ExactOutcome(server, protocols[1], HostOf(protocols[0], first), req.subdomain, req.remotePort, None, answers[1].url,
                     map[first := added[0]], second);
      }
    }
  }

  lemma OneAdded(answer: Message, t: Tunnel)
    requires answer.Success?
    ensures AddAll(map[], [answer], [t]) == map[answer.url := t]
  {
    assert [answer][..0] == [] && [t][..0] == [];
  }

  lemma HttpAndHttps() returns (protocols: seq<string>)
    ensures protocols == Split("http+https", '+') == ["http", "https"]
    ensures forall p :: p in protocols ==> Web(p) && p in SPACED.ports
  {
    protocols := ["http", "https"];
    hide Split;
    SplitMore("http", '+', "https");
    SplitOne("https", '+');
    assert "http" + ['+'] + "https" == "http+https";
  }

  /** A fresh server with these virtual hosts answers one request, for any subdomain,
      with two hosts. */
  method SpacedRun(name: string, reqId: string) returns (c: Control)
    requires ValidHostnameLabel(name)
    ensures c.out == [Success(NameUrl("http", name, "a "), "http", reqId), Success(NameUrl("https", name, "a"), "https", reqId)]
    ensures HostOf("http", NameUrl("http", name, "a ")) != HostOf("https", NameUrl("https", name, "a"))
  {
    hide *;
    ghost var protocols := HttpAndHttps();
    TwoHosts(name, name);
    Schemes(NameHost(name, "a "), NameHost(name, "a"));
    HostIs("https", NameHost(name, "a"));
    UrlIs("http", name, "a ");
    UrlIs("https", name, "a");
    var registry := new TunnelRegistry(SPACED);
    c := new Control(registry, "", "");
    var req := Request(reqId, "http+https", "", name, 0);
    var err;
    ghost var answers, added;
    answers, added, err := c.RegisterTunnel(req, false);
    AnsweredFor(SPACED, answers, added, protocols, req);
    BothGranted(SPACED, req, protocols, NameUrl("http", name, "a "), NameUrl("https", name, "a"), answers, added, err);
    assert answers == [answers[0], answers[1]];
  }

  lemma HostIs(protocol: string, host: string)
    ensures HostOf(protocol, Scheme(protocol) + host) == host
  {
    AfterScheme(Scheme(protocol), host);
    hide Scheme;
  }

  lemma AnsweredFor(server: Server, answers: seq<Message>, added: seq<Tunnel>, protocols: seq<string>, req: Request)
    requires Answered(server, answers, added, protocols, req)
    ensures |answers| <= |protocols|
    ensures forall i :: 0 <= i < |answers| ==> answers[i].Success? && answers[i].protocol == protocols[i] && answers[i].reqId == req.reqId
  {
  }
}
