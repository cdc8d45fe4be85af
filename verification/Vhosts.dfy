/** The names a server may publish: the virtual hosts of src/ngrok/server/tunnel.go,
    and the rules for hostnames and subdomains that clients ask for. */
module Vhosts {
  import opened Options
  import opened Strings

  /** What does not change while a server runs: the VHOST variable, the configured
      domains, the ports it serves protocols on, and whether clients may choose ports. */
  datatype Server = Server(vhost: string, domains: seq<string>, ports: map<string, nat>, allowRemotePorts: bool)

  function DefaultPort(protocol: string): nat {
    if protocol == "http" then 80 else if protocol == "https" then 443 else if protocol == "smtp" then 25 else 0
  }

  /** One item of the list: lower case, trimmed, less the default port. */
  function VhostOf(item: string, protocol: string): string {
    var vhost, suffix := ToLower(TrimSpace(item)), ":" + Itoa(DefaultPort(protocol));
    if HasSuffix(vhost, suffix) then vhost[..|vhost| - |suffix|] else vhost
  }

  function DomainList(domains: seq<string>, port: nat): string {
    if domains == [] then ""
    else domains[0] + ":" + Itoa(port) + (if |domains| == 1 then "" else "," + DomainList(domains[1..], port))
  }

  /** The items a server lists for a protocol. */
  function Items(server: Server, protocol: string): seq<string> {
    var port := if protocol in server.ports then server.ports[protocol] else 0;
    Split(if server.vhost == "" then DomainList(server.domains, port) else server.vhost, ',')
  }

  /** The nonempty virtual hosts of a list of items, each where it first occurs. */
  function Firsts(items: seq<string>, protocol: string): seq<string> {
    if items == [] then []
    else
      var before, v := Firsts(items[..|items| - 1], protocol), VhostOf(items[|items| - 1], protocol);
      if v == "" || v in before then before else before + [v]
  }

  function PublicVhosts(server: Server, protocol: string): seq<string> {
    Firsts(Items(server, protocol), protocol)
  }

  /** No virtual host is listed twice, and exactly the nonempty ones are listed. */
  lemma {:induction false} FirstsExact(items: seq<string>, protocol: string, v: string)
    ensures v in Firsts(items, protocol) <==> v != "" && exists i :: 0 <= i < |items| && v == VhostOf(items[i], protocol)
    ensures multiset(Firsts(items, protocol))[v] <= 1
  {
    hide VhostOf;
    if items != [] {
      FirstsExact(items[..|items| - 1], protocol, v);
      assert items == items[..|items| - 1] + [items[|items| - 1]];
    }
  }

  method ComputePublicVhosts(server: Server, protocol: string) returns (result: seq<string>)
    ensures result == PublicVhosts(server, protocol)
  {
    hide VhostOf;
    var items := Items(server, protocol);
    var seen: set<string> := {};
    result := [];
    for n := 0 to |items|
      invariant result == Firsts(items[..n], protocol)
      invariant forall v :: v in seen <==> v in result
    {
      assert items[..n + 1][..n] == items[..n];
      var vhost := VhostOf(items[n], protocol);
      if vhost == "" || vhost in seen {
        continue;
      }
      seen := seen + {vhost};
      result := result + [vhost];
    }
    assert items[..|items|] == items;
  }

  // ----- Hostnames -----

  predicate LabelChar(c: char) {
    'a' <= c <= 'z' || Digit(c) || c == '-'
  }

  predicate ValidHostnameLabel(name: string) {
    && 0 < |name| <= 63
    && name[0] != '-' && name[|name| - 1] != '-'
    && forall i :: 0 <= i < |name| ==> LabelChar(name[i])
  }

  predicate ValidHostname(hostname: string) {
    && 0 < |hostname| <= 253
    && forall i :: 0 <= i < |Split(hostname, '.')| ==> ValidHostnameLabel(Split(hostname, '.')[i])
  }

  /** The host part of a host with a port, as net.SplitHostPort finds it. */
  function SplitHostPort(hostport: string): Option<string> {
    var i := LastIndexOf(hostport, ':');
    if i == |hostport| then None
    else if hostport[0] == '[' then
      var end := IndexOf(hostport, ']');
      if end == |hostport| || end + 1 != i then None
      else if '[' in hostport[1..] || ']' in hostport[end + 1..] then None
      else Some(hostport[1..end])
    else if ':' in hostport[..i] || '[' in hostport || ']' in hostport then None
    else Some(hostport[..i])
  }

  function StripHostPort(host: string): string {
    match SplitHostPort(host)
    case Some(h) => h
    case None => host
  }

  /** A name is a domain, or lies under it. */
  predicate Under(name: string, domain: string) {
    name == domain || HasSuffix(name, "." + domain)
  }

  predicate HostnameAllowed(hostname: string, vhosts: seq<string>) {
    exists i :: 0 <= i < |vhosts| && Under(hostname, StripHostPort(vhosts[i]))
  }

  /** What a client's wish becomes before it is looked at. */
  function Normal(s: string): string {
    ToLower(TrimSpace(s))
  }

  lemma {:induction false} JoinChars(parts: seq<string>)
    requires parts != [] && forall i :: 0 <= i < |parts| ==> ValidHostnameLabel(parts[i])
    ensures forall i :: 0 <= i < |Join(parts, '.')| ==> LabelChar(Join(parts, '.')[i]) || Join(parts, '.')[i] == '.'
    ensures var s := Join(parts, '.'); s != [] && LabelChar(s[0]) && LabelChar(s[|s| - 1])
  {
    if |parts| > 1 {
      JoinChars(parts[1..]);
    }
  }

  predicate HostChars(s: string) {
    && s != [] && LabelChar(s[0]) && LabelChar(s[|s| - 1])
    && forall i :: 0 <= i < |s| ==> LabelChar(s[i]) || s[i] == '.'
  }

  lemma ValidChars(hostname: string)
    requires ValidHostname(hostname)
    ensures HostChars(hostname)
  {
    hide ValidHostnameLabel, LabelChar, Split, Join;
    SplitJoins(hostname, '.');
    JoinChars(Split(hostname, '.'));
  }

  lemma CharsNormal(s: string)
    requires HostChars(s)
    ensures Trimmed(White, s) && ToLower(s) == s && ':' !in s
  {
  }

  /** A valid hostname holds only label characters and inner dots, so it is already
      normal, and holds no colon. */
  lemma ValidIsNormal(hostname: string)
    requires ValidHostname(hostname)
    ensures Normal(hostname) == hostname && ':' !in hostname
  {
    hide ValidHostname, HostChars, TrimLeft, TrimRight, Trimmed, ToLower;
    ValidChars(hostname);
    CharsNormal(hostname);
    TrimFixed(White, hostname);
  }
}
