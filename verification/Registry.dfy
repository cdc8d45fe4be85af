/** The tunnel registry of src/ngrok/server/registry.go with its affinity cache,
    and the registration of virtual hosts of src/ngrok/server/tunnel.go. */
module Registry {
  import opened Lru
  import opened Options
  import opened Strings
  import opened Vhosts

  /** registryCacheSize: one megabyte of URLs. */
  const CACHE_SIZE := 1024 * 1024

  predicate Web(protocol: string) {
    protocol == "http" || protocol == "https"
  }

  function Scheme(protocol: string): string {
    protocol + "://"
  }

  /** A name under a virtual host. */
  function NameHost(name: string, vhost: string): string {
    name + "." + vhost
  }

  function NameUrl(protocol: string, name: string, vhost: string): string {
    Scheme(protocol) + NameHost(name, vhost)
  }

  // ----- What the affinity cache may hold -----

  /** A host that equals or lies under a virtual host, as configured or less its port. */
  predicate HostOk(vhosts: seq<string>, host: string) {
    exists i :: 0 <= i < |vhosts| && (Under(host, vhosts[i]) || Under(host, StripHostPort(vhosts[i])))
  }

  /** A URL that this server may publish for a protocol. */
  predicate Affine(server: Server, protocol: string, url: string) {
    && HasPrefix(url, Scheme(protocol))
    && (Web(protocol) ==>
          var host := url[|Scheme(protocol)|..];
          HostOk(PublicVhosts(server, protocol), host) && Normal(host) != "")
  }

  predicate IsName(name: string) {
    name != [] && forall i :: 0 <= i < |name| ==> LabelChar(name[i])
  }

  predicate NamedUnder(host: string, vhost: string) {
    && |host| > |vhost| + 1
    && host[|host| - |vhost| - 1..] == "." + vhost
    && IsName(host[..|host| - |vhost| - 1])
  }

  /** What the server makes up, caches and offers again: for the web, a name under the
      first virtual host. */
  predicate UnderFirst(server: Server, protocol: string, url: string) {
    && HasPrefix(url, Scheme(protocol))
    && (Web(protocol) ==>
          var vhosts := PublicVhosts(server, protocol);
          vhosts != [] && NamedUnder(url[|Scheme(protocol)|..], vhosts[0]))
  }

  function UrlSize(url: string): nat {
    |url|
  }

  function IpKey(protocol: string, ip: string): string {
    "client-ip-" + protocol + ":" + ip
  }

  function IdKey(protocol: string, id: string): string {
    "client-id-" + protocol + ":" + id
  }

  /** The protocol a cache key is for. */
  function KeyProtocol(key: string): string {
    if |key| < 10 then "" else key[10..][..IndexOf(key[10..], ':')]
  }

  lemma KeysNameProtocol(protocol: string, rest: string)
    requires ':' !in protocol
    ensures KeyProtocol(IpKey(protocol, rest)) == protocol == KeyProtocol(IdKey(protocol, rest))
  {
    IndexAfter(protocol, ':', rest);
    assert IpKey(protocol, rest)[10..] == protocol + ":" + rest == IdKey(protocol, rest)[10..];
    assert (protocol + ":" + rest)[..|protocol|] == protocol;
  }

  /** Every cached URL is one the server made up for the protocol of its key. */
  predicate Sound(server: Server, items: seq<Lru.Item<string>>) {
    forall item :: item in items ==> UnderFirst(server, KeyProtocol(item.key), item.value)
  }

  lemma {:induction false} WithoutWithin(items: seq<Lru.Item<string>>, key: string)
    ensures forall item :: item in Without(items, key) ==> item in items
  {
    if items != [] {
      WithoutWithin(items[1..], key);
    }
  }

  lemma {:induction false} LookupWithin(items: seq<Lru.Item<string>>, key: string)
    ensures var v := Lookup(items, key); v.Some? ==> Item(key, v.value) in items
  {
    if items != [] {
      LookupWithin(items[1..], key);
    }
  }

  lemma SoundFront(server: Server, items: seq<Lru.Item<string>>, item: Lru.Item<string>)
    requires Sound(server, items) && UnderFirst(server, KeyProtocol(item.key), item.value)
    ensures Sound(server, [item] + Without(items, item.key))
  {
    hide UnderFirst, KeyProtocol;
    WithoutWithin(items, item.key);
  }

  lemma SoundSet(server: Server, sizeOf: string -> nat, capacity: nat, items: seq<Lru.Item<string>>, item: Lru.Item<string>)
    requires Sound(server, items) && UnderFirst(server, KeyProtocol(item.key), item.value)
    ensures Sound(server, SetItem(sizeOf, capacity, items, item))
  {
    hide UnderFirst, KeyProtocol, Evicted;
    SoundFront(server, items, item);
    assert SetItem(sizeOf, capacity, items, item) <= [item] + Without(items, item.key);
  }

  /** What a cached URL for a client is: by identifier if there is one, else by address. */
  function Cached(items: seq<Lru.Item<string>>, protocol: string, ip: string, id: string): string {
    match Lookup(items, IdKey(protocol, id))
    case Some(url) => url
    case None =>
      match Lookup(items, IpKey(protocol, ip))
      case Some(url) => url
      case None => ""
  }

  /** Affinity is sound: nothing, or a URL this server may publish for the protocol,
      for the web under its first virtual host. */
  lemma CachedIsAffine(server: Server, items: seq<Lru.Item<string>>, protocol: string, ip: string, id: string)
    requires Sound(server, items) && ':' !in protocol
    ensures var url := Cached(items, protocol, ip, id);
      url == "" || (UnderFirst(server, protocol, url) && Affine(server, protocol, url))
  {
    hide UnderFirst, Affine, KeyProtocol;
    KeysNameProtocol(protocol, id);
    KeysNameProtocol(protocol, ip);
    LookupWithin(items, IdKey(protocol, id));
    LookupWithin(items, IpKey(protocol, ip));
    var url := Cached(items, protocol, ip, id);
    if url != "" {
      UnderFirstIsAffine(server, protocol, url);
    }
  }

  /** What caching a registration does to the cache. */
  function Remembered(sizeOf: string -> nat, items: seq<Lru.Item<string>>, protocol: string, ip: string, id: string, url: string): seq<Lru.Item<string>>
  {
    SetItem(sizeOf, CACHE_SIZE, SetItem(sizeOf, CACHE_SIZE, items, Item(IpKey(protocol, ip), url)), Item(IdKey(protocol, id), url))
  }

  /** The client gets back what it had: after a registration the same client is
      offered that URL, if the cache can hold it. */
  lemma CachedAfterRemembered(sizeOf: string -> nat, items: seq<Lru.Item<string>>, protocol: string, ip: string, id: string, url: string)
    requires sizeOf(url) <= CACHE_SIZE
    ensures Cached(Remembered(sizeOf, items, protocol, ip, id, url), protocol, ip, id) == url
  {
    hide SetItem;
    var next := SetItem(sizeOf, CACHE_SIZE, items, Item(IpKey(protocol, ip), url));
    SetThenLookup(sizeOf, CACHE_SIZE, next, Item(IdKey(protocol, id), url));
  }

  // ----- What a request for a virtual host asks for -----

  datatype RegisterError = AlreadyRegistered | NoAttemptLeft | NoDomains | NoDefaultPort | InvalidHostname
                         | OutsideDomains | InvalidSubdomain | NotListening | NotSupported | PortsDisabled | BindFailed
                         | Crashed

  datatype Wish = Refuse(error: RegisterError) | Exactly(url: string) | AnyUrl

  function WishOf(server: Server, protocol: string, hostname: string, subdomain: string): Wish {
    var vhosts, host, sub := PublicVhosts(server, protocol), Normal(hostname), Normal(subdomain);
    if vhosts == [] then Refuse(NoDomains)
    else if DefaultPort(protocol) == 0 then Refuse(NoDefaultPort)
    else if host != "" then
      if !ValidHostname(host) then Refuse(InvalidHostname)
      else if !HostnameAllowed(host, vhosts) then Refuse(OutsideDomains)
      else Exactly(Scheme(protocol) + host)
    else if sub != "" then
      if !ValidHostnameLabel(sub) then Refuse(InvalidSubdomain)
      else Exactly(NameUrl(protocol, sub, vhosts[0]))
    else AnyUrl
  }

  lemma TrimWhole(s: string)
    ensures |TrimSpace(s)| <= |s|
    ensures |TrimSpace(s)| == |s| ==> TrimSpace(s) == s
  {
  }

  predicate LowerOnly(s: string) {
    forall i :: 0 <= i < |s| ==> Lower(s[i]) == s[i]
  }

  /** Normal means trimmed and in lower case. */
  lemma NormalParts(s: string)
    ensures Normal(s) == s <==> Trimmed(White, s) && LowerOnly(s)
  {
    TrimWhole(s);
    TrimFixed(White, s);
    hide Trim, Trimmed, Lower;
    assert |Normal(s)| == |TrimSpace(s)|;
    if TrimSpace(s) == s {
      assert ToLower(s) == s <==> LowerOnly(s);
    }
  }

  lemma LabelLower(name: string)
    requires IsName(name)
    ensures LowerOnly(name) && Trimmed(White, name)
  {
  }

  lemma LowerJoin(a: string, b: string)
    requires LowerOnly(a) && LowerOnly(b)
    ensures LowerOnly(a + b)
  {
    hide Lower;
  }

  lemma LowerDot()
    ensures LowerOnly(".") && Trimmed(White, ".")
  {
  }

  /** Below a name a host is normal exactly when its virtual host is, which can only
      fail at its end. */
  lemma NormalName(name: string, vhost: string)
    requires IsName(name) && vhost != [] && LowerOnly(vhost) && !Cuts(White, vhost[0])
    ensures Normal(name + "." + vhost) == name + "." + vhost <==> Normal(vhost) == vhost
  {
    LabelLower(name);
    LowerDot();
    var host := name + "." + vhost;
    assert host[0] == name[0] && host[|host| - 1] == vhost[|vhost| - 1];
    hide LowerOnly, Normal, IsName, Cuts;
    LowerJoin(name, ".");
    LowerJoin(name + ".", vhost);
    NormalParts(vhost);
    NormalParts(host);
  }

  lemma LowerKeeps(c: char)
    ensures Lower(Lower(c)) == Lower(c) && (Cuts(White, Lower(c)) <==> Cuts(White, c))
  {
  }

  /** A virtual host is in lower case and does not begin with a blank. */
  lemma VhostShape(item: string, protocol: string)
    ensures var v := VhostOf(item, protocol); LowerOnly(v) && (v != [] ==> !Cuts(White, v[0]))
  {
    var trimmed, v := TrimSpace(item), VhostOf(item, protocol);
    TrimFixed(White, item);
    assert |v| <= |trimmed| && forall i :: 0 <= i < |v| ==> v[i] == Lower(trimmed[i]);
    hide Lower, Cuts, VhostOf, TrimSpace, Trim;
    forall i | 0 <= i < |v| ensures Lower(v[i]) == v[i] {
      LowerKeeps(trimmed[i]);
    }
    if v != [] {
      LowerKeeps(trimmed[0]);
    }
  }

  lemma FirstVhost(server: Server, protocol: string)
    requires PublicVhosts(server, protocol) != []
    ensures var v := PublicVhosts(server, protocol)[0]; v != [] && LowerOnly(v) && !Cuts(White, v[0])
  {
    hide VhostOf, Items, Firsts, LowerOnly, Cuts;
    var items, v := Items(server, protocol), PublicVhosts(server, protocol)[0];
    FirstsExact(items, protocol, v);
    var i :| 0 <= i < |items| && v == VhostOf(items[i], protocol);
    VhostShape(items[i], protocol);
  }

  /** A made-up host is normal exactly when the first virtual host is. */
  lemma HostNormal(server: Server, protocol: string, url: string)
    requires Web(protocol) && UnderFirst(server, protocol, url)
    ensures var host, v := url[|Scheme(protocol)|..], PublicVhosts(server, protocol)[0];
      Normal(host) == host <==> Normal(v) == v
  {
    hide Normal, PublicVhosts, LowerOnly, Cuts, IsName;
    FirstVhost(server, protocol);
    var host, v := url[|Scheme(protocol)|..], PublicVhosts(server, protocol)[0];
    var name := host[..|host| - |v| - 1];
    NamedIs(host, v);
    NormalName(name, v);
  }

  lemma NamedIs(host: string, vhost: string)
    requires NamedUnder(host, vhost)
    ensures host == host[..|host| - |vhost| - 1] + "." + vhost
  {
    var cut := |host| - |vhost| - 1;
    assert host == host[..cut] + host[cut..];
    assert host[..cut] + ("." + vhost) == host[..cut] + "." + vhost;
  }

  lemma UnderFirstIsAffine(server: Server, protocol: string, url: string)
    requires UnderFirst(server, protocol, url)
    ensures Affine(server, protocol, url) && url != ""
  {
    hide Normal, PublicVhosts, IsName, LabelChar, StripHostPort;
    if Web(protocol) {
      var host, v := url[|Scheme(protocol)|..], PublicVhosts(server, protocol)[0];
      var name := host[..|host| - |v| - 1];
      NamedIs(host, v);
      assert Under(host, v);
      NamedNotEmpty(name, "." + v);
      assert name + ("." + v) == name + "." + v;
    }
  }

  lemma NamedNotEmpty(name: string, rest: string)
    requires IsName(name)
    ensures Normal(name + rest) != ""
  {
    LabelLower(name);
    assert name == name[..|name| - 1] + [name[|name| - 1]];
    TrimRightKeeps(White, name, rest);
  }

  lemma NameUnder(server: Server, protocol: string, name: string)
    requires Web(protocol) && PublicVhosts(server, protocol) != [] && IsName(name)
    ensures UnderFirst(server, protocol, NameUrl(protocol, name, PublicVhosts(server, protocol)[0]))
  {
    hide PublicVhosts, IsName, Scheme, NamedUnder, NameHost;
    var v, scheme := PublicVhosts(server, protocol)[0], Scheme(protocol);
    NameOver(name, v);
    AfterScheme(scheme, NameHost(name, v));
  }

  lemma NameOver(name: string, vhost: string)
    requires IsName(name)
    ensures NamedUnder(NameHost(name, vhost), vhost)
  {
    var host := NameHost(name, vhost);
    assert host[|name|..] == "." + vhost && host[..|name|] == name && |name| == |host| - |vhost| - 1;
  }

  lemma AfterScheme(scheme: string, host: string)
    ensures scheme <= scheme + host && (scheme + host)[|scheme|..] == host
  {
  }

  lemma LabelUnder(server: Server, protocol: string, name: string)
    requires Web(protocol) && PublicVhosts(server, protocol) != [] && ValidHostnameLabel(name)
    ensures var url := NameUrl(protocol, name, PublicVhosts(server, protocol)[0]);
      UnderFirst(server, protocol, url) && Affine(server, protocol, url)
  {
    assert IsName(name);
    hide *;
    NameUnder(server, protocol, name);
    UnderFirstIsAffine(server, protocol, NameUrl(protocol, name, PublicVhosts(server, protocol)[0]));
  }

  lemma AffineHost(server: Server, protocol: string, host: string)
    requires Web(protocol) && HostOk(PublicVhosts(server, protocol), host) && Normal(host) != ""
    ensures Affine(server, protocol, Scheme(protocol) + host)
  {
    hide PublicVhosts, Normal, HostOk;
    assert (Scheme(protocol) + host)[|Scheme(protocol)|..] == host;
  }

  /** Whatever name a client gets by asking lies within the server's domains; a
      subdomain lies under the first virtual host. */
  lemma WishIsAffine(server: Server, protocol: string, hostname: string, subdomain: string)
    requires Web(protocol)
    ensures var w := WishOf(server, protocol, hostname, subdomain); w.Exactly? ==> Affine(server, protocol, w.url)
    ensures var w := WishOf(server, protocol, hostname, subdomain);
      w.Exactly? && Normal(hostname) == "" ==> UnderFirst(server, protocol, w.url)
  {
    var host, sub, vhosts := Normal(hostname), Normal(subdomain), PublicVhosts(server, protocol);
    hide PublicVhosts, Normal, Under, Scheme, NameUrl, Affine, UnderFirst;
    var w := WishOf(server, protocol, hostname, subdomain);
    if w.Exactly? {
      if host != "" {
        ValidIsNormal(host);
        AffineHost(server, protocol, host);
      } else {
        LabelUnder(server, protocol, sub);
      }
    }
  }

  // ----- The registry -----

  /** A tunnel: the wishes of its request, its client, and the URLs it got. */
  class Tunnel {
    const protocol: string
    const hostname: string
    const subdomain: string
    const clientIp: string
    const clientId: string
    var url: string
    var urls: seq<string>

    constructor (protocol: string, hostname: string, subdomain: string, clientIp: string, clientId: string)
      ensures this.protocol == protocol && this.hostname == hostname && this.subdomain == subdomain
      ensures this.clientIp == clientIp && this.clientId == clientId && url == "" && urls == []
    {
      this.protocol, this.hostname, this.subdomain := protocol, hostname, subdomain;
      this.clientIp, this.clientId, url, urls := clientIp, clientId, "", [];
    }
  }

  /** Every registered URL is one the server may publish for its tunnel's protocol. */
  ghost predicate Published(server: Server, tunnels: map<string, Tunnel>) {
    forall url :: url in tunnels ==> Affine(server, tunnels[url].protocol, url)
  }

  ghost predicate SomeTaken(server: Server, protocol: string, tunnels: map<string, Tunnel>) {
    exists url :: url in tunnels && UnderFirst(server, protocol, url)
  }

  /** What becomes of a wish: the source's refusal, exactly the URL if it is free, or
      some URL; without others at work that fails only when made-up names are taken. */
  ghost predicate Fulfils(server: Server, protocol: string, wish: Wish, err: Option<RegisterError>, url: string,
                          was: map<string, Tunnel>, busy: bool)
  {
    match wish
    case Refuse(e) => err == Some(e)
    case Exactly(u) => if u in was then err == Some(AlreadyRegistered) else err == None && url == u
    case AnyUrl => err == None || (err == Some(NoAttemptLeft) && (!busy ==> SomeTaken(server, protocol, was)))
  }

  class TunnelRegistry {
    const server: Server
    const affinity: LRUCache<string>
    var tunnels: map<string, Tunnel>

    ghost predicate Valid()
      reads this, affinity, affinity.list
    {
      affinity.Valid() && affinity.capacity == CACHE_SIZE && affinity.sizeOf == UrlSize
      && Sound(server, affinity.items) && Published(server, tunnels)
    }

    constructor (server: Server)
      ensures Valid() && this.server == server && tunnels == map[] && affinity.items == []
      ensures fresh(affinity) && fresh(affinity.Entries())
    {
      this.server := server;
      affinity := new LRUCache<string>(CACHE_SIZE, UrlSize);
      tunnels := map[];
    }

    /** What other goroutines may do between two steps: any number of operations on
        the tunnels and the cache, with any arguments that the source could pass. */
    method Others(busy: bool)
      requires Valid()
      modifies this`tunnels, affinity, affinity.Entries()
      ensures Valid() && (!busy ==> tunnels == old(tunnels) && affinity.items == old(affinity.items))
      ensures fresh(affinity.Entries() - old(affinity.Entries()))
    {
      if busy {
        var steps: nat := *;
        while steps > 0
          invariant Valid() && fresh(affinity.Entries() - old(affinity.Entries()))
        {
          OtherStep();
          steps := steps - 1;
        }
      }
    }

    method OtherStep()
      requires Valid()
      modifies this`tunnels, affinity, affinity.Entries()
      ensures Valid() && fresh(affinity.Entries() - old(affinity.Entries()))
    {
      hide Affine, UnderFirst, KeyProtocol, Sound, Published, SetItem, Without, Lookup;
      var choice: nat, key: string, url: string, t: Tunnel? := *, *, *, *;
      if choice == 0 && t != null && Affine(server, t.protocol, url) {
        var _ := Register(url, t);
      } else if choice == 1 {
        Del(url);
      } else if choice == 2 {
        var _ := GetSound(key);
      } else if choice == 3 && UnderFirst(server, KeyProtocol(key), url) {
        SetSound(key, url);
      }
    }

    method Register(url: string, t: Tunnel) returns (err: Option<RegisterError>)
      requires Valid() && Affine(server, t.protocol, url)
      modifies this`tunnels
      ensures Valid() && err == if url in old(tunnels) then Some(AlreadyRegistered) else None
      ensures tunnels == if err == None then old(tunnels)[url := t] else old(tunnels)
    {
      hide Affine, Sound;
      if url in tunnels {
        return Some(AlreadyRegistered);
      }
      tunnels := tunnels[url := t];
      return None;
    }

    method Del(url: string)
      requires Valid()
      modifies this`tunnels
      ensures Valid() && tunnels == old(tunnels) - {url}
    {
      hide Affine, Sound;
      tunnels := tunnels - {url};
    }

    /** A tunnel that shuts down takes its own URLs with it and no others. */
    method UnregisterURLs(t: Tunnel)
      requires Valid()
      modifies this`tunnels, t
      ensures Valid() && t.urls == [] && t.url == old(t.url)
      ensures forall url :: url in tunnels <==> url in old(tunnels) && url !in old(t.urls)
      ensures forall url :: url in tunnels ==> tunnels[url] == old(tunnels)[url]
    {
      hide Affine, Sound, Published;
      for n := 0 to |t.urls|
        invariant Valid() && t.urls == old(t.urls) && t.url == old(t.url)
        invariant forall url :: url in tunnels <==> url in old(tunnels) && url !in t.urls[..n]
        invariant forall url :: url in tunnels ==> tunnels[url] == old(tunnels)[url]
      {
        Del(t.urls[n]);
      }
      t.urls := [];
    }

    method GetCachedRegistration(t: Tunnel) returns (url: string)
      requires Valid() && ':' !in t.protocol
      modifies affinity`list, affinity`items
      ensures Valid() && url == Cached(old(affinity.items), t.protocol, t.clientIp, t.clientId)
      ensures url == "" || UnderFirst(server, t.protocol, url)
      ensures affinity.Entries() <= old(affinity.Entries())
    {
      CachedIsAffine(server, affinity.items, t.protocol, t.clientIp, t.clientId);
      hide Affine, UnderFirst, KeyProtocol, Lookup, Without, IpKey, IdKey, Published;
      var v := GetSound(IdKey(t.protocol, t.clientId));
      if v.Some? {
        return v.value;
      }
      v := GetSound(IpKey(t.protocol, t.clientIp));
      if v.Some? {
        return v.value;
      }
      return "";
    }

    method GetSound(key: string) returns (v: Option<string>)
      requires Valid()
      modifies affinity`list, affinity`items
      ensures Valid() && v == Lookup(old(affinity.items), key)
      ensures v == None ==> affinity.items == old(affinity.items)
      ensures affinity.Entries() <= old(affinity.Entries())
    {
      hide Affine, UnderFirst, KeyProtocol, Lookup, Without, Published;
      LookupWithin(affinity.items, key);
      ghost var was := affinity.items;
      v := affinity.Get(key);
      if v.Some? {
        SoundFront(server, was, Item(key, v.value));
      }
    }

    method RegisterAndCache(url: string, t: Tunnel) returns (err: Option<RegisterError>)
      requires Valid() && ':' !in t.protocol && UnderFirst(server, t.protocol, url)
      modifies this`tunnels, affinity, affinity.Entries()
      ensures Valid() && err == if url in old(tunnels) then Some(AlreadyRegistered) else None
      ensures tunnels == if err == None then old(tunnels)[url := t] else old(tunnels)
      ensures affinity.items == if err == None
                then Remembered(UrlSize, old(affinity.items), t.protocol, t.clientIp, t.clientId, url)
                else old(affinity.items)
      ensures fresh(affinity.Entries() - old(affinity.Entries()))
    {
      UnderFirstIsAffine(server, t.protocol, url);
      hide Affine, UnderFirst, Remembered, Sound, Published;
      err := Register(url, t);
      if err == None {
        Remember(url, t);
      }
    }

    method Remember(url: string, t: Tunnel)
      requires Valid() && ':' !in t.protocol && UnderFirst(server, t.protocol, url)
      modifies affinity, affinity.Entries()
      ensures Valid() && affinity.items == Remembered(UrlSize, old(affinity.items), t.protocol, t.clientIp, t.clientId, url)
      ensures fresh(affinity.Entries() - old(affinity.Entries()))
    {
      hide Affine, UnderFirst, KeyProtocol, SetItem, Sound, IpKey, IdKey, Published;
      KeysNameProtocol(t.protocol, t.clientIp);
      KeysNameProtocol(t.protocol, t.clientId);
      SetSound(IpKey(t.protocol, t.clientIp), url);
      SetSound(IdKey(t.protocol, t.clientId), url);
    }

    method SetSound(key: string, url: string)
      requires Valid() && UnderFirst(server, KeyProtocol(key), url)
      modifies affinity, affinity.Entries()
      ensures Valid() && affinity.items == SetItem(UrlSize, CACHE_SIZE, old(affinity.items), Item(key, url))
      ensures fresh(affinity.Entries() - old(affinity.Entries()))
    {
      hide Affine, UnderFirst, KeyProtocol, SetItem, Sound, Published;
      SoundSet(server, UrlSize, CACHE_SIZE, affinity.items, Item(key, url));
      affinity.Set(key, url);
    }

    /** A URL no one was told of: a random name under the first virtual host. */
    method RandomUrl(protocol: string, vhosts: seq<string>) returns (url: string)
      requires Web(protocol) && vhosts == PublicVhosts(server, protocol) != []
      ensures UnderFirst(server, protocol, url)
    {
      hide UnderFirst, PublicVhosts, NameUrl;
      var n: nat := *;
      n := n % 0x8000_0000;
      HexIsName(n);
      NameUnder(server, protocol, Hex(n));
      url := NameUrl(protocol, Hex(n), vhosts[0]);
    }

    /** First the cached URL, if any, then random ones, five attempts in all. With
        others at work, `was` is the map at the step that registers. `tried` are the
        URLs that were taken. */
    method RegisterRepeat(t: Tunnel, vhosts: seq<string>, busy: bool)
      returns (url: string, err: Option<RegisterError>, ghost was: map<string, Tunnel>, ghost tried: seq<string>)
      requires Valid() && Web(t.protocol) && vhosts == PublicVhosts(server, t.protocol) != []
      modifies this`tunnels, affinity, affinity.Entries()
      ensures Valid()
      ensures err == None ==> url !in was && tunnels == was[url := t] && UnderFirst(server, t.protocol, url)
      ensures err != None ==> err == Some(NoAttemptLeft) && url == "" && tunnels == was
      ensures !busy ==> was == old(tunnels)
      ensures var cached := Cached(old(affinity.items), t.protocol, t.clientIp, t.clientId);
        cached != "" ==> (if tried == [] then url else tried[0]) == cached
      ensures if err == None then |tried| < 5 else |tried| == 5
      ensures forall u :: u in tried ==> UnderFirst(server, t.protocol, u) && (!busy ==> u in old(tunnels))
      ensures fresh(affinity.Entries() - old(affinity.Entries()))
    {
      hide Affine, UnderFirst, Published, Sound, Cached, PublicVhosts, Remembered;
      url := GetCachedRegistration(t);
      if url == "" {
        url := RandomUrl(t.protocol, vhosts);
      }
      url, err, was, tried := RegisterFive(t, url, vhosts, busy);
    }

    method RegisterFive(t: Tunnel, first: string, vhosts: seq<string>, busy: bool)
      returns (url: string, err: Option<RegisterError>, ghost was: map<string, Tunnel>, ghost tried: seq<string>)
      requires Valid() && Web(t.protocol) && vhosts == PublicVhosts(server, t.protocol) != []
      requires UnderFirst(server, t.protocol, first)
      modifies this`tunnels, affinity, affinity.Entries()
      ensures Valid() && (!busy ==> was == old(tunnels))
      ensures err == None ==> url !in was && tunnels == was[url := t] && UnderFirst(server, t.protocol, url)
      ensures err != None ==> err == Some(NoAttemptLeft) && url == "" && tunnels == was
      ensures (if tried == [] then url else tried[0]) == first
      ensures if err == None then |tried| < 5 else |tried| == 5
      ensures forall u :: u in tried ==> UnderFirst(server, t.protocol, u) && (!busy ==> u in old(tunnels))
      ensures fresh(affinity.Entries() - old(affinity.Entries()))
    {
      hide Affine, UnderFirst, Published, Sound, PublicVhosts, Remembered, UrlSize, Web;
      WebHasNoColon(t.protocol);
      was, url, tried := tunnels, first, [];
      var i := 0;
      while i < 5
        invariant Valid() && 0 <= i <= 5 && UnderFirst(server, t.protocol, url)
        invariant !busy ==> tunnels == was == old(tunnels)
        invariant |tried| == i && (if i == 0 then url else tried[0]) == first
        invariant forall u :: u in tried ==> UnderFirst(server, t.protocol, u) && (!busy ==> u in old(tunnels))
        invariant fresh(affinity.Entries() - old(affinity.Entries()))
      {
        err, was := Attempt(t, url, busy);
        if err == None {
          return;
        }
        tried := tried + [url];
        url := RandomUrl(t.protocol, vhosts);
        i := i + 1;
      }
      return "", Some(NoAttemptLeft), tunnels, tried;
    }

    /** One attempt, after whatever others did before it. */
    method Attempt(t: Tunnel, url: string, busy: bool) returns (err: Option<RegisterError>, ghost was: map<string, Tunnel>)
      requires Valid() && ':' !in t.protocol && UnderFirst(server, t.protocol, url)
      modifies this`tunnels, affinity, affinity.Entries()
      ensures Valid() && (!busy ==> was == old(tunnels))
      ensures err == if url in was then Some(AlreadyRegistered) else None
      ensures tunnels == if err == None then was[url := t] else was
      ensures fresh(affinity.Entries() - old(affinity.Entries()))
    {
      hide Affine, UnderFirst, Published, Sound, Remembered, UrlSize;
      Others(busy);
      was := tunnels;
      err := RegisterAndCache(url, t);
    }

    method RegisterURL(t: Tunnel, url: string) returns (err: Option<RegisterError>)
      requires Valid() && Affine(server, t.protocol, url)
      modifies this`tunnels, t
      ensures Valid() && err == if url in old(tunnels) then Some(AlreadyRegistered) else None
      ensures tunnels == if err == None then old(tunnels)[url := t] else old(tunnels)
      ensures t.urls == if err == None then old(t.urls) + [url] else old(t.urls)
      ensures t.url == if err == None && old(t.url) == "" then url else old(t.url)
    {
      hide Affine, Sound, Published;
      err := Register(url, t);
      if err == None {
        t.urls := t.urls + [url];
        if t.url == "" {
          t.url := url;
        }
      }
    }

    /** A success adds the tunnel's one URL, which was free; a failure adds nothing. */
    ghost predicate Added(t: Tunnel, err: Option<RegisterError>, was: map<string, Tunnel>)
      reads this, t
    {
      if err == None then t.urls == [t.url] && t.url !in was && tunnels == was[t.url := t]
      else t.urls == [] && t.url == "" && tunnels == was
    }

    /** Registering a new web tunnel: what is added is what the request asked for, and
        the server may publish it. */
    method RegisterVhost(t: Tunnel, busy: bool) returns (err: Option<RegisterError>, ghost was: map<string, Tunnel>)
      requires Valid() && Web(t.protocol) && t.url == "" && t.urls == []
      modifies this`tunnels, affinity, affinity.Entries(), t
      ensures Valid() && Added(t, err, was) && (!busy ==> was == old(tunnels))
      ensures Fulfils(server, t.protocol, WishOf(server, t.protocol, t.hostname, t.subdomain), err, t.url, was, busy)
      ensures err == None ==> Affine(server, t.protocol, t.url)
      ensures err == None && Normal(t.hostname) == "" ==> UnderFirst(server, t.protocol, t.url)
      ensures fresh(affinity.Entries() - old(affinity.Entries()))
    {
      hide Affine, UnderFirst, Published, PublicVhosts, Sound, Normal, ValidHostname, ValidHostnameLabel, HostnameAllowed, Scheme, NameUrl;
      was := tunnels;
      var vhosts := ComputePublicVhosts(server, t.protocol);
      if |vhosts| == 0 {
        return Some(NoDomains), was;
      }
      if DefaultPort(t.protocol) == 0 {
        return Some(NoDefaultPort), was;
      }
      var hostname, subdomain := Normal(t.hostname), Normal(t.subdomain);
      if hostname != "" {
        err, was := RegisterHostname(t, hostname, vhosts, busy);
      } else if subdomain != "" {
        err, was := RegisterSubdomain(t, subdomain, vhosts, busy);
      } else {
        err, was := RegisterAny(t, vhosts, busy);
      }
    }

    method RegisterHostname(t: Tunnel, hostname: string, vhosts: seq<string>, busy: bool)
      returns (err: Option<RegisterError>, ghost was: map<string, Tunnel>)
      requires Valid() && Web(t.protocol) && t.url == "" && t.urls == []
      requires hostname == Normal(t.hostname) != "" && vhosts == PublicVhosts(server, t.protocol) != []
      modifies this`tunnels, affinity, affinity.Entries(), t
      ensures Valid() && Added(t, err, was) && (!busy ==> was == old(tunnels))
      ensures err == if !ValidHostname(hostname) then Some(InvalidHostname)
                     else if !HostnameAllowed(hostname, vhosts) then Some(OutsideDomains)
                     else if Scheme(t.protocol) + hostname in was then Some(AlreadyRegistered)
                     else None
      ensures err == None ==> t.url == Scheme(t.protocol) + hostname && Affine(server, t.protocol, t.url)
      ensures fresh(affinity.Entries() - old(affinity.Entries()))
    {
      WishIsAffine(server, t.protocol, t.hostname, t.subdomain);
      hide Affine, UnderFirst, Published, PublicVhosts, Sound, Normal, ValidHostname, ValidHostnameLabel, HostnameAllowed, Scheme, NameUrl;
      was := tunnels;
      if !ValidHostname(hostname) {
        return Some(InvalidHostname), was;
      }
      if !HostnameAllowed(hostname, vhosts) {
        return Some(OutsideDomains), was;
      }
      err, was := RegisterExactly(t, Scheme(t.protocol) + hostname, busy);
    }

    method RegisterSubdomain(t: Tunnel, subdomain: string, vhosts: seq<string>, busy: bool)
      returns (err: Option<RegisterError>, ghost was: map<string, Tunnel>)
      requires Valid() && Web(t.protocol) && t.url == "" && t.urls == []
      requires vhosts == PublicVhosts(server, t.protocol) != []
      modifies this`tunnels, affinity, affinity.Entries(), t
      ensures Valid() && Added(t, err, was) && (!busy ==> was == old(tunnels))
      ensures err == if !ValidHostnameLabel(subdomain) then Some(InvalidSubdomain)
                     else if NameUrl(t.protocol, subdomain, vhosts[0]) in was then Some(AlreadyRegistered)
                     else None
      ensures err == None ==> t.url == NameUrl(t.protocol, subdomain, vhosts[0])
      ensures err == None ==> UnderFirst(server, t.protocol, t.url) && Affine(server, t.protocol, t.url)
      ensures fresh(affinity.Entries() - old(affinity.Entries()))
    {
      hide Affine, UnderFirst, Published, PublicVhosts, Sound, Normal, ValidHostname, ValidHostnameLabel, HostnameAllowed, Scheme, NameUrl;
      was := tunnels;
      if !ValidHostnameLabel(subdomain) {
        return Some(InvalidSubdomain), was;
      }
      LabelUnder(server, t.protocol, subdomain);
      err, was := RegisterExactly(t, NameUrl(t.protocol, subdomain, vhosts[0]), busy);
    }

    method RegisterExactly(t: Tunnel, url: string, busy: bool) returns (err: Option<RegisterError>, ghost was: map<string, Tunnel>)
      requires Valid() && t.url == "" && t.urls == [] && Affine(server, t.protocol, url)
      modifies this`tunnels, affinity, affinity.Entries(), t
      ensures Valid() && Added(t, err, was) && (!busy ==> was == old(tunnels))
      ensures err == if url in was then Some(AlreadyRegistered) else None
      ensures err == None ==> t.url == url
      ensures fresh(affinity.Entries() - old(affinity.Entries()))
    {
      hide Affine, Sound, Published;
      AffineNotEmpty(server, t.protocol, url);
      Others(busy);
      was := tunnels;
      err := RegisterURL(t, url);
    }

    method RegisterAny(t: Tunnel, vhosts: seq<string>, busy: bool) returns (err: Option<RegisterError>, ghost was: map<string, Tunnel>)
      requires Valid() && Web(t.protocol) && vhosts == PublicVhosts(server, t.protocol) != []
      requires t.url == "" && t.urls == []
      modifies this`tunnels, affinity, affinity.Entries(), t
      ensures Valid() && Added(t, err, was) && (!busy ==> was == old(tunnels))
      ensures if err == None then UnderFirst(server, t.protocol, t.url) && Affine(server, t.protocol, t.url)
              else err == Some(NoAttemptLeft) && (!busy ==> SomeTaken(server, t.protocol, was))
      ensures fresh(affinity.Entries() - old(affinity.Entries()))
    {
      hide Affine, UnderFirst, Published, Sound, Cached, PublicVhosts, Web;
      var url;
      ghost var tried;
      url, err, was, tried := RegisterRepeat(t, vhosts, busy);
      if err != None {
        assert tried[0] in tried;
      }
      Assign(t, url, err == None);
      if err == None {
        UnderFirstIsAffine(server, t.protocol, url);
      }
    }

    method Assign(t: Tunnel, url: string, taken: bool)
      requires Valid()
      modifies t
      ensures Valid() && t.url == url && t.urls == old(t.urls) + if taken then [url] else []
      ensures affinity.Entries() == old(affinity.Entries())
    {
      hide Affine, UnderFirst, Published, Sound;
      t.url := url;
      if taken {
        t.urls := t.urls + [url];
      }
    }
  }

  lemma AffineNotEmpty(server: Server, protocol: string, url: string)
    requires Affine(server, protocol, url)
    ensures url != ""
  {
  }

  lemma WebHasNoColon(protocol: string)
    requires Web(protocol)
    ensures ':' !in protocol
  {
  }

  lemma HexIsName(n: nat)
    ensures IsName(Hex(n))
  {
  }
}
