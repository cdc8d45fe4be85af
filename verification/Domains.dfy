/** The domains of a server configuration in src/ngrok/admin/main.go: which domains
    are configured, which certificate each uses, and the removal of one of them. */
module Domains {
  import opened Options
  import opened Strings
  import opened Vhosts

  // ----- Names -----

  function TrimPrefix(s: string, prefix: string): string {
    if HasPrefix(s, prefix) then s[|prefix|..] else s
  }

  function TrimSuffix(s: string, suffix: string): string {
    if HasSuffix(s, suffix) then s[..|s| - |suffix|] else s
  }

  function NormalizeDomain(domain: string): string {
    StripHostPort(TrimSuffix(TrimPrefix(Normal(domain), "*."), "."))
  }

  /** A valid hostname with at least two labels. */
  predicate ValidDomainName(domain: string) {
    3 <= |domain| && |Split(domain, '.')| >= 2 && ValidHostname(domain)
  }

  predicate DefaultLikeDomain(domain: string) {
    domain == "" || domain == "example.com"
  }

  /** A domain in the form the configuration lists it. */
  predicate Listable(domain: string) {
    ValidDomainName(domain) && !DefaultLikeDomain(domain)
  }

  predicate PlainEnds(s: string) {
    s != [] && s[0] != '*' && s[|s| - 1] != '.'
  }

  lemma ValidChars(domain: string)
    requires ValidHostname(domain)
    ensures PlainEnds(domain) && ',' !in domain
  {
    SplitJoins(domain, '.');
    JoinChars(Split(domain, '.'));
    hide Split, ValidHostname, Join;
    assert forall i :: 0 <= i < |domain| ==> LabelChar(domain[i]) || domain[i] == '.';
  }

  lemma Untrimmed(domain: string)
    requires PlainEnds(domain)
    ensures TrimSuffix(TrimPrefix(domain, "*."), ".") == domain
  {
  }

  lemma ValidIsNormalized(domain: string)
    requires ValidDomainName(domain)
    ensures NormalizeDomain(domain) == domain && ':' !in domain && ',' !in domain
  {
    hide ValidHostname, PlainEnds, Normal, TrimPrefix, TrimSuffix, StripHostPort, Split;
    ValidIsNormal(domain);
    ValidChars(domain);
    Untrimmed(domain);
    NoPort(domain);
  }

  lemma NoPort(host: string)
    requires ':' !in host
    ensures StripHostPort(host) == host
  {
  }

  // ----- The configured domains -----

  /** The listable domains among the candidates, each where it first occurs. */
  function Kept(candidates: seq<string>): seq<string> {
    if candidates == [] then []
    else
      var before, d := Kept(candidates[..|candidates| - 1]), NormalizeDomain(candidates[|candidates| - 1]);
      if !Listable(d) || d in before then before else before + [d]
  }

  function Without(domains: seq<string>, domain: string): seq<string> {
    if domains == [] then []
    else
      var before, d := Without(domains[..|domains| - 1], domain), domains[|domains| - 1];
      if d == domain then before else before + [d]
  }

  predicate DistinctListable(domains: seq<string>) {
    && (forall i :: 0 <= i < |domains| ==> Listable(domains[i]))
    && (forall i, j :: 0 <= i < j < |domains| ==> domains[i] != domains[j])
  }

  lemma {:induction false} KeptDistinct(candidates: seq<string>)
    ensures DistinctListable(Kept(candidates))
  {
    hide Listable, NormalizeDomain;
    if candidates != [] {
      KeptDistinct(candidates[..|candidates| - 1]);
    }
  }

  lemma {:induction false} WithoutExact(domains: seq<string>, domain: string)
    requires DistinctListable(domains)
    ensures DistinctListable(Without(domains, domain)) && domain !in Without(domains, domain)
    ensures forall d :: d in Without(domains, domain) <==> d in domains && d != domain
  {
    hide Listable;
    if domains != [] {
      var before := domains[..|domains| - 1];
      var last := domains[|domains| - 1];
      WithoutExact(before, domain);
      assert domains == before + [last];
      assert last !in before;
      assert last !in Without(before, domain);
    }
  }

  lemma {:induction false} WithoutFirst(domains: seq<string>, domain: string)
    requires domains != [] && domains[0] != domain
    ensures Without(domains, domain) != [] && Without(domains, domain)[0] == domains[0]
  {
    if |domains| == 1 {
      assert domains[..0] == [];
    } else {
      WithoutFirst(domains[..|domains| - 1], domain);
    }
  }

  /** Listing a first candidate and then domains that are already as listed changes
      nothing, if the candidate is the first of them or is not listable. */
  lemma {:induction false} KeptAgain(first: string, domains: seq<string>)
    requires DistinctListable(domains) && domains != []
    requires NormalizeDomain(first) == domains[0] || !Listable(NormalizeDomain(first))
    ensures Kept([first] + domains) == domains
  {
    hide *;
    var n := |domains|;
    var last, before := domains[n - 1], domains[..n - 1];
    ButLast(domains);
    ListableIsNormalized(last);
    assert [first] + before + [last] == [first] + domains;
    KeptMore([first] + before, last);
    if n == 1 {
      KeptNone();
      KeptMore([], first);
      assert [] + [first] == [first] == [first] + before;
    } else {
      KeptAgain(first, before);
    }
  }

  lemma ButLast(domains: seq<string>)
    requires DistinctListable(domains) && domains != []
    ensures var last, before := domains[|domains| - 1], domains[..|domains| - 1];
      domains == before + [last] && last !in before && Listable(last) && DistinctListable(before)
  {
    hide Listable;
  }

  lemma KeptNone()
    ensures Kept([]) == []
  {
  }

  lemma ListableIsNormalized(domain: string)
    requires Listable(domain)
    ensures NormalizeDomain(domain) == domain && ':' !in domain && ',' !in domain
  {
    hide ValidDomainName, NormalizeDomain;
    ValidIsNormalized(domain);
  }

  lemma KeptMore(candidates: seq<string>, candidate: string)
    ensures Kept(candidates + [candidate])
         == (var before, d := Kept(candidates), NormalizeDomain(candidate);
             if !Listable(d) || d in before then before else before + [d])
  {
    hide Listable, NormalizeDomain;
    assert (candidates + [candidate])[..|candidates|] == candidates;
  }

  lemma {:induction false} SplitOfJoin(parts: seq<string>, c: char)
    requires parts != [] && forall i :: 0 <= i < |parts| ==> c !in parts[i]
    ensures Split(Join(parts, c), c) == parts
    decreases |parts|
  {
    hide Split, Join;
    if |parts| == 1 {
      JoinOne(parts[0], c);
      SplitOne(parts[0], c);
      assert parts == [parts[0]];
    } else {
      var rest := Join(parts[1..], c);
      SplitOfJoin(parts[1..], c);
      JoinFirst(parts[0], parts[1..], c);
      SplitMore(parts[0], c, rest);
      assert parts == [parts[0]] + parts[1..];
    }
  }

  // ----- The certificate arguments -----

  /** strings.Fields, after a given number of characters of the current field. */
  function Fields(s: string): (r: seq<string>)
    decreases |s|
  {
    var t := TrimLeft(White, s);
    if t == [] then []
    else
      var n := FieldLength(t);
      [t[..n]] + Fields(t[n..])
  }

  /** The length of the field at the front. */
  function FieldLength(s: string): (n: nat)
    ensures n <= |s| && (forall i :: 0 <= i < n ==> !Cuts(White, s[i])) && (n < |s| ==> Cuts(White, s[n]))
  {
    if s == [] || Cuts(White, s[0]) then 0 else 1 + FieldLength(s[1..])
  }

  predicate IsField(s: string) {
    s != [] && forall i :: 0 <= i < |s| ==> !Cuts(White, s[i])
  }

  predicate AreFields(fields: seq<string>) {
    forall i :: 0 <= i < |fields| ==> IsField(fields[i])
  }

  lemma FieldsStep(s: string, t: string, n: nat)
    requires TrimLeft(White, s) == t && t != [] && FieldLength(t) == n
    ensures 0 < n <= |t| && IsField(t[..n]) && Fields(s) == [t[..n]] + Fields(t[n..])
  {
    assert !Cuts(White, t[0]);
  }

  lemma FieldsNone(s: string)
    requires TrimLeft(White, s) == []
    ensures Fields(s) == []
  {
  }

  lemma {:induction false} FieldsAreFields(s: string)
    ensures AreFields(Fields(s))
    decreases |s|
  {
    hide Fields, FieldLength, TrimLeft, IsField;
    var t := TrimLeft(White, s);
    if t == [] {
      FieldsNone(s);
    } else {
      FieldsStep(s, t, FieldLength(t));
      FieldsAreFields(t[FieldLength(t)..]);
    }
  }

  function JoinFields(fields: seq<string>): string {
    if fields == [] then "" else Join(fields, ' ')
  }

  lemma {:induction false} FieldThenRest(field: string, rest: string)
    requires IsField(field) && (rest == [] || rest[0] == ' ')
    ensures FieldLength(field + rest) == |field|
    decreases |field|
  {
    assert Cuts(White, ' ');
    hide Cuts;
    assert (field + rest)[0] == field[0] && (field + rest)[1..] == field[1..] + rest;
    if |field| == 1 {
      assert field[1..] + rest == rest;
    } else {
      FieldThenRest(field[1..], rest);
    }
  }

  /** Joining fields with spaces and splitting again gives them back. */
  lemma {:induction false} FieldsOfJoin(fields: seq<string>)
    requires AreFields(fields)
    ensures Fields(JoinFields(fields)) == fields
    decreases |fields|
  {
    hide Fields, TrimLeft, FieldLength, IsField, JoinFields;
    JoinCons(fields);
    FieldsNothing();
    if fields != [] {
      FieldsOfJoin(fields[1..]);
      var rest := if |fields| == 1 then "" else " " + JoinFields(fields[1..]);
      FieldsCons(fields[0], rest);
      SpaceFirst(JoinFields(fields[1..]));
      assert fields == [fields[0]] + fields[1..];
    }
  }

  lemma JoinCons(fields: seq<string>)
    ensures fields == [] ==> JoinFields(fields) == ""
    ensures |fields| == 1 ==> JoinFields(fields) == fields[0] + ""
    ensures |fields| > 1 ==> JoinFields(fields) == fields[0] + (" " + JoinFields(fields[1..]))
  {
  }

  lemma FieldsNothing()
    ensures Fields("") == []
  {
  }

  lemma FieldsCons(field: string, rest: string)
    requires IsField(field) && (rest == [] || rest[0] == ' ')
    ensures Fields(field + rest) == [field] + Fields(rest)
  {
    FieldThenRest(field, rest);
    assert TrimLeft(White, field + rest) == field + rest by {
      assert (field + rest)[0] == field[0];
    }
    hide Fields, TrimLeft, FieldLength, IsField;
    FieldsStep(field + rest, field + rest, |field|);
    assert (field + rest)[..|field|] == field && (field + rest)[|field|..] == rest;
  }

  lemma SpaceFirst(s: string)
    ensures Fields(" " + s) == Fields(s)
  {
    assert (" " + s)[1..] == s;
    assert Cuts(White, ' ');
    assert TrimLeft(White, " " + s) == TrimLeft(White, s);
    hide TrimLeft, FieldLength;
  }

  const FLAG := "-domainCert"
  const FLAG_EQ := "-domainCert="

  type Paths = (string, string)

  function ParseDomainCertValue(value: string, prefix: string): (r: Option<Paths>)
    ensures r.Some? ==> HasPrefix(value, prefix) && r.value.0 != "" && r.value.1 != ""
  {
    if !HasPrefix(value, prefix) then None
    else
      var rest := value[|prefix|..];
      var i := IndexOf(rest, ':');
      if i == 0 || i + 1 >= |rest| then None else Some((rest[..i], rest[i + 1..]))
  }

  /** The paths the arguments give for a domain, the first that parse. */
  function Find(fields: seq<string>, prefix: string): Option<Paths>
    decreases |fields|
  {
    if fields == [] then None
    else if fields[0] == FLAG && |fields| > 1 then
      var paths := ParseDomainCertValue(fields[1], prefix);
      if paths.Some? then paths else Find(fields[2..], prefix)
    else if HasPrefix(fields[0], FLAG_EQ) then
      var paths := ParseDomainCertValue(fields[0][|FLAG_EQ|..], prefix);
      if paths.Some? then paths else Find(fields[1..], prefix)
    else Find(fields[1..], prefix)
  }

  /** The arguments less those for a domain. */
  function Drop(fields: seq<string>, prefix: string): seq<string>
    decreases |fields|
  {
    if fields == [] then []
    else if fields[0] == FLAG && |fields| > 1 then
      if HasPrefix(fields[1], prefix) then Drop(fields[2..], prefix) else [fields[0]] + Drop(fields[1..], prefix)
    else if HasPrefix(fields[0], FLAG_EQ + prefix) then Drop(fields[1..], prefix)
    else [fields[0]] + Drop(fields[1..], prefix)
  }

  predicate IsFlag(field: string) {
    field == FLAG || HasPrefix(field, FLAG_EQ)
  }

  /** Each bare flag is followed by a value that is not itself such a flag, or ends
      the arguments. */
  predicate WellFormed(fields: seq<string>)
    decreases |fields|
  {
    if fields == [] then true
    else if fields[0] == FLAG && |fields| > 1 then !IsFlag(fields[1]) && WellFormed(fields[2..])
    else WellFormed(fields[1..])
  }

  /** No bare flag has for its value an argument that dropping the prefix would take
      away by itself. */
  predicate Aligned(fields: seq<string>, prefix: string)
    decreases |fields|
  {
    if fields == [] then true
    else if fields[0] == FLAG && |fields| > 1 then
      (HasPrefix(fields[1], prefix) || Stays(fields[1], fields[2..], prefix)) && Aligned(fields[2..], prefix)
    else Aligned(fields[1..], prefix)
  }

  /** Dropping the prefix keeps this argument, and does not take it for the flag of the
      next one. */
  predicate Stays(field: string, rest: seq<string>, prefix: string) {
    !HasPrefix(field, FLAG_EQ + prefix) && (field == FLAG && rest != [] ==> !HasPrefix(rest[0], prefix))
  }

  /** Well-formed arguments can be dropped for every domain. */
  lemma {:induction false} WellFormedAligned(fields: seq<string>, prefix: string)
    requires WellFormed(fields)
    ensures Aligned(fields, prefix)
    decreases |fields|
  {
    if fields == [] {
    } else if fields[0] == FLAG && |fields| > 1 {
      WellFormedAligned(fields[2..], prefix);
      EqPrefix(fields[1], prefix);
    } else {
      WellFormedAligned(fields[1..], prefix);
    }
  }

  /** The arguments end in a bare flag without a value. */
  predicate Dangling(fields: seq<string>)
    decreases |fields|
  {
    if fields == [] then false
    else if fields[0] == FLAG && |fields| > 1 then Dangling(fields[2..])
    else fields == [FLAG] || Dangling(fields[1..])
  }

  lemma PrefixesDiffer(value: string, a: string, b: string)
    requires ':' !in a && ':' !in b && HasPrefix(value, a + ":") && HasPrefix(value, b + ":")
    ensures a == b
  {
    IndexAfter(a, ':', value[|a| + 1..]);
    IndexAfter(b, ':', value[|b| + 1..]);
    assert value == a + ":" + value[|a| + 1..];
    assert value == b + ":" + value[|b| + 1..];
    assert a == value[..|a|];
  }

  lemma EqPrefix(field: string, prefix: string)
    ensures HasPrefix(field, FLAG_EQ + prefix) <==> HasPrefix(field, FLAG_EQ) && HasPrefix(field[|FLAG_EQ|..], prefix)
  {
    if HasPrefix(field, FLAG_EQ + prefix) {
      assert field[..|FLAG_EQ|] == (FLAG_EQ + prefix)[..|FLAG_EQ|] == FLAG_EQ;
      assert field[|FLAG_EQ|..][..|prefix|] == (FLAG_EQ + prefix)[|FLAG_EQ|..] == prefix;
    }
    if HasPrefix(field, FLAG_EQ) && HasPrefix(field[|FLAG_EQ|..], prefix) {
      assert field == FLAG_EQ + field[|FLAG_EQ|..];
    }
  }

  lemma FlagIsNotEq()
    ensures !HasPrefix(FLAG, FLAG_EQ)
  {
    assert |FLAG| < |FLAG_EQ|;
  }

  /** What the arguments start with, and what follows. */
  lemma OtherPrefix(value: string, domain: string, other: string)
    requires ':' !in domain && ':' !in other && domain != other && HasPrefix(value, domain + ":")
    ensures ParseDomainCertValue(value, other + ":") == None
  {
    if HasPrefix(value, other + ":") {
      PrefixesDiffer(value, domain, other);
    }
  }

  /** Dropping one domain's arguments leaves what is found for every other domain,
      and finds nothing for the one that was dropped. */
  lemma {:induction false} DropKeepsOthers(fields: seq<string>, domain: string, other: string)
    requires Aligned(fields, domain + ":") && ':' !in domain && ':' !in other
    ensures Find(Drop(fields, domain + ":"), other + ":")
         == if other == domain then None else Find(fields, other + ":")
    decreases |fields|
  {
    var p, q := domain + ":", other + ":";
    DropNone(p, q);
    hide ParseDomainCertValue, HasPrefix, Find, Drop, Stays;
    if fields == [] {
    } else if fields[0] == FLAG && |fields| > 1 {
      var value, rest := fields[1], fields[2..];
      assert fields == [FLAG, value] + rest;
      KeepPair(value, rest, q);
      DropKeepsOthers(rest, domain, other);
      DropPair(value, rest, p);
      KeepPair(value, Drop(rest, p), q);
      if !HasPrefix(value, p) {
        NotFound(value, p);
      } else if other != domain {
        OtherPrefix(value, domain, other);
      }
    } else {
      var field, rest := fields[0], fields[1..];
      assert fields == [field] + rest;
      KeepOne(field, rest, q);
      DropKeepsOthers(rest, domain, other);
      DropOne(field, rest, p);
      KeepOne(field, Drop(rest, p), q);
      EqPrefix(field, p);
      if HasPrefix(field, FLAG_EQ) {
        if !HasPrefix(field, FLAG_EQ + p) {
          NotFound(field[|FLAG_EQ|..], p);
        } else if other != domain {
          OtherPrefix(field[|FLAG_EQ|..], domain, other);
        }
      }
    }
  }

  lemma {:induction false} DropKeepsWellFormed(fields: seq<string>, prefix: string)
    requires WellFormed(fields)
    ensures WellFormed(Drop(fields, prefix))
    decreases |fields|
  {
    DropNone(prefix, prefix);
    hide HasPrefix, Find, Drop, WellFormed;
    if fields == [] {
    } else if fields[0] == FLAG && |fields| > 1 {
      var value, rest := fields[1], fields[2..];
      assert fields == [FLAG, value] + rest;
      KeepPair(value, rest, prefix);
      EqPrefix(value, prefix);
      DropKeepsWellFormed(rest, prefix);
      DropPair(value, rest, prefix);
      KeepPair(value, Drop(rest, prefix), prefix);
    } else {
      var field, rest := fields[0], fields[1..];
      assert fields == [field] + rest;
      KeepOne(field, rest, prefix);
      DropKeepsWellFormed(rest, prefix);
      DropOne(field, rest, prefix);
      KeepOne(field, Drop(rest, prefix), prefix);
    }
  }

  lemma DropNone(prefix: string, other: string)
    ensures Drop([], prefix) == [] && Find([], other) == None && WellFormed([])
  {
  }

  lemma DropPair(value: string, rest: seq<string>, prefix: string)
    requires HasPrefix(value, prefix) || Stays(value, rest, prefix)
    ensures Drop([FLAG, value] + rest, prefix) == if HasPrefix(value, prefix) then Drop(rest, prefix) else [FLAG, value] + Drop(rest, prefix)
  {
    var fields := [FLAG, value] + rest;
    assert fields[2..] == rest && fields[1..] == [value] + rest;
    if !HasPrefix(value, prefix) {
      FlagIsNotEq();
      hide HasPrefix;
      var next := [value] + rest;
      assert next[1..] == rest && (rest != [] ==> next[1] == rest[0]);
      assert Drop(next, prefix) == [value] + Drop(rest, prefix);
      assert [FLAG] + ([value] + Drop(rest, prefix)) == [FLAG, value] + Drop(rest, prefix);
    }
  }

  lemma DropOne(field: string, rest: seq<string>, prefix: string)
    requires field == FLAG ==> rest == []
    ensures Drop([field] + rest, prefix)
         == if HasPrefix(field, FLAG_EQ + prefix) then Drop(rest, prefix) else [field] + Drop(rest, prefix)
  {
    hide HasPrefix;
    assert ([field] + rest)[1..] == rest;
  }

  lemma NotFound(value: string, prefix: string)
    requires !HasPrefix(value, prefix)
    ensures ParseDomainCertValue(value, prefix) == None
  {
  }

  lemma KeepPair(value: string, rest: seq<string>, prefix: string)
    ensures Find([FLAG, value] + rest, prefix)
         == (var paths := ParseDomainCertValue(value, prefix); if paths.Some? then paths else Find(rest, prefix))
    ensures WellFormed([FLAG, value] + rest) == (!IsFlag(value) && WellFormed(rest))
  {
    hide ParseDomainCertValue;
    assert ([FLAG, value] + rest)[2..] == rest;
  }

  lemma KeepOne(field: string, rest: seq<string>, prefix: string)
    requires field == FLAG ==> rest == []
    ensures Find([field] + rest, prefix)
         == (if HasPrefix(field, FLAG_EQ) && ParseDomainCertValue(field[|FLAG_EQ|..], prefix).Some?
             then ParseDomainCertValue(field[|FLAG_EQ|..], prefix) else Find(rest, prefix))
    ensures WellFormed([field] + rest) == WellFormed(rest)
  {
    hide ParseDomainCertValue;
    assert ([field] + rest)[1..] == rest;
  }

  lemma DropNothing(fields: seq<string>, prefix: string)
    requires fields != [] && (fields[0] == FLAG ==> |fields| == 1) && !HasPrefix(fields[0], FLAG_EQ + prefix)
    ensures Drop(fields, prefix) == [fields[0]] + Drop(fields[1..], prefix)
  {
  }

  // ----- The configuration -----

  /** The fields of the server configuration that domains and certificates depend on. */
  datatype Config = Config(domain: string, controlHost: string, tlsCrt: string, tlsKey: string, vhost: string, extraArgs: string)

  const EXAMPLE := "example.com"

  function Defaults(c: Config): Config {
    var domain := if c.domain == "" then EXAMPLE else c.domain;
    Config(domain,
           if c.controlHost == "" || HasPrefix(c.controlHost, "ngrok.example.") then "ngrok." + domain else c.controlHost,
           if c.tlsCrt == "" then "/etc/ngrok/tls/fullchain.pem" else c.tlsCrt,
           if c.tlsKey == "" then "/etc/ngrok/tls/privkey.pem" else c.tlsKey,
           c.vhost, c.extraArgs)
  }

  /** Saving a configuration with its defaults filled in changes nothing at the next
      load, and does not change the list of domains. */
  lemma DefaultsIdempotent(c: Config, env: string)
    ensures Defaults(Defaults(c)) == Defaults(c)
    ensures Configured(Defaults(c), env) == Configured(c, env)
  {
  }

  /** The configured domains; env is the VHOST of the environment file. */
  function Configured(c: Config, env: string): seq<string> {
    Kept([Defaults(c).domain] + Split(if c.vhost == "" then env else c.vhost, ','))
  }

  function CertFile(certDir: string, domain: string, name: string): (r: string)
    ensures r != ""
  {
    certDir + "/" + NormalizeDomain(domain) + "/" + name
  }

  /** What the arguments give for a domain, or else its own directory. */
  function ArgPaths(certDir: string, domain: string, extraArgs: string): Paths {
    match Find(Fields(extraArgs), domain + ":")
    case Some(paths) => paths
    case None => (CertFile(certDir, domain, "fullchain.pem"), CertFile(certDir, domain, "privkey.pem"))
  }

  /** The certificate and key files a domain uses. */
  function CertPaths(certDir: string, domain: string, c: Config): Paths {
    var d, domain' := Defaults(c), NormalizeDomain(domain);
    if domain' == NormalizeDomain(d.domain) then (d.tlsCrt, d.tlsKey) else ArgPaths(certDir, domain', d.extraArgs)
  }

  function WithoutArg(c: Config, domain: string): Config {
    c.(extraArgs := JoinFields(Drop(Fields(c.extraArgs), domain + ":")))
  }

  /** The next domain becomes the primary one, and takes its certificate with it. */
  function Promote(certDir: string, c: Config, domain: string, next: string): Config {
    var paths, host := ArgPaths(certDir, next, c.extraArgs), NormalizeDomain(c.controlHost);
    var p := c.(domain := next, tlsCrt := paths.0, tlsKey := paths.1,
                controlHost := if c.controlHost == "" || HasPrefix(c.controlHost, "ngrok.example.") || host == domain
                                  || HasSuffix(host, "." + domain) then "ngrok." + next else c.controlHost);
    if Find(Fields(c.extraArgs), next + ":").Some? then WithoutArg(p, next) else p
  }

  /** The configuration after a domain is removed that is not the last. */
  function Removal(certDir: string, c: Config, domain: string, remaining: seq<string>): Config
    requires remaining != []
  {
    var d := WithoutArg(c, domain);
    var p := if NormalizeDomain(c.domain) == domain || DefaultLikeDomain(c.domain) then Promote(certDir, d, domain, remaining[0]) else d;
    p.(vhost := Join(remaining, ','))
  }

  lemma {:induction false} KeptFirst(first: string, rest: seq<string>)
    requires Listable(NormalizeDomain(first))
    ensures Kept([first] + rest) != [] && Kept([first] + rest)[0] == NormalizeDomain(first)
    decreases |rest|
  {
    hide Listable, NormalizeDomain;
    if rest == [] {
      KeptMore([], first);
      assert [] + [first] == [first] == [first] + rest;
    } else {
      var before := rest[..|rest| - 1];
      KeptFirst(first, before);
      KeptMore([first] + before, rest[|rest| - 1]);
      assert [first] + before + [rest[|rest| - 1]] == [first] + rest;
    }
  }

  lemma ExampleIsDefault()
    ensures NormalizeDomain(EXAMPLE) == EXAMPLE
  {
    ExampleIsNormal();
    hide Normal, TrimPrefix, TrimSuffix, StripHostPort;
    Untrimmed(EXAMPLE);
    NoPort(EXAMPLE);
  }

  lemma ExampleIsNormal()
    ensures Normal(EXAMPLE) == EXAMPLE && PlainEnds(EXAMPLE) && ':' !in EXAMPLE
  {
    LowerText(EXAMPLE);
  }

  lemma LowerText(s: string)
    requires s != [] && (forall i :: 0 <= i < |s| ==> 'a' <= s[i] <= 'z' || s[i] == '.') 
    ensures Normal(s) == s
  {
    TrimFixed(White, s);
    hide Trim, TrimLeft, TrimRight;
    assert TrimSpace(s) == s;
    assert ToLower(s) == s;
  }

  /** Removing a domain that is not the last one leaves the other domains listed, in
      their order, whatever the environment file says. */
  lemma RemovalKeepsList(certDir: string, c: Config, env: string, domain: string, later: string)
    requires var list := Configured(c, env); domain in list && Without(list, domain) != []
    ensures var remaining := Without(Configured(c, env), domain);
      Configured(Removal(certDir, c, domain, remaining), later) == remaining
  {
    hide Listable, NormalizeDomain, Promote, Find, Drop, Fields, JoinFields, Kept, Without, Split, Join;
    var list := Configured(c, env);
    var candidates := Split(if c.vhost == "" then env else c.vhost, ',');
    KeptDistinct([Defaults(c).domain] + candidates);
    WithoutExact(list, domain);
    var remaining := Without(list, domain);
    var r := Removal(certDir, c, domain, remaining);
    SplitRemaining(remaining);
    assert r.vhost == Join(remaining, ',');
    if NormalizeDomain(c.domain) == domain || DefaultLikeDomain(c.domain) {
      PromoteDomain(certDir, WithoutArg(c, domain), domain, remaining[0]);
      ListableIsNormalized(remaining[0]);
      ListableNotEmpty(remaining[0]);
    } else {
      assert Defaults(r).domain == Defaults(c).domain == c.domain;
      if Listable(NormalizeDomain(c.domain)) {
        KeptFirst(c.domain, candidates);
        WithoutFirst(list, domain);
      }
    }
    KeptAgain(Defaults(r).domain, remaining);
  }

  lemma PromoteDomain(certDir: string, c: Config, domain: string, next: string)
    ensures Promote(certDir, c, domain, next).domain == next
  {
    hide Find, Drop, Fields, JoinFields, NormalizeDomain;
  }

  lemma ListableNotEmpty(domain: string)
    requires Listable(domain)
    ensures domain != "" && domain != EXAMPLE
  {
    hide ValidDomainName;
  }

  /** A list of domains joined with commas is not empty and splits back. */
  lemma SplitRemaining(remaining: seq<string>)
    requires DistinctListable(remaining) && remaining != []
    ensures Join(remaining, ',') != "" && Split(Join(remaining, ','), ',') == remaining
  {
    hide Listable, NormalizeDomain, Split, Join;
    forall i | 0 <= i < |remaining| ensures ',' !in remaining[i] {
      ListableIsNormalized(remaining[i]);
    }
    SplitOfJoin(remaining, ',');
    ListableNotEmpty(remaining[0]);
    JoinNotEmpty(remaining, ',');
  }

  lemma JoinNotEmpty(parts: seq<string>, c: char)
    requires parts != [] && parts[0] != ""
    ensures Join(parts, c) != ""
  {
  }

  lemma {:induction false} DropAreFields(fields: seq<string>, prefix: string)
    requires AreFields(fields)
    ensures AreFields(Drop(fields, prefix))
    decreases |fields|
  {
    hide IsField;
    if fields != [] {
      DropAreFields(fields[1..], prefix);
      if |fields| > 1 {
        DropAreFields(fields[2..], prefix);
      }
    }
  }

  /** Dropping a domain from the text of the arguments changes no other domain's paths. */
  lemma WithoutArgKeeps(certDir: string, c: Config, domain: string, other: string)
    requires WellFormed(Fields(c.extraArgs)) && ':' !in domain && ':' !in other && other != domain
    ensures WellFormed(Fields(WithoutArg(c, domain).extraArgs))
    ensures ArgPaths(certDir, other, WithoutArg(c, domain).extraArgs) == ArgPaths(certDir, other, c.extraArgs)
    ensures Find(Fields(WithoutArg(c, domain).extraArgs), other + ":") == Find(Fields(c.extraArgs), other + ":")
  {
    hide WellFormed, Fields, Find, Drop, JoinFields, NormalizeDomain;
    var fields := Fields(c.extraArgs);
    FieldsAreFields(c.extraArgs);
    DropAreFields(fields, domain + ":");
    FieldsOfJoin(Drop(fields, domain + ":"));
    WellFormedAligned(fields, domain + ":");
    DropKeepsWellFormed(fields, domain + ":");
    DropKeepsOthers(fields, domain, other);
  }

  /** A domain that is not the primary one uses what the arguments give. */
  lemma NotPrimary(certDir: string, c: Config, d: string)
    requires Listable(d) && d != NormalizeDomain(c.domain)
    ensures CertPaths(certDir, d, c) == ArgPaths(certDir, d, c.extraArgs)
  {
    hide Listable, NormalizeDomain, ArgPaths;
    ListableIsNormalized(d);
    ListableNotEmpty(d);
    ExampleIsDefault();
  }

  lemma Primary(certDir: string, c: Config, d: string)
    requires Listable(d) && d == NormalizeDomain(c.domain) && c.tlsCrt != "" && c.tlsKey != ""
    ensures CertPaths(certDir, d, c) == (c.tlsCrt, c.tlsKey)
  {
    hide Listable, ArgPaths;
    ListableIsNormalized(d);
    ListableNotEmpty(d);
    NormalOfEmpty();
    hide NormalizeDomain;
  }

  lemma NormalOfEmpty()
    ensures NormalizeDomain("") == ""
  {
    assert Normal("") == "";
  }

  /** The promoted domain keeps its paths, and so does every other one that stays. */
  lemma PromoteKeeps(certDir: string, c: Config, domain: string, next: string, d: string)
    requires WellFormed(Fields(c.extraArgs)) && Listable(next) && Listable(d)
    ensures CertPaths(certDir, d, Promote(certDir, c, domain, next)) == ArgPaths(certDir, d, c.extraArgs)
  {
    hide WellFormed, Fields, Find, Drop, JoinFields, Listable, NormalizeDomain;
    var p := Promote(certDir, c, domain, next);
    ListableIsNormalized(next);
    ListableIsNormalized(d);
    if d == next {
      assert p.domain == next && p.tlsCrt == ArgPaths(certDir, next, c.extraArgs).0;
      FoundNotEmpty(Fields(c.extraArgs), next + ":");
      hide WithoutArg;
      Primary(certDir, p, d);
    } else {
      WithoutArgKeeps(certDir, c, next, d);
      NotPrimary(certDir, p, d);
    }
  }

  lemma {:induction false} FoundNotEmpty(fields: seq<string>, prefix: string)
    ensures var r := Find(fields, prefix); r.Some? ==> r.value.0 != "" && r.value.1 != ""
    decreases |fields|
  {
    if fields != [] {
      FoundNotEmpty(fields[1..], prefix);
      if |fields| > 1 {
        FoundNotEmpty(fields[2..], prefix);
      }
    }
  }

  /** Removing a domain changes no other domain's certificate, not even that of the
      domain that becomes the primary one. */
  lemma RemovalKeepsCerts(certDir: string, c: Config, env: string, domain: string, d: string)
    requires WellFormed(Fields(c.extraArgs))
    requires domain in Configured(c, env) && d in Without(Configured(c, env), domain)
    ensures CertPaths(certDir, d, Removal(certDir, c, domain, Without(Configured(c, env), domain))) == CertPaths(certDir, d, c)
  {
    hide WellFormed, Fields, Find, Drop, JoinFields, Listable, NormalizeDomain, Kept, Without, Split, Join, Promote, ArgPaths;
    var list := Configured(c, env);
    KeptDistinct([Defaults(c).domain] + Split(if c.vhost == "" then env else c.vhost, ','));
    WithoutExact(list, domain);
    var remaining := Without(list, domain);
    var w, next := WithoutArg(c, domain), remaining[0];
    ListableIsNormalized(domain);
    ListableIsNormalized(d);
    WithoutArgKeeps(certDir, c, domain, d);
    if NormalizeDomain(c.domain) == domain || DefaultLikeDomain(c.domain) {
      PromoteKeeps(certDir, w, domain, next, d);
      OldPrimary(c, domain, d);
      NotPrimary(certDir, c, d);
      hide WithoutArg;
      SameCerts(certDir, Promote(certDir, w, domain, next), Join(remaining, ','), d);
    } else {
      StaysPrimary(certDir, c, w, d);
      SameCerts(certDir, w, Join(remaining, ','), d);
    }
  }

  lemma OldPrimary(c: Config, domain: string, d: string)
    requires NormalizeDomain(c.domain) == domain || DefaultLikeDomain(c.domain)
    requires Listable(d) && d != domain
    ensures d != NormalizeDomain(c.domain)
  {
    hide Listable, NormalizeDomain;
    ListableNotEmpty(d);
    ExampleIsDefault();
    NormalOfEmpty();
  }

  lemma SameCerts(certDir: string, c: Config, vhost: string, d: string)
    ensures CertPaths(certDir, d, c.(vhost := vhost)) == CertPaths(certDir, d, c)
  {
    hide NormalizeDomain, ArgPaths;
  }

  lemma StaysPrimary(certDir: string, c: Config, w: Config, d: string)
    requires w == c.(extraArgs := w.extraArgs) && NormalizeDomain(d) == d
    requires ArgPaths(certDir, d, w.extraArgs) == ArgPaths(certDir, d, c.extraArgs)
    ensures CertPaths(certDir, d, w) == CertPaths(certDir, d, c)
  {
    hide NormalizeDomain, ArgPaths;
  }

  // ----- Adding a certificate -----

  function CertValue(domain: string, paths: Paths): string {
    domain + ":" + paths.0 + ":" + paths.1
  }

  function Upsert(fields: seq<string>, domain: string, paths: Paths): seq<string> {
    Drop(fields, domain + ":") + [FLAG_EQ + CertValue(domain, paths)]
  }

  lemma ParseOwn(domain: string, paths: Paths)
    requires ':' !in paths.0 && paths.0 != "" && paths.1 != ""
    ensures ParseDomainCertValue(CertValue(domain, paths), domain + ":") == Some(paths)
  {
    var value, prefix := CertValue(domain, paths), domain + ":";
    assert value[|prefix|..] == paths.0 + ":" + paths.1;
    IndexAfter(paths.0, ':', paths.1);
    assert (paths.0 + ":" + paths.1)[..|paths.0|] == paths.0 && (paths.0 + ":" + paths.1)[|paths.0| + 1..] == paths.1;
  }

  /** A new argument at the end is found exactly when nothing before it is, and the
      arguments do not end in a bare flag, which would take it for its value. */
  lemma {:induction false} FindAppended(fields: seq<string>, value: string, prefix: string)
    requires WellFormed(fields) && Find(fields, prefix) == None && ParseDomainCertValue(value, prefix).Some?
    requires !HasPrefix(FLAG_EQ + value, prefix)
    ensures Find(fields + [FLAG_EQ + value], prefix)
         == if Dangling(fields) then None else ParseDomainCertValue(value, prefix)
    decreases |fields|
  {
    hide ParseDomainCertValue;
    FlagIsNotEq();
    var own := FLAG_EQ + value;
    if fields == [] {
      assert fields + [own] == [own] && own[|FLAG_EQ|..] == value;
      KeepOne(own, [], prefix);
      assert [own] + [] == [own];
    } else if fields[0] == FLAG && |fields| > 1 {
      assert (fields + [own])[2..] == fields[2..] + [own];
      FindAppended(fields[2..], value, prefix);
    } else if fields == [FLAG] {
      assert fields + [own] == [FLAG, own] + [];
      NotFound(own, prefix);
      KeepPair(own, [], prefix);
    } else {
      assert (fields + [own])[1..] == fields[1..] + [own];
      FindAppended(fields[1..], value, prefix);
    }
  }

  lemma {:induction false} DropKeepsDangling(fields: seq<string>, domain: string)
    requires WellFormed(fields)
    ensures Dangling(Drop(fields, domain + ":")) == Dangling(fields)
    decreases |fields|
  {
    var p := domain + ":";
    if fields == [] {
    } else if fields[0] == FLAG && |fields| > 1 {
      var value := fields[1];
      DropKeepsDangling(fields[2..], domain);
      if !HasPrefix(value, p) {
        EqPrefix(value, p);
        assert fields[1..][1..] == fields[2..];
        assert Drop(fields, p) == [FLAG, value] + Drop(fields[2..], p);
        assert ([FLAG, value] + Drop(fields[2..], p))[2..] == Drop(fields[2..], p);
      }
    } else {
      DropKeepsDangling(fields[1..], domain);
      EqPrefix(fields[0], p);
      FlagIsNotEq();
      if HasPrefix(fields[0], FLAG_EQ + p) {
        assert fields != [FLAG];
      } else {
        DropNothing(fields, p);
        assert ([fields[0]] + Drop(fields[1..], p))[1..] == Drop(fields[1..], p);
      }
    }
  }

  /** After an upsert the domain has the new paths, exactly when the arguments did not
      end in a bare flag. */
  lemma UpsertExact(fields: seq<string>, domain: string, paths: Paths)
    requires WellFormed(fields) && ':' !in domain && domain != "" && domain[0] != '-'
    requires ':' !in paths.0 && paths.0 != "" && paths.1 != ""
    ensures Find(Upsert(fields, domain, paths), domain + ":") == if Dangling(fields) then None else Some(paths)
  {
    hide Find, Drop, WellFormed, Dangling, ParseDomainCertValue;
    var value := CertValue(domain, paths);
    WellFormedAligned(fields, domain + ":");
    DropKeepsWellFormed(fields, domain + ":");
    DropKeepsOthers(fields, domain, domain);
    DropKeepsDangling(fields, domain);
    ParseOwn(domain, paths);
    assert (FLAG_EQ + value)[0] == '-' && (domain + ":")[0] == domain[0];
    FindAppended(Drop(fields, domain + ":"), value, domain + ":");
  }

  /** Why the arguments must be aligned: here a flag stands where a value should, and
      removing the first domain hides the certificate of the second. */
  lemma MalformedLoses(a: string, b: string, mine: Paths, theirs: Paths)
    requires ':' !in a && ':' !in b && a != b && a != "" && b != "" && a[0] != '-' && b[0] != '-'
    requires ':' !in theirs.0 && theirs.0 != "" && theirs.1 != ""
    ensures var own, other := FLAG_EQ + CertValue(a, mine), FLAG_EQ + CertValue(b, theirs);
      var fields := [FLAG, own, other];
      && Find(fields, b + ":") == Some(theirs)
      && Drop(fields, a + ":") == [FLAG, other] && Find(Drop(fields, a + ":"), b + ":") == None
  {
    ParseOwn(b, theirs);
    hide ParseDomainCertValue, HasPrefix, Find, Drop;
    var own, other := FLAG_EQ + CertValue(a, mine), FLAG_EQ + CertValue(b, theirs);
    assert HasPrefix(CertValue(a, mine), a + ":") by { ValueBegins(a, mine); }
    assert !HasPrefix(CertValue(b, theirs), a + ":") by { NotForOther(a, b, theirs); }
    EqValue(CertValue(a, mine), a + ":");
    EqValue(CertValue(b, theirs), a + ":");
    FlagFirst(a, CertValue(a, mine));
    FlagFirst(a, CertValue(b, theirs));
    FlagFirst(b, CertValue(a, mine));
    FlagFirst(b, CertValue(b, theirs));
    NotFound(own, b + ":");
    NotFound(other, b + ":");
    hide CertValue;
    FlagSwallows(own, other, a + ":", b + ":", theirs);
  }

  lemma ValueBegins(domain: string, paths: Paths)
    ensures HasPrefix(CertValue(domain, paths), domain + ":")
  {
    Begins(domain + ":", paths.0 + ":" + paths.1, CertValue(domain, paths));
  }

  lemma Begins(s: string, t: string, whole: string)
    requires whole == s + t
    ensures HasPrefix(whole, s)
  {
  }

  lemma NotForOther(a: string, b: string, paths: Paths)
    requires ':' !in a && ':' !in b && a != b
    ensures !HasPrefix(CertValue(b, paths), a + ":")
  {
    ValueBegins(b, paths);
    hide CertValue;
    if HasPrefix(CertValue(b, paths), a + ":") {
      PrefixesDiffer(CertValue(b, paths), a, b);
    }
  }

  lemma EqValue(value: string, prefix: string)
    ensures var field := FLAG_EQ + value;
      && field != FLAG && HasPrefix(field, FLAG_EQ) && field[|FLAG_EQ|..] == value
      && (HasPrefix(field, FLAG_EQ + prefix) <==> HasPrefix(value, prefix))
  {
    FlagIsNotEq();
    EqPrefix(FLAG_EQ + value, prefix);
  }

  /** Two arguments after a bare flag: dropping the first makes the second the value of
      the flag. */
  lemma FlagSwallows(own: string, other: string, p: string, q: string, paths: Paths)
    requires own != FLAG && HasPrefix(own, FLAG_EQ + p) && !HasPrefix(own, p)
    requires other != FLAG && HasPrefix(other, FLAG_EQ) && !HasPrefix(other, FLAG_EQ + p) && !HasPrefix(other, p)
    requires ParseDomainCertValue(own, q) == None == ParseDomainCertValue(other, q)
    requires ParseDomainCertValue(other[|FLAG_EQ|..], q) == Some(paths)
    ensures Find([FLAG, own, other], q) == Some(paths)
    ensures Drop([FLAG, own, other], p) == [FLAG, other] && Find([FLAG, other], q) == None
  {
    hide ParseDomainCertValue, HasPrefix;
    assert [FLAG, own, other] == [FLAG, own] + [other] && [FLAG, other] == [FLAG, other] + [] && [other] == [other] + [];
    KeepPair(own, [other], q);
    KeepOne(other, [], q);
    KeepPair(other, [], q);
    assert [FLAG, own, other][1..] == [own, other] && [own, other][1..] == [other] && [other][1..] == [];
    assert Drop([other], p) == [other];
    assert Drop([own, other], p) == [other];
  }

  lemma FlagFirst(domain: string, rest: string)
    requires domain != "" && domain[0] != '-'
    ensures !HasPrefix(FLAG_EQ + rest, domain + ":")
  {
    assert (FLAG_EQ + rest)[0] == '-' && (domain + ":")[0] == domain[0];
  }

  // ----- The operations -----

  datatype DomainError = InvalidDomain | DomainNotFound

  method ConfiguredDomainList(c: Config, env: string) returns (result: seq<string>)
    ensures result == Configured(c, env)
  {
    hide Listable, NormalizeDomain, Split, Kept, ValidDomainName, DefaultLikeDomain;
    KeptNone();
    var candidates := [Defaults(c).domain] + Split(if c.vhost == "" then env else c.vhost, ',');
    var seen: set<string> := {};
    result := [];
    for n := 0 to |candidates|
      invariant result == Kept(candidates[..n])
      invariant forall d :: d in seen <==> d in result
    {
      KeptMore(candidates[..n], candidates[n]);
      assert candidates[..n + 1] == candidates[..n] + [candidates[n]];
      var domain := NormalizeDomain(candidates[n]);
      if domain == "" || domain in seen || DefaultLikeDomain(domain) || !ValidDomainName(domain) {
        NotListable(domain);
        continue;
      }
      NotListable(domain);
      seen, result := seen + {domain}, result + [domain];
    }
    assert candidates[..|candidates|] == candidates;
  }

  lemma NotListable(domain: string)
    ensures Listable(domain) <==> domain != "" && !DefaultLikeDomain(domain) && ValidDomainName(domain)
  {
  }

  method DomainCertArgPaths(extraArgs: string, domain: string) returns (paths: Option<Paths>)
    ensures paths == Find(Fields(extraArgs), domain + ":")
  {
    hide ParseDomainCertValue, Fields;
    var prefix, fields := domain + ":", Fields(extraArgs);
    var i := 0;
    assert fields[0..] == fields;
    while i < |fields|
      invariant i <= |fields| && Find(fields[i..], prefix) == Find(fields, prefix)
    {
      var field := fields[i];
      if field == FLAG && i + 1 < |fields| {
        var found := ParseDomainCertValue(fields[i + 1], prefix);
        if found.Some? {
          return found;
        }
        assert fields[i..][2..] == fields[i + 2..];
        i := i + 2;
        continue;
      }
      if HasPrefix(field, FLAG_EQ) {
        var found := ParseDomainCertValue(TrimPrefix(field, FLAG_EQ), prefix);
        if found.Some? {
          return found;
        }
      }
      assert fields[i..][1..] == fields[i + 1..];
      i := i + 1;
    }
    return None;
  }

  /** The loop that removing and upserting share. */
  method FilterArgs(fields: seq<string>, prefix: string) returns (filtered: seq<string>)
    ensures filtered == Drop(fields, prefix)
  {
    filtered := [];
    var i := 0;
    assert fields[0..] == fields;
    while i < |fields|
      invariant i <= |fields| && filtered + Drop(fields[i..], prefix) == Drop(fields, prefix)
    {
      var field := fields[i];
      assert fields[i..][1..] == fields[i + 1..];
      if field == FLAG && i + 1 < |fields| {
        if HasPrefix(fields[i + 1], prefix) {
          assert fields[i..][2..] == fields[i + 2..];
          i := i + 2;
          continue;
        }
        filtered, i := filtered + [field], i + 1;
        continue;
      }
      if !HasPrefix(field, FLAG_EQ + prefix) {
        filtered := filtered + [field];
      }
      i := i + 1;
    }
  }

  method RemoveDomainCertArg(extraArgs: string, domain: string) returns (r: string)
    ensures r == JoinFields(Drop(Fields(extraArgs), NormalizeDomain(domain) + ":"))
  {
    var filtered := FilterArgs(Fields(extraArgs), NormalizeDomain(domain) + ":");
    r := JoinFields(filtered);
  }

  lemma EqArg(domain: string, paths: Paths)
    ensures FLAG_EQ + domain + ":" + paths.0 + ":" + paths.1 == FLAG_EQ + CertValue(domain, paths)
  {
    var s, c := FLAG_EQ + domain, ":";
    assert s + c + paths.0 + c + paths.1 == s + (c + paths.0 + c + paths.1);
    assert domain + c + paths.0 + c + paths.1 == domain + (c + paths.0 + c + paths.1);
    assert FLAG_EQ + domain + (c + paths.0 + c + paths.1) == FLAG_EQ + (domain + (c + paths.0 + c + paths.1));
  }

  method UpsertDomainCertArg(extraArgs: string, domain: string, crtPath: string, keyPath: string) returns (r: string)
    ensures r == JoinFields(Upsert(Fields(extraArgs), domain, (crtPath, keyPath)))
  {
    hide Fields, JoinFields, Drop, CertValue;
    EqArg(domain, (crtPath, keyPath));
    var filtered := FilterArgs(Fields(extraArgs), domain + ":");
    r := JoinFields(filtered + [FLAG_EQ + domain + ":" + crtPath + ":" + keyPath]);
  }

  class ServerConfig {
    var domain: string
    var controlHost: string
    var tlsCrt: string
    var tlsKey: string
    var vhost: string
    var extraArgs: string

    function Value(): Config
      reads this
    {
      Config(domain, controlHost, tlsCrt, tlsKey, vhost, extraArgs)
    }

    method ApplyDefaults()
      modifies this
      ensures Value() == Defaults(old(Value()))
    {
      if domain == "" {
        domain := "example.com";
      }
      if controlHost == "" || HasPrefix(controlHost, "ngrok.example.") {
        controlHost := "ngrok." + domain;
      }
      if tlsCrt == "" {
        tlsCrt := "/etc/ngrok/tls/fullchain.pem";
      }
      if tlsKey == "" {
        tlsKey := "/etc/ngrok/tls/privkey.pem";
      }
    }

    /** Takes one domain out. Errors change nothing; when a domain is left, the list
        loses exactly the one, and every other domain keeps its certificate files. */
    method RemoveDomainFromConfig(env: string, certDir: string, domain: string) returns (err: Option<DomainError>)
      modifies this
      ensures var d, list := NormalizeDomain(domain), Configured(old(Value()), env);
        if !ValidDomainName(d) then err == Some(InvalidDomain) && Value() == old(Value())
        else if d !in list then err == Some(DomainNotFound) && Value() == old(Value())
        else if Without(list, d) == []
        then err == None && Value() == Defaults(Config(EXAMPLE, "ngrok.example.com", "/etc/ngrok/tls/fullchain.pem", "/etc/ngrok/tls/privkey.pem", "", ""))
        else
          && err == None && Value() == Removal(certDir, old(Value()), d, Without(list, d))
          && Configured(Value(), env) == Without(list, d)
          && (WellFormed(Fields(old(extraArgs))) ==>
                forall e :: e in Without(list, d) ==> CertPaths(certDir, e, Value()) == CertPaths(certDir, e, old(Value())))
    {
      hide Listable, Find, Drop, Fields, JoinFields, Kept, Split, Join, WellFormed, ValidDomainName, Promote, CertPaths, WithoutArg;
      var d := NormalizeDomain(domain);
      NormalOfEmpty();
      hide NormalizeDomain;
      ghost var was := Value();
      if d == "" || !ValidDomainName(d) {
        EmptyIsInvalid();
        return Some(InvalidDomain);
      }
      var current := ConfiguredDomainList(Value(), env);
      var remaining, found := RemoveFrom(current, d);
      if !found {
        return Some(DomainNotFound);
      }
      ValidIsNormalized(d);
      if |remaining| == 0 {
        this.domain, controlHost := "example.com", "ngrok.example.com";
        tlsCrt, tlsKey := "/etc/ngrok/tls/fullchain.pem", "/etc/ngrok/tls/privkey.pem";
        extraArgs, vhost := "", "";
        ApplyDefaults();
        return None;
      }
      RemoveArg(d);
      if NormalizeDomain(this.domain) == d || DefaultLikeDomain(this.domain) {
        KeptDistinct([Defaults(was).domain] + Split(if was.vhost == "" then env else was.vhost, ','));
        WithoutExact(current, d);
        PromoteNext(certDir, d, remaining[0]);
      }
      vhost := Join(remaining, ',');
      RemovalKeepsList(certDir, was, env, d, env);
      forall e | e in remaining && WellFormed(Fields(was.extraArgs)) ensures CertPaths(certDir, e, Value()) == CertPaths(certDir, e, was) {
        RemovalKeepsCerts(certDir, was, env, d, e);
      }
      return None;
    }

    method RemoveArg(d: string)
      requires NormalizeDomain(d) == d
      modifies this`extraArgs
      ensures Value() == WithoutArg(old(Value()), d)
    {
      extraArgs := RemoveDomainCertArg(extraArgs, d);
    }

    method PromoteNext(certDir: string, d: string, next: string)
      requires Listable(next)
      modifies this
      ensures Value() == Promote(certDir, old(Value()), d, next)
    {
      hide Listable, Find, Drop, Fields, JoinFields, NormalizeDomain, HasPrefix, HasSuffix, CertFile;
      ListableIsNormalized(next);
      this.domain := next;
      var paths := DomainCertArgPaths(extraArgs, next);
      if paths.Some? {
        tlsCrt, tlsKey := paths.value.0, paths.value.1;
        RemoveArg(next);
      } else {
        tlsCrt, tlsKey := CertFile(certDir, next, "fullchain.pem"), CertFile(certDir, next, "privkey.pem");
      }
      var host := NormalizeDomain(controlHost);
      if controlHost == "" || HasPrefix(controlHost, "ngrok.example.") || host == d || HasSuffix(host, "." + d) {
        controlHost := "ngrok." + next;
      }
    }
  }

  lemma EmptyIsInvalid()
    ensures !ValidDomainName("")
  {
  }

  method RemoveFrom(current: seq<string>, domain: string) returns (remaining: seq<string>, found: bool)
    ensures remaining == Without(current, domain) && (found <==> domain in current)
  {
    remaining, found := [], false;
    for n := 0 to |current|
      invariant remaining == Without(current[..n], domain) && (found <==> domain in current[..n])
    {
      assert current[..n + 1] == current[..n] + [current[n]] && current[..n + 1][..n] == current[..n];
      if current[n] == domain {
        found := true;
        continue;
      }
      remaining := remaining + [current[n]];
    }
    assert current[..|current|] == current;
  }
}
