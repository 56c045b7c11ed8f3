/** The shim's environment (pkg/dns/env.go:97-107, 163-202; pkg/dns/normalize.go:46-120;
    shim/getaddrinfo_shim.c:185-329): what the Go encoder emits for a pod's DNS
    configuration and what the C loader reads back. */
module DnsConfig {
  import opened Text

  const MAX_SEARCH := 8
  const MAX_NS := 3
  const NAME_CAP := 255
  const SEARCH_CAP := 2047
  const DEFAULT_NDOTS := 5
  const MAX_NDOTS := 15

  /** A nameserver as netip.ParseAddr reads it: IPv4 or IPv4-mapped, or not IPv4 at all. */
  datatype Nameserver = V4(ip: IPv4) | Mapped(ip: IPv4) | NotV4

  /** ClusterFirst asks one server, taken verbatim; None asks the pod's own list. */
  datatype Policy = ClusterFirst(server: string) | Exclusive(servers: seq<Nameserver>)

  datatype Config = Config(policy: Policy, domain: string, search: seq<string>, ndots: int)

  datatype Env = Env(server: Option<string>, servers: Option<string>, exclusive: Option<string>,
                     domain: Option<string>, search: Option<string>, ndots: Option<string>)

  // ---- the Go side ----

  predicate Space(c: char) { c == ' ' || '\t' <= c <= '\r' || c == 0x85 as char || c == 0xa0 as char }

  function TrimLeft(s: string): string { if s != [] && Space(s[0]) then TrimLeft(s[1..]) else s }
  function TrimRight(s: string): string { if s != [] && Space(s[|s| - 1]) then TrimRight(s[..|s| - 1]) else s }
  function Trim(s: string): string { TrimRight(TrimLeft(s)) }

  predicate DomainChar(c: char) { 'a' <= c <= 'z' || 'A' <= c <= 'Z' || IsDigit(c) || c == '.' || c == '-' }

  function Sanitize(search: seq<string>): seq<string> {
    if search == [] then []
    else
      var front, s := Sanitize(search[..|search| - 1]), Trim(search[|search| - 1]);
      if s == "" || exists c <- s :: !DomainChar(c) then front else front + [s]
  }

  function Cap<T>(s: seq<T>, n: nat): seq<T> { if |s| > n then s[..n] else s }

  function Normalize(search: seq<string>): seq<string> { Cap(Sanitize(search), MAX_SEARCH) }

  function Kept(servers: seq<Nameserver>): (r: seq<IPv4>)
    ensures |r| <= |servers|
  {
    if servers == [] then []
    else
      var front, s := Kept(servers[..|servers| - 1]), servers[|servers| - 1];
      if s.NotV4? then front else front + [s.ip]
  }

  function Quads(ips: seq<IPv4>): (r: seq<string>)
    ensures |r| == |ips| && forall i :: 0 <= i < |ips| ==> r[i] == Quad(ips[i])
  {
    seq(|ips|, i requires 0 <= i < |ips| => Quad(ips[i]))
  }

  function ClampNdots(n: int): (r: int)
    ensures 1 <= r <= MAX_NDOTS
  {
    if n <= 0 then DEFAULT_NDOTS else if n > MAX_NDOTS then MAX_NDOTS else n
  }

  /** ConfigToEnvChecked; None for a pod without any IPv4 nameserver. */
  function Encode(c: Config): Option<Env> {
    var search := Join(Normalize(c.search), ' ');
    var ndots := Decimal(ClampNdots(c.ndots));
    match c.policy
    case ClusterFirst(server) => Some(Env(Some(server), None, None, Some(c.domain), Some(search), Some(ndots)))
    case Exclusive(servers) =>
      if Kept(servers) == [] then None
      else Some(Env(None, Some(Join(Quads(Kept(servers)), ' ')), Some("1"),
                    if c.domain != "" then Some(c.domain) else None, Some(search), Some(ndots)))
  }

  // ---- the C side ----

  datatype Shim = Shim(servers: seq<string>, exclusive: bool, domain: string, search: seq<string>, ndots: int)

  predicate Blank(c: char) { c == ' ' || c == '\t' }

  function Run(s: string): (i: nat)
    ensures i <= |s| && (forall k :: 0 <= k < i ==> !Blank(s[k])) && (i < |s| ==> Blank(s[i]))
  {
    if s == [] || Blank(s[0]) then 0 else 1 + Run(s[1..])
  }

  /** strtok_r on " \t". */
  function Tokens(s: string): seq<string>
    decreases |s|
  {
    if s == [] then []
    else if Blank(s[0]) then Tokens(s[1..])
    else [s[..Run(s)]] + Tokens(s[Run(s)..])
  }

  /** The search entries of a token list, at most `room` of them. */
  function Entries(tokens: seq<string>, room: nat): seq<string>
    decreases |tokens|
  {
    if tokens == [] || room == 0 then []
    else
      var t := StripDot(tokens[0]);
      if t == "" then Entries(tokens[1..], room) else [Cap(t, NAME_CAP)] + Entries(tokens[1..], room - 1)
  }

  function LoadSearch(v: string): seq<string> { Entries(Tokens(Cap(v, SEARCH_CAP)), MAX_SEARCH) }

  /** A list token without a port: the address, if it is one. */
  function UsableServers(tokens: seq<string>, room: nat): seq<string>
    decreases |tokens|
  {
    if tokens == [] || room == 0 then []
    else if |tokens[0]| < 64 && ParseQuad(tokens[0]).Some? then [tokens[0]] + UsableServers(tokens[1..], room - 1)
    else UsableServers(tokens[1..], room)
  }

  function DigitPrefix(s: string): (r: string)
    ensures AllDigits(r)
  {
    if s == [] || !IsDigit(s[0]) then [] else [s[0]] + DigitPrefix(s[1..])
  }

  function Atoi(s: string): int { Value(DigitPrefix(s)) }

  function OrEmpty(v: Option<string>): string { if v.Some? then v.value else "" }

  /** k3sm_load_cfg on an environment whose server list fits its 512-byte copy. */
  function Load(e: Env): Shim {
    var servers := if OrEmpty(e.servers) != "" then UsableServers(Tokens(e.servers.value), MAX_NS)
                   else if OrEmpty(e.server) != "" then [Cap(e.server.value, 63)] else [];
    Shim(servers, e.exclusive == Some("1"), Cap(OrEmpty(e.domain), NAME_CAP),
         LoadSearch(OrEmpty(e.search)), if OrEmpty(e.ndots) != "" then Atoi(e.ndots.value) else DEFAULT_NDOTS)
  }

  // ---- the loader reads back what the encoder wrote ----

  predicate Solid(s: string) { s != "" && forall i :: 0 <= i < |s| ==> !Blank(s[i]) }

  lemma {:induction false} RunOf(a: string, rest: string)
    requires Solid(a) && (rest == [] || Blank(rest[0]))
    ensures Run(a + rest) == |a|
  {
    assert forall k :: 0 <= k < |a| ==> (a + rest)[k] == a[k];
    assert rest != [] ==> (a + rest)[|a|] == rest[0];
  }

  lemma {:induction false} TokensCons(a: string, rest: string)
    requires Solid(a) && (rest == [] || Blank(rest[0]))
    ensures Tokens(a + rest) == [a] + Tokens(rest)
  {
    RunOf(a, rest);
    var s := a + rest;
    assert s[0] == a[0] && s[..|a|] == a && s[|a|..] == rest;
  }

  lemma {:induction false} TokensJoin(parts: seq<string>)
    requires forall p <- parts :: Solid(p)
    ensures Tokens(Join(parts, ' ')) == parts
    decreases |parts|
  {
    if parts == [] {
    } else if |parts| == 1 {
      assert parts[0] in parts;
      TokensCons(parts[0], "");
      assert parts[0] + "" == parts[0] && Join(parts, ' ') == parts[0];
      assert parts == [parts[0]];
    } else {
      assert parts[0] in parts;
      var rest := Join(parts[1..], ' ');
      TokensJoin(parts[1..]);
      TokensCons(parts[0], [' '] + rest);
      assert ([' '] + rest)[1..] == rest;
      assert Join(parts, ' ') == parts[0] + ([' '] + rest);
      assert [parts[0]] + parts[1..] == parts;
    }
  }

  predicate Domain(s: string) { s != "" && forall c <- s :: DomainChar(c) }

  lemma {:induction false} SanitizedDomains(search: seq<string>)
    ensures forall s <- Sanitize(search) :: Domain(s)
    decreases |search|
  {
    if search != [] { SanitizedDomains(search[..|search| - 1]); }
  }

  lemma DomainIsSolid(s: string)
    requires Domain(s)
    ensures Solid(s)
  {
    assert forall i :: 0 <= i < |s| ==> s[i] in s;
  }

  /** The domains a search list expands with: one trailing dot stripped, empty ones gone. */
  function Suffixes(search: seq<string>): (r: seq<string>)
    ensures |r| <= |search| && forall d <- r :: d != ""
  {
    if search == [] then []
    else if StripDot(search[0]) == "" then Suffixes(search[1..])
    else [StripDot(search[0])] + Suffixes(search[1..])
  }

  function Capped(ds: seq<string>): (r: seq<string>)
    ensures |r| == |ds| && forall i :: 0 <= i < |ds| ==> r[i] == Cap(ds[i], NAME_CAP)
  {
    if ds == [] then [] else [Cap(ds[0], NAME_CAP)] + Capped(ds[1..])
  }

  lemma {:induction false} EntriesAreSuffixes(search: seq<string>, room: nat)
    requires |search| <= room
    ensures Entries(search, room) == Capped(Suffixes(search))
    decreases |search|
  {
    if search != [] {
      if StripDot(search[0]) == "" {
        EntriesAreSuffixes(search[1..], room);
      } else {
        EntriesAreSuffixes(search[1..], room - 1);
        var d, rest := StripDot(search[0]), Suffixes(search[1..]);
        assert ([d] + rest)[1..] == rest;
      }
    }
  }

  /** A list the encoder emits whole and the loader's buffer holds. */
  predicate Fits(search: seq<string>) { Normalize(search) == search && |Join(search, ' ')| <= SEARCH_CAP }

  lemma {:induction false} SearchReadsBack(search: seq<string>)
    requires Fits(search)
    ensures LoadSearch(Join(Normalize(search), ' ')) == Capped(Suffixes(search))
    ensures |search| <= MAX_SEARCH && forall d <- search :: Domain(d)
  {
    SanitizedDomains(search);
    var kept := Sanitize(search);
    assert forall d <- Cap(kept, MAX_SEARCH) :: d in kept;
    forall d | d in search ensures Solid(d) { DomainIsSolid(d); }
    TokensJoin(search);
    EntriesAreSuffixes(search, MAX_SEARCH);
  }

  lemma QuadIsSolid(ip: IPv4)
    ensures Solid(Quad(ip)) && |Quad(ip)| < 64 && ParseQuad(Quad(ip)) == Some(ip)
  {
    QuadShape(ip);
    QuadParses(ip);
    assert forall i :: 0 <= i < |Quad(ip)| ==> Quad(ip)[i] in Quad(ip);
  }

  lemma {:induction false} UsableQuads(ips: seq<IPv4>, room: nat)
    requires |ips| <= room
    ensures UsableServers(Quads(ips), room) == Quads(ips)
    decreases |ips|
  {
    if ips != [] {
      QuadIsSolid(ips[0]);
      assert Quads(ips)[1..] == Quads(ips[1..]);
      UsableQuads(ips[1..], room - 1);
    }
  }

  lemma {:induction false} ServersReadBack(ips: seq<IPv4>)
    requires ips != [] && |ips| <= MAX_NS
    ensures UsableServers(Tokens(Join(Quads(ips), ' ')), MAX_NS) == Quads(ips)
    ensures Join(Quads(ips), ' ') != ""
  {
    forall q | q in Quads(ips) ensures Solid(q) {
      var i :| 0 <= i < |ips| && Quads(ips)[i] == q;
      QuadIsSolid(ips[i]);
    }
    TokensJoin(Quads(ips));
    UsableQuads(ips, MAX_NS);
  }

  lemma {:induction false} PrefixOfDigits(s: string)
    requires AllDigits(s)
    ensures DigitPrefix(s) == s
    decreases |s|
  {
    if s != [] {
      assert s[0] in s && AllDigits(s[1..]);
      PrefixOfDigits(s[1..]);
    }
  }

  lemma NdotsReadBack(n: nat)
    ensures Atoi(Decimal(n)) == n
  {
    PrefixOfDigits(Decimal(n));
    ValueOfDecimal(n);
  }

  /** The nameservers the resolver asks, in order. */
  function Servers(c: Config): seq<string> {
    match c.policy
    case ClusterFirst(server) => [server]
    case Exclusive(servers) => Quads(Kept(servers))
  }

  /** A cluster server that is an address, or one to three IPv4 servers of the pod's own. */
  predicate Servable(c: Config) {
    && (c.policy.ClusterFirst? ==> 1 <= |c.policy.server| < 64)
    && (c.policy.Exclusive? ==> 1 <= |Kept(c.policy.servers)| <= MAX_NS)
  }

  /** A configuration whose search list is normalised and fits, whose ndots the encoder
      leaves alone, and whose nameservers fit the shim's table. */
  predicate Plain(c: Config) { Fits(c.search) && 1 <= c.ndots <= MAX_NDOTS && Servable(c) }

  lemma {:induction false} JoinLength(parts: seq<string>)
    requires forall p <- parts :: |p| <= NAME_CAP
    ensures |Join(parts, ' ')| < 256 * |parts| || parts == []
    decreases |parts|
  {
    if |parts| == 1 {
      assert parts[0] in parts;
    } else if parts != [] {
      assert parts[0] in parts;
      JoinLength(parts[1..]);
    }
  }

  /** Only a domain over 255 bytes can overrun the loader's buffer. */
  lemma {:induction false} ShortDomainsFit(search: seq<string>)
    requires Normalize(search) == search && forall d <- search :: |d| <= NAME_CAP
    ensures Fits(search)
  {
    JoinLength(search);
  }

  lemma {:induction false} ServersSurvive(c: Config)
    requires Servable(c)
    ensures Encode(c).Some? && Load(Encode(c).value).servers == Servers(c)
    ensures Load(Encode(c).value).exclusive == c.policy.Exclusive?
  {
    if c.policy.Exclusive? { ServersReadBack(Kept(c.policy.servers)); }
  }

  /** The shim's view of an encoded configuration: the same servers in the same order, the
      same suffixes, domain and ndots, each string cut at its buffer. */
  lemma {:induction false} ShimReadsConfig(c: Config)
    requires Plain(c)
    ensures Encode(c).Some?
    ensures Load(Encode(c).value)
            == Shim(Servers(c), c.policy.Exclusive?, Cap(c.domain, NAME_CAP), Capped(Suffixes(c.search)), c.ndots)
  {
    SearchReadsBack(c.search);
    NdotsReadBack(c.ndots);
    if c.policy.Exclusive? { ServersReadBack(Kept(c.policy.servers)); }
  }
}
