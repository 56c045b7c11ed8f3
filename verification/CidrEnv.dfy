/** The shim's destination scopes (pkg/podnet/env.go:138-277; shim/getaddrinfo_shim.c:
    1696-1776, 1823-1876): the Go encoders of the cluster and interconnect prefixes and
    the C parser that reads them into its fixed tables. */
module CidrEnv {
  import opened Text
  import opened Inet

  const MAX_CIDRS := 8
  const SPEC_CAP := 168
  const TOKEN_CAP := 24
  const LINK_LOCAL := Prefix(0xa9fe0000, 16)

  // ---- the Go side ----

  /** A netip.Prefix as a caller may pass it: invalid, IPv4, IPv4-in-IPv6 with any of its
      128 lengths, or plain IPv6. */
  datatype RawPrefix = Invalid | V4(p: Prefix) | Mapped(addr: IPv4, bits: nat) | V6

  predicate Legal(r: RawPrefix) { r.V4? ==> r.p.Ok() }

  /** The prefix after Unmap: a mapped length over 32 is no IPv4 prefix. */
  function Unmapped(r: RawPrefix): (o: Option<Prefix>)
    requires Legal(r)
    ensures o.Some? ==> o.value.Ok()
  {
    match r
    case V4(p) => Some(p)
    case Mapped(addr, bits) => if bits <= 32 then Some(Prefix(addr, bits)) else None
    case _ => None
  }

  /** A cluster scope skips /0; an interconnect scope keeps only prefixes of 169.254.0.0/16. */
  predicate Admitted(p: Prefix, link: bool)
    requires p.Ok()
  {
    if link then p.bits >= 16 && LINK_LOCAL.Contains(p.addr) else p.bits >= 1
  }

  predicate Usable(r: RawPrefix, link: bool) {
    Legal(r) && Unmapped(r).Some? && Admitted(Unmapped(r).value.Masked(), link)
  }

  /** The usable prefixes, masked, in order and without duplicates. */
  function Scope(cidrs: seq<RawPrefix>, link: bool): (r: seq<Prefix>)
    requires forall c <- cidrs :: Legal(c)
    ensures forall p <- r :: p.Ok() && Admitted(p, link)
  {
    if cidrs == [] then []
    else
      var front, last := Scope(cidrs[..|cidrs| - 1], link), cidrs[|cidrs| - 1];
      if !Usable(last, link) || Unmapped(last).value.Masked() in front then front
      else front + [Unmapped(last).value.Masked()]
  }

  function Texts(ps: seq<Prefix>): (r: seq<string>)
    ensures |r| == |ps| && forall i :: 0 <= i < |ps| ==> r[i] == ps[i].ToString()
  {
    seq(|ps|, i requires 0 <= i < |ps| => ps[i].ToString())
  }

  /** The list value, or None when the key is left out. */
  function EncodeScope(ps: seq<Prefix>): Option<string> {
    if 1 <= |ps| <= MAX_CIDRS then Some(Join(Texts(ps), ',')) else None
  }

  function LastAddr(p: Prefix): nat
    requires p.Ok()
  {
    p.Masked().addr + p.Span() - 1
  }

  predicate Edge(p: Prefix, ip: IPv4)
    requires p.Ok()
  {
    p.Contains(ip) && p.bits <= 30 && (ip == p.addr || ip == LastAddr(p))
  }

  datatype Pair = Pair(ip: string, cidrs: string)

  /** InterconnectEnv for an IPv4 address (a mapped one arrives unmapped); None injects
      nothing. */
  function EncodePair(ip: IPv4, cidrs: seq<RawPrefix>): Option<Pair>
    requires forall c <- cidrs :: Legal(c)
  {
    var ps := Scope(cidrs, true);
    if ip == 0 || EncodeScope(ps).None? || !(exists p <- ps :: p.Contains(ip)) || (exists p <- ps :: Edge(p, ip))
    then None
    else Some(Pair(Quad(ip), EncodeScope(ps).value))
  }

  // ---- the C side ----

  /** One table entry: the masked network and its prefix length. */
  datatype Entry = Entry(net: nat, bits: nat)

  /** Address & mask. */
  function And(a: nat, bits: nat): nat
    requires bits <= 32
  {
    ModLe(a, Pow2(32 - bits));
    a - a % Pow2(32 - bits)
  }

  /** One token of k3sm_parse_cidrs. */
  function ParseToken(tok: string): Option<Entry> {
    if |tok| == 0 || |tok| >= TOKEN_CAP then None
    else
      var i := Find(tok, '/');
      if i == |tok| || i == 0 then None
      else
        var addr, bits := ParseQuad(tok[..i]), tok[i + 1..];
        if addr.None? || bits == [] || !AllDigits(bits) || Value(bits) < 1 || Value(bits) > 32 then None
        else Some(Entry(And(addr.value, Value(bits)), Value(bits)))
  }

  function ParseTokens(toks: seq<string>, count: nat): Option<seq<Entry>> {
    if toks == [] then Some([])
    else
      var e := ParseToken(toks[0]);
      if e.None? || count >= MAX_CIDRS then None
      else
        var rest := ParseTokens(toks[1..], count + 1);
        if rest.None? then None else Some([e.value] + rest.value)
  }

  /** k3sm_parse_cidrs; None is its -1. */
  function ParseCidrs(spec: string): Option<seq<Entry>> {
    if |spec| == 0 || |spec| >= SPEC_CAP then None else ParseTokens(Split(spec, ','), 0)
  }

  predicate Matches(e: Entry, a: nat)
    requires e.bits <= 32
  {
    And(a, e.bits) == e.net
  }

  /** k3sm_addr_in. */
  predicate AddrIn(tab: seq<Entry>, a: nat) { exists e <- tab :: e.bits <= 32 && Matches(e, a) }

  predicate InRange(e: Entry) { 16 <= e.bits <= 32 && And(e.net, 16) == LINK_LOCAL.addr }

  predicate EdgeOf(e: Entry, a: nat) {
    e.bits <= 30 && Matches(e, a) && (a == e.net || a == e.net + Pow2(32 - e.bits) - 1)
  }

  /** k3sm_interconnect_cfg_init: whether the scope is on. */
  predicate ScopeOn(pair: Pair) {
    var ip, tab := ParseQuad(pair.ip), ParseCidrs(pair.cidrs);
    && pair.ip != "" && pair.cidrs != "" && ip.Some? && tab.Some? && |tab.value| > 0
    && (forall e <- tab.value :: InRange(e)) && AddrIn(tab.value, ip.value)
    && !(exists e <- tab.value :: EdgeOf(e, ip.value))
  }

  // ---- one prefix ----

  function EntryOf(p: Prefix): Entry
    requires p.Ok()
  {
    Entry(And(p.addr, p.bits), p.bits)
  }

  lemma {:induction false} TokenParses(p: Prefix)
    requires p.Ok() && p.bits >= 1
    ensures ParseToken(p.ToString()) == Some(EntryOf(p))
    ensures |p.ToString()| <= 18 && Lacks(p.ToString(), ',')
  {
    PrefixText(p);
    PrefixLacks(p, ',');
    var tok, bits := p.ToString(), Decimal(p.bits);
    QuadShape(p.addr);
    assert Lacks(Quad(p.addr), '/') by {
      assert forall i :: 0 <= i < |Quad(p.addr)| ==> Quad(p.addr)[i] in Quad(p.addr);
    }
    FindAppend(Quad(p.addr), '/', bits);
    assert tok == Quad(p.addr) + ['/'] + bits;
    assert tok[..|Quad(p.addr)|] == Quad(p.addr) && tok[|Quad(p.addr)| + 1..] == bits;
    QuadParses(p.addr);
    ValueOfDecimal(p.bits);
  }

  /** C's mask comparison is Go's containment. */
  lemma {:induction false} MatchIsContains(p: Prefix, a: IPv4)
    requires p.Ok()
    ensures Matches(EntryOf(p), a) <==> p.Contains(a)
  {
    var n := p.Span();
    SameQuotient(n, a, p.addr);
  }

  // ---- the list ----

  function Entries(ps: seq<Prefix>): (r: seq<Entry>)
    requires forall p <- ps :: p.Ok()
    ensures |r| == |ps| && forall i :: 0 <= i < |ps| ==> r[i] == EntryOf(ps[i])
  {
    if ps == [] then [] else [EntryOf(ps[0])] + Entries(ps[1..])
  }

  lemma {:induction false} TokensParse(ps: seq<Prefix>, count: nat)
    requires (forall p <- ps :: p.Ok() && p.bits >= 1) && count + |ps| <= MAX_CIDRS
    ensures ParseTokens(Texts(ps), count) == Some(Entries(ps))
    decreases |ps|
  {
    if ps != [] {
      TokenParses(ps[0]);
      TokensParse(ps[1..], count + 1);
      assert Texts(ps)[1..] == Texts(ps[1..]);
    }
  }

  lemma {:induction false} JoinedLength(ps: seq<Prefix>)
    requires forall p <- ps :: p.Ok() && p.bits >= 1
    ensures |Join(Texts(ps), ',')| <= 19 * |ps| && (ps != [] ==> |Join(Texts(ps), ',')| > 0)
    decreases |ps|
  {
    if ps != [] {
      PrefixText(ps[0]);
      JoinedLength(ps[1..]);
      assert Texts(ps)[1..] == Texts(ps[1..]);
    }
  }

  /** Every list the encoder emits fits the C buffers and parses to the same prefixes. */
  lemma {:induction false} ScopeParses(ps: seq<Prefix>)
    requires (forall p <- ps :: p.Ok() && p.bits >= 1) && EncodeScope(ps).Some?
    ensures |EncodeScope(ps).value| < SPEC_CAP && ParseCidrs(EncodeScope(ps).value) == Some(Entries(ps))
  {
    JoinedLength(ps);
    forall t | t in Texts(ps) ensures Lacks(t, ',') {
      var i :| 0 <= i < |ps| && Texts(ps)[i] == t;
      PrefixLacks(ps[i], ',');
    }
    SplitJoin(Texts(ps), ',');
    TokensParse(ps, 0);
  }

  lemma {:induction false} ScopeMembers(cidrs: seq<RawPrefix>, link: bool)
    requires forall c <- cidrs :: Legal(c)
    ensures forall p <- Scope(cidrs, link) :: exists c <- cidrs :: Usable(c, link) && p == Unmapped(c).value.Masked()
    ensures forall c <- cidrs :: Usable(c, link) ==> Unmapped(c).value.Masked() in Scope(cidrs, link)
    decreases |cidrs|
  {
    if cidrs != [] {
      var n := |cidrs| - 1;
      ScopeMembers(cidrs[..n], link);
      assert cidrs == cidrs[..n] + [cidrs[n]];
    }
  }

  /** Some usable prefix of the caller's list holds the address. */
  predicate InScope(cidrs: seq<RawPrefix>, link: bool, a: IPv4)
    requires forall c <- cidrs :: Legal(c)
  {
    exists c <- cidrs :: Usable(c, link) && Unmapped(c).value.Contains(a)
  }

  lemma {:induction false} ScopeHolds(cidrs: seq<RawPrefix>, link: bool, a: IPv4, c: RawPrefix)
    requires (forall c <- cidrs :: Legal(c)) && c in cidrs && Usable(c, link)
    ensures Unmapped(c).value.Contains(a) ==> exists p <- Scope(cidrs, link) :: p.Contains(a)
  {
    ScopeMembers(cidrs, link);
    MaskedIsSame(Unmapped(c).value, a);
    assert Unmapped(c).value.Masked() in Scope(cidrs, link);
  }

  lemma {:induction false} HeldByScope(cidrs: seq<RawPrefix>, link: bool, a: IPv4, p: Prefix)
    requires (forall c <- cidrs :: Legal(c)) && p in Scope(cidrs, link) && p.Contains(a)
    ensures InScope(cidrs, link, a)
  {
    ScopeMembers(cidrs, link);
    var c :| c in cidrs && Usable(c, link) && p == Unmapped(c).value.Masked();
    MaskedIsSame(Unmapped(c).value, a);
  }

  lemma {:induction false} InScopeExactly(cidrs: seq<RawPrefix>, link: bool, a: IPv4)
    requires forall c <- cidrs :: Legal(c)
    ensures InScope(cidrs, link, a) <==> exists p <- Scope(cidrs, link) :: p.Contains(a)
  {
    if c :| c in cidrs && Usable(c, link) && Unmapped(c).value.Contains(a) { ScopeHolds(cidrs, link, a, c); }
    if p :| p in Scope(cidrs, link) && p.Contains(a) { HeldByScope(cidrs, link, a, p); }
  }

  lemma {:induction false} AddrInExactly(ps: seq<Prefix>, a: IPv4)
    requires forall p <- ps :: p.Ok()
    ensures AddrIn(Entries(ps), a) <==> exists p <- ps :: p.Contains(a)
  {
    var es := Entries(ps);
    if e :| e in es && e.bits <= 32 && Matches(e, a) {
      var i :| 0 <= i < |es| && es[i] == e;
      MatchIsContains(ps[i], a);
      assert ps[i] in ps;
    }
    if p :| p in ps && p.Contains(a) {
      var i :| 0 <= i < |ps| && ps[i] == p;
      MatchIsContains(p, a);
      assert es[i] in es;
    }
  }

  /** An emitted cluster list is accepted by the C parser, and an address is in the shim's
      scope exactly when some usable prefix of the caller's list holds it. */
  lemma {:induction false} ClusterScopeReadsBack(cidrs: seq<RawPrefix>, a: IPv4)
    requires (forall c <- cidrs :: Legal(c)) && EncodeScope(Scope(cidrs, false)).Some?
    ensures var tab := ParseCidrs(EncodeScope(Scope(cidrs, false)).value);
            tab.Some? && 1 <= |tab.value| <= MAX_CIDRS && (AddrIn(tab.value, a) <==> InScope(cidrs, false, a))
  {
    JoinedPins(cidrs, false, a);
  }

  // ---- the interconnect pair ----

  lemma {:induction false} ScopeMasked(cidrs: seq<RawPrefix>, link: bool)
    requires forall c <- cidrs :: Legal(c)
    ensures forall p <- Scope(cidrs, link) :: p.Masked() == p
  {
    ScopeMembers(cidrs, link);
    forall p | p in Scope(cidrs, link) ensures p.Masked() == p {
      var c :| c in cidrs && Usable(c, link) && p == Unmapped(c).value.Masked();
      MaskedIsSame(Unmapped(c).value, 0);
    }
  }

  lemma Pow16()
    ensures Pow2(16) == 0x1_0000
  {
    assert Pow2(4) == 16;
    assert Pow2(8) == 16 * Pow2(4);
    assert Pow2(12) == 16 * Pow2(8);
    assert Pow2(16) == 16 * Pow2(12);
  }

  /** An admitted, masked prefix passes C's range test, and the two edge rules are one. */
  lemma {:induction false} LinkEntry(p: Prefix, ip: IPv4)
    requires p.Ok() && p.Masked() == p && Admitted(p, true)
    ensures InRange(EntryOf(p)) && (EdgeOf(EntryOf(p), ip) <==> Edge(p, ip))
  {
    Pow16();
    assert LINK_LOCAL.Span() == 0x1_0000;
    SameQuotient(0x1_0000, p.addr, LINK_LOCAL.addr);
    assert EntryOf(p).net == p.addr;
    MatchIsContains(p, ip);
  }

  lemma {:induction false} LinkEntries(ps: seq<Prefix>, ip: IPv4)
    requires forall p <- ps :: p.Ok() && p.Masked() == p && Admitted(p, true)
    ensures forall e <- Entries(ps) :: InRange(e)
    ensures (exists e <- Entries(ps) :: EdgeOf(e, ip)) ==> exists p <- ps :: Edge(p, ip)
  {
    var es := Entries(ps);
    forall e | e in es ensures InRange(e) && (EdgeOf(e, ip) ==> exists p <- ps :: Edge(p, ip)) {
      var i :| 0 <= i < |es| && es[i] == e;
      assert ps[i] in ps;
      LinkEntry(ps[i], ip);
    }
  }

  /** What C tests of a pair once both strings have parsed. */
  lemma {:induction false} ParsedSwitchesOn(pair: Pair, ip: IPv4, tab: seq<Entry>)
    requires pair.ip != "" && pair.cidrs != "" && ParseQuad(pair.ip) == Some(ip) && ParseCidrs(pair.cidrs) == Some(tab)
    requires |tab| > 0 && (forall e <- tab :: InRange(e)) && AddrIn(tab, ip) && !(exists e <- tab :: EdgeOf(e, ip))
    ensures ScopeOn(pair)
  {
  }

  lemma {:induction false} JoinedSwitchesOn(ps: seq<Prefix>, ip: IPv4)
    requires (forall p <- ps :: p.Ok() && p.Masked() == p && Admitted(p, true)) && EncodeScope(ps).Some?
    requires (exists p <- ps :: p.Contains(ip)) && !(exists p <- ps :: Edge(p, ip))
    ensures ScopeOn(Pair(Quad(ip), EncodeScope(ps).value))
  {
    ScopeParses(ps);
    JoinedLength(ps);
    AddrInExactly(ps, ip);
    LinkEntries(ps, ip);
    QuadParses(ip);
    QuadShape(ip);
    ParsedSwitchesOn(Pair(Quad(ip), EncodeScope(ps).value), ip, Entries(ps));
  }

  lemma {:induction false} JoinedPins(cidrs: seq<RawPrefix>, link: bool, a: IPv4)
    requires (forall c <- cidrs :: Legal(c)) && EncodeScope(Scope(cidrs, link)).Some?
    ensures var tab := ParseCidrs(EncodeScope(Scope(cidrs, link)).value);
            tab.Some? && 1 <= |tab.value| <= MAX_CIDRS && (AddrIn(tab.value, a) <==> InScope(cidrs, link, a))
  {
    var ps := Scope(cidrs, link);
    ScopeParses(ps);
    AddrInExactly(ps, a);
    InScopeExactly(cidrs, link, a);
  }

  /** An emitted interconnect pair always switches the scope on, and pins exactly the
      destinations of the caller's usable prefixes. */
  lemma {:induction false} PairSwitchesOn(ip: IPv4, cidrs: seq<RawPrefix>, a: IPv4)
    requires (forall c <- cidrs :: Legal(c)) && EncodePair(ip, cidrs).Some?
    ensures ScopeOn(EncodePair(ip, cidrs).value)
    ensures AddrIn(ParseCidrs(EncodePair(ip, cidrs).value.cidrs).value, a) <==> InScope(cidrs, true, a)
  {
    ScopeMasked(cidrs, true);
    JoinedSwitchesOn(Scope(cidrs, true), ip);
    JoinedPins(cidrs, true, a);
  }
}
