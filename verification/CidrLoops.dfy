/** The encoders' and the parser's own loops (pkg/podnet/env.go:176-277;
    shim/getaddrinfo_shim.c:1696-1776, 1823-1876), each proved to be its scope. */
module CidrLoops {
  import opened Text
  import opened Inet
  import opened CidrEnv

  // ---- Go ----

  lemma {:induction false} ScopeStep(cidrs: seq<RawPrefix>, i: nat, link: bool)
    requires (forall c <- cidrs :: Legal(c)) && i < |cidrs|
    ensures var front := Scope(cidrs[..i], link);
            Scope(cidrs[..i + 1], link) ==
              if !Usable(cidrs[i], link) || Unmapped(cidrs[i]).value.Masked() in front then front
              else front + [Unmapped(cidrs[i]).value.Masked()]
  {
    assert cidrs[..i + 1][..i] == cidrs[..i];
  }

  /** A masked text is a duplicate exactly when its prefix is. */
  lemma {:induction false} TextIn(p: Prefix, ps: seq<Prefix>)
    requires p.Ok() && forall q <- ps :: q.Ok()
    ensures p.ToString() in Texts(ps) <==> p in ps
  {
    if p.ToString() in Texts(ps) {
      var i :| 0 <= i < |ps| && Texts(ps)[i] == p.ToString();
      assert ps[i] in ps;
      PrefixParses(p);
      PrefixParses(ps[i]);
    }
    if p in ps {
      var i :| 0 <= i < |ps| && ps[i] == p;
      assert Texts(ps)[i] == p.ToString();
    }
  }

  lemma TextsSnoc(ps: seq<Prefix>, p: Prefix)
    ensures Texts(ps + [p]) == Texts(ps) + [p.ToString()]
  {
  }

  /** The CIDR loop of BindDisciplineEnvWithCIDRs. */
  method ClusterTexts(cidrs: seq<RawPrefix>) returns (out: seq<string>)
    requires forall c <- cidrs :: Legal(c)
    ensures out == Texts(Scope(cidrs, false))
  {
    out := [];
    var seen: set<string> := {};
    for i := 0 to |cidrs|
      invariant out == Texts(Scope(cidrs[..i], false)) && forall t :: t in seen <==> t in out
    {
      ScopeStep(cidrs, i, false);
      assert cidrs[i] in cidrs;
      var p := Unmapped(cidrs[i]);
      if p.None? || p.value.bits < 1 { continue; }
      var masked := p.value.Masked();
      TextIn(masked, Scope(cidrs[..i], false));
      if masked.ToString() in seen { continue; }
      TextsSnoc(Scope(cidrs[..i], false), masked);
      seen := seen + {masked.ToString()};
      out := out + [masked.ToString()];
    }
    assert cidrs[..|cidrs|] == cidrs;
  }

  /** BindDisciplineEnvWithCIDRs for a usable pod address: the list value, if the key is set. */
  method ClusterList(cidrs: seq<RawPrefix>) returns (v: Option<string>)
    requires forall c <- cidrs :: Legal(c)
    ensures v == EncodeScope(Scope(cidrs, false))
  {
    var out := ClusterTexts(cidrs);
    if |out| == 0 || |out| > MAX_CIDRS { return None; }
    v := Some(Join(out, ','));
  }

  predicate Holds(ps: seq<Prefix>, ip: IPv4)
    requires forall p <- ps :: p.Ok()
  {
    exists p <- ps :: p.Contains(ip)
  }

  predicate HasEdge(ps: seq<Prefix>, ip: IPv4)
    requires forall p <- ps :: p.Ok()
  {
    exists p <- ps :: Edge(p, ip)
  }

  lemma SnocFlags(ps: seq<Prefix>, p: Prefix, ip: IPv4)
    requires (forall q <- ps :: q.Ok()) && p.Ok()
    ensures Holds(ps + [p], ip) <==> Holds(ps, ip) || p.Contains(ip)
    ensures HasEdge(ps + [p], ip) <==> HasEdge(ps, ip) || Edge(p, ip)
  {
    assert forall q :: q in ps + [p] <==> q in ps || q == p;
  }

  /** The CIDR loop of InterconnectEnv: the scope, and whether it holds the address and
      has it on an edge. */
  method LinkScan(ip: IPv4, cidrs: seq<RawPrefix>) returns (ps: seq<Prefix>, inScope: bool, edge: bool)
    requires forall c <- cidrs :: Legal(c)
    ensures ps == Scope(cidrs, true) && inScope == Holds(ps, ip) && edge == HasEdge(ps, ip)
  {
    ps, inScope, edge := [], false, false;
    var seen: set<Prefix> := {};
    for i := 0 to |cidrs|
      invariant ps == Scope(cidrs[..i], true) && (forall p :: p in seen <==> p in ps)
      invariant inScope == Holds(ps, ip) && edge == HasEdge(ps, ip)
    {
      ScopeStep(cidrs, i, true);
      assert cidrs[i] in cidrs;
      var raw := Unmapped(cidrs[i]);
      if raw.None? { continue; }
      var p := raw.value.Masked();
      if p.bits < LINK_LOCAL.bits || !LINK_LOCAL.Contains(p.addr) { continue; }
      if p in seen { continue; }
      SnocFlags(ps, p, ip);
      seen := seen + {p};
      ps := ps + [p];
      if p.Contains(ip) {
        inScope := true;
        if p.bits <= 30 && (ip == p.addr || ip == LastAddr(p)) { edge := true; }
      }
    }
    assert cidrs[..|cidrs|] == cidrs;
  }

  /** InterconnectEnv. */
  method InterconnectEnv(ip: IPv4, cidrs: seq<RawPrefix>) returns (v: Option<Pair>)
    requires forall c <- cidrs :: Legal(c)
    ensures v == EncodePair(ip, cidrs)
  {
    if ip == 0 { return None; }
    var ps, inScope, edge := LinkScan(ip, cidrs);
    if |ps| == 0 || |ps| > MAX_CIDRS || !inScope || edge { return None; }
    v := Some(Pair(Quad(ip), Join(Texts(ps), ',')));
  }

  // ---- C ----

  /** The entries before `rest`, if everything parses. */
  function Prefixed(done: seq<Entry>, rest: Option<seq<Entry>>): Option<seq<Entry>> {
    if rest.None? then None else Some(done + rest.value)
  }

  /** The parse with `out` read and the tokens from i still to go. */
  function Left(toks: seq<string>, i: nat, out: seq<Entry>): Option<seq<Entry>>
    requires i <= |toks|
  {
    Prefixed(out, ParseTokens(toks[i..], i))
  }

  lemma {:induction false} LeftStep(toks: seq<string>, i: nat, out: seq<Entry>, e: Option<Entry>)
    requires i < |toks| && e == ParseToken(toks[i])
    ensures Left(toks, i, out) == if e.None? || i >= MAX_CIDRS then None else Left(toks, i + 1, out + [e.value])
  {
    assert toks[i..][0] == toks[i] && toks[i..][1..] == toks[i + 1..];
    var rest := ParseTokens(toks[i + 1..], i + 1);
    if e.Some? && rest.Some? { Associative(out, [e.value], rest.value); }
  }

  lemma {:induction false} LeftEnds(toks: seq<string>, out: seq<Entry>)
    ensures Left(toks, 0, []) == ParseTokens(toks, 0) && Left(toks, |toks|, out) == Some(out)
  {
    assert toks[0..] == toks && toks[|toks|..] == [] && out + [] == out;
    var all := ParseTokens(toks, 0);
    if all.Some? { assert [] + all.value == all.value; }
  }

  /** k3sm_parse_cidrs, token by token. */
  method ParseList(spec: string) returns (r: Option<seq<Entry>>)
    ensures r == ParseCidrs(spec)
  {
    if |spec| == 0 || |spec| >= SPEC_CAP { return None; }
    r := ReadTokens(Split(spec, ','));
  }

  method ReadTokens(toks: seq<string>) returns (r: Option<seq<Entry>>)
    ensures r == ParseTokens(toks, 0)
  {
    var out: seq<Entry> := [];
    LeftEnds(toks, out);
    ghost var goal := ParseTokens(toks, 0);
    for i := 0 to |toks|
      invariant goal == Left(toks, i, out)
    {
      var e := ParseToken(toks[i]);
      LeftStep(toks, i, out, e);
      if e.None? || i >= MAX_CIDRS { return None; }
      out := out + [e.value];
    }
    LeftEnds(toks, out);
    r := Some(out);
  }

  method AllInRange(t: seq<Entry>) returns (ok: bool)
    ensures ok == forall e <- t :: InRange(e)
  {
    for i := 0 to |t|
      invariant forall j :: 0 <= j < i ==> InRange(t[j])
    {
      if !InRange(t[i]) {
        assert t[i] in t;
        return false;
      }
    }
    ok := true;
  }

  method OnEdge(t: seq<Entry>, a: nat) returns (found: bool)
    ensures found == exists e <- t :: EdgeOf(e, a)
  {
    for i := 0 to |t|
      invariant forall j :: 0 <= j < i ==> !EdgeOf(t[j], a)
    {
      if EdgeOf(t[i], a) {
        assert t[i] in t;
        return true;
      }
    }
    found := false;
  }

  /** k3sm_interconnect_cfg_init: whether the scope is switched on. */
  method InterconnectInit(pair: Pair) returns (on: bool)
    ensures on == ScopeOn(pair)
  {
    on := false;
    if pair.ip == "" || pair.cidrs == "" { return; }
    var ip := ParseQuad(pair.ip);
    if ip.None? { return; }
    var tab := ParseList(pair.cidrs);
    if tab.None? || |tab.value| == 0 { return; }
    var inside := AllInRange(tab.value);
    if !inside || !AddrIn(tab.value, ip.value) { return; }
    var edge := OnEdge(tab.value, ip.value);
    on := !edge;
  }
}
