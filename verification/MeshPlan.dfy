/** The desired mesh (pkg/mesh/plan.go:107-305, 382-411): the peers and routes a snapshot of
    MeshPeers asks for. Validate, WithDefaults, the key decoding and the prefix parser are
    taken by their results. */
module MeshPlan {
  import opened Text
  import opened Inet
  import opened MeshUapi
  import opened MeshUapiEffect
  import R = MeshRoutes

  /** A parsed prefix. IPv6 ones are only ever compared. */
  datatype Cidr = V4(p: Prefix) | V6(net: string, bits: nat)

  predicate CidrOk(c: Cidr) { c.V4? ==> c.p.Ok() }

  function Mask(c: Cidr): (m: Cidr)
    requires CidrOk(c)
    ensures CidrOk(m)
  {
    if c.V4? then V4(c.p.Masked()) else c
  }

  datatype Link = Underlay | Direct | Unknown
  datatype Candidate = Candidate(link: Link, address: string)

  /** A MeshPeer: whether it validates once unknown candidates are dropped, and what its
      fields decode to (None for what does not). */
  datatype Spec = Spec(valid: bool, schema: bool, podCIDR: Option<Cidr>, allowed: seq<Option<Cidr>>,
                       key: Option<string>, keepalive: nat, endpoint: string, candidates: seq<Candidate>)

  predicate SpecOk(s: Spec) {
    (s.podCIDR.Some? ==> CidrOk(s.podCIDR.value)) && forall a <- s.allowed :: a.Some? ==> CidrOk(a.value)
  }

  datatype PeerPlan = PeerPlan(key: string, endpoint: string, allowed: seq<Cidr>, keepalive: nat, podCIDR: Cidr)

  // ---- one peer ----

  /** selectEndpoint: the first underlay candidate, else Endpoint. */
  function SelectEndpoint(endpoint: string, cs: seq<Candidate>): string {
    if cs == [] then endpoint else if cs[0].link.Underlay? then cs[0].address else SelectEndpoint(endpoint, cs[1..])
  }

  /** AllowedIPsMatchCIDR. */
  predicate AllowedMatch(allowed: seq<Option<Cidr>>, pod: Cidr)
    requires forall a <- allowed :: a.Some? ==> CidrOk(a.value)
  {
    allowed != [] && forall a <- allowed :: a.Some? && Mask(a.value) == pod
  }

  const KEEPALIVE := 25

  datatype Fate = Own | Skip | Use(peer: PeerPlan)

  /** What BuildPlan makes of one MeshPeer. */
  function Judge(self: Prefix, s: Spec): Fate
    requires self.Ok() && SpecOk(s)
  {
    if !s.valid || !s.schema || s.podCIDR.None? then Skip
    else
      var pod := Mask(s.podCIDR.value);
      if pod == V4(self.Masked()) then Own
      else if !AllowedMatch(s.allowed, pod) || s.key.None? then Skip
      else Use(PeerPlan(s.key.value, SelectEndpoint(s.endpoint, s.candidates), seq(|s.allowed|, _ => pod),
                        if s.keepalive == 0 then KEEPALIVE else s.keepalive, pod))
  }

  // ---- the plan ----

  function Peers(self: Prefix, specs: seq<Spec>): seq<PeerPlan>
    requires self.Ok() && forall s <- specs :: SpecOk(s)
  {
    if specs == [] then []
    else
      var front, f := Peers(self, specs[..|specs| - 1]), Judge(self, specs[|specs| - 1]);
      if f.Use? then front + [f.peer] else front
  }

  predicate AnySkipped(self: Prefix, specs: seq<Spec>)
    requires self.Ok() && forall s <- specs :: SpecOk(s)
  {
    exists s <- specs :: Judge(self, s).Skip?
  }

  predicate Routable(self: Prefix, c: Cidr)
    requires self.Ok()
  {
    c.V4? && c.p.Ok() && c.p.bits == 24 && c.p != self.Masked()
  }

  /** RouteSet over the included peers: their /24s other than this node's own. */
  function RouteSet(self: Prefix, peers: seq<PeerPlan>): set<Prefix>
    requires self.Ok()
  {
    set q <- peers | Routable(self, q.podCIDR) :: q.podCIDR.p
  }

  datatype Plan = Plan(peers: seq<PeerPlan>, routes: seq<Prefix>)

  /** BuildPlan; None when self is no IPv4 /24. */
  function BuildPlan(self: Prefix, specs: seq<Spec>): Option<Plan>
    requires self.Ok() && forall s <- specs :: SpecOk(s)
  {
    if self.bits != 24 then None
    else Some(Plan(Peers(self, specs), R.SortedPrefixes(RouteSet(self, Peers(self, specs)))))
  }

  /** Some allowed range is no per-node /24. */
  predicate Widened(peers: seq<PeerPlan>) { exists q <- peers, a <- q.allowed :: !(a.V4? && a.p.bits == 24) }

  /** ValidatePlan. */
  function ValidatePlan(self: Prefix, specs: seq<Spec>): Option<Plan>
    requires self.Ok() && forall s <- specs :: SpecOk(s)
  {
    var p := BuildPlan(self, specs);
    if p.None? || AnySkipped(self, specs) || Widened(p.value.peers) then None
    else p
  }

  // ---- what a plan guarantees ----

  lemma {:induction false} PeersAreJudged(self: Prefix, specs: seq<Spec>)
    requires self.Ok() && forall s <- specs :: SpecOk(s)
    ensures forall q <- Peers(self, specs) :: exists s <- specs :: Judge(self, s) == Use(q)
    ensures forall s <- specs :: Judge(self, s).Use? ==> Judge(self, s).peer in Peers(self, specs)
    decreases |specs|
  {
    if specs != [] {
      var n := |specs| - 1;
      PeersAreJudged(self, specs[..n]);
      assert specs == specs[..n] + [specs[n]];
    }
  }

  /** Every planned peer's allowed ranges are exactly its own pod range, never this node's. */
  lemma {:induction false} PeerRanges(self: Prefix, specs: seq<Spec>)
    requires self.Ok() && forall s <- specs :: SpecOk(s)
    ensures forall q <- Peers(self, specs) :: q.allowed != [] && q.podCIDR != V4(self.Masked()) && CidrOk(q.podCIDR)
    ensures forall q <- Peers(self, specs) :: forall a <- q.allowed :: a == q.podCIDR
  {
    PeersAreJudged(self, specs);
    forall q | q in Peers(self, specs)
      ensures q.allowed != [] && q.podCIDR != V4(self.Masked()) && CidrOk(q.podCIDR)
              && forall a <- q.allowed :: a == q.podCIDR
    {
      var s :| s in specs && Judge(self, s) == Use(q);
    }
  }

  /** The routes are exactly the planned peers' /24s: never this node's own, never a
      supernet, one per range and in order. */
  lemma {:induction false} RoutesExactly(self: Prefix, specs: seq<Spec>)
    requires self.Ok() && self.bits == 24 && forall s <- specs :: SpecOk(s)
    ensures var p := BuildPlan(self, specs).value;
            && (forall r <- p.routes :: r.bits == 24 && r != self.Masked() && exists q <- p.peers :: q.podCIDR == V4(r))
            && (forall q <- p.peers :: q.podCIDR.V4? && q.podCIDR.p.bits == 24 ==> q.podCIDR.p in p.routes)
            && (forall i, j :: 0 <= i < j < |p.routes| ==>
                  p.routes[i] != p.routes[j] && R.Before(p.routes[i], p.routes[j]))
  {
    PeerRanges(self, specs);
    R.SortedAscending(RouteSet(self, Peers(self, specs)));
  }

  /** A validated plan is complete and closed: nothing was skipped, every peer has its
      route and every route its peer. */
  lemma {:induction false} ValidatedIsClosed(self: Prefix, specs: seq<Spec>)
    requires self.Ok() && (forall s <- specs :: SpecOk(s)) && ValidatePlan(self, specs).Some?
    ensures var p := ValidatePlan(self, specs).value;
            && (forall s <- specs :: !Judge(self, s).Skip?)
            && (forall q <- p.peers :: q.podCIDR.V4? && q.podCIDR.p.bits == 24 && q.podCIDR.p in p.routes)
            && (forall r <- p.routes :: exists q <- p.peers :: q.podCIDR == V4(r))
  {
    PeerRanges(self, specs);
    RoutesExactly(self, specs);
    var p := ValidatePlan(self, specs).value;
    forall q | q in p.peers ensures q.podCIDR.V4? && q.podCIDR.p.bits == 24 {
      assert q.allowed[0] in q.allowed;
    }
  }

  // ---- the configuration text's precondition ----

  function Config(q: PeerPlan): PeerConfig
    requires q.podCIDR.V4?
  {
    PeerConfig(q.key, q.endpoint, seq(|q.allowed|, _ => q.podCIDR.p), q.keepalive)
  }

  function Configs(ps: seq<PeerPlan>): (r: seq<PeerConfig>)
    requires forall q <- ps :: q.podCIDR.V4?
    ensures |r| == |ps| && forall i :: 0 <= i < |ps| ==> r[i] == Config(ps[i])
  {
    seq(|ps|, i requires 0 <= i < |ps| => Config(ps[i]))
  }

  predicate CleanPlan(ps: seq<PeerPlan>) {
    forall q <- ps :: Lacks(q.key, '\n') && Lacks(q.endpoint, '\n') && q.keepalive < 0x1_0000
  }

  predicate DistinctPeers(ps: seq<PeerPlan>) {
    forall i, j :: 0 <= i < j < |ps| ==> ps[i].key != ps[j].key && ps[i].podCIDR != ps[j].podCIDR
  }

  lemma {:induction false} RangeOfConfig(q: PeerPlan)
    requires q.podCIDR.V4? && q.allowed != []
    ensures RangeOf(Config(q).allowed) == {q.podCIDR.p}
  {
    assert Config(q).allowed[0] == q.podCIDR.p;
  }

  /** A validated plan meets the update's precondition exactly when no two of its peers
      share a key or a pod range: BuildPlan does not look for either. */
  lemma {:induction false} GoodExactly(self: Prefix, specs: seq<Spec>)
    requires self.Ok() && (forall s <- specs :: SpecOk(s)) && ValidatePlan(self, specs).Some?
    requires CleanPlan(ValidatePlan(self, specs).value.peers)
    ensures forall q <- ValidatePlan(self, specs).value.peers :: q.podCIDR.V4?
    ensures Good(Configs(ValidatePlan(self, specs).value.peers))
            <==> DistinctPeers(ValidatePlan(self, specs).value.peers)
  {
    ValidatedIsClosed(self, specs);
    PeerRanges(self, specs);
    GoodConfigs(ValidatePlan(self, specs).value.peers);
  }

  lemma {:induction false} GoodConfigs(ps: seq<PeerPlan>)
    requires CleanPlan(ps) && forall q <- ps :: q.podCIDR.V4? && q.podCIDR.p.Ok() && q.allowed != []
    ensures Good(Configs(ps)) <==> DistinctPeers(ps)
  {
    var cs := Configs(ps);
    forall i | 0 <= i < |ps|
      ensures CleanPeer(cs[i]) && RangeOf(cs[i].allowed) == {ps[i].podCIDR.p} && cs[i].key == ps[i].key
    {
      assert ps[i] in ps;
      RangeOfConfig(ps[i]);
    }
    forall i, j | 0 <= i < j < |ps|
      ensures RangeOf(cs[i].allowed) !! RangeOf(cs[j].allowed) <==> ps[i].podCIDR != ps[j].podCIDR
    {
      assert ps[i].podCIDR.p in RangeOf(cs[i].allowed);
    }
    assert forall pc <- cs :: CleanPeer(pc);
  }

  // ---- BuildPlan's loop ----

  method ChooseEndpoint(endpoint: string, cs: seq<Candidate>) returns (e: string)
    ensures e == SelectEndpoint(endpoint, cs)
  {
    for i := 0 to |cs|
      invariant SelectEndpoint(endpoint, cs) == SelectEndpoint(endpoint, cs[i..])
    {
      if cs[i].link.Underlay? { return cs[i].address; }
      assert cs[i..][1..] == cs[i + 1..];
    }
    e := endpoint;
  }

  method BuildPeers(self: Prefix, specs: seq<Spec>) returns (peers: seq<PeerPlan>, skipped: bool)
    requires self.Ok() && forall s <- specs :: SpecOk(s)
    ensures peers == Peers(self, specs) && skipped == AnySkipped(self, specs)
  {
    peers, skipped := [], false;
    for i := 0 to |specs|
      invariant peers == Peers(self, specs[..i]) && skipped == AnySkipped(self, specs[..i])
    {
      assert specs[i] in specs && specs[..i + 1] == specs[..i] + [specs[i]] && specs[..i + 1][..i] == specs[..i];
      match Judge(self, specs[i]) {
        case Own =>
        case Skip => skipped := true;
        case Use(q) => peers := peers + [q];
      }
    }
    assert specs[..|specs|] == specs;
  }

  /** RouteSet's loop: each included range once, then sorted. */
  method Routes(self: Prefix, peers: seq<PeerPlan>) returns (routes: seq<Prefix>)
    requires self.Ok()
    ensures routes == R.SortedPrefixes(RouteSet(self, peers))
  {
    var seen: set<Prefix> := {};
    for i := 0 to |peers|
      invariant seen == RouteSet(self, peers[..i])
    {
      assert peers[..i + 1] == peers[..i] + [peers[i]];
      var c := peers[i].podCIDR;
      if Routable(self, c) { seen := seen + {c.p}; }
    }
    assert peers[..|peers|] == peers;
    routes := R.SortedPrefixes(seen);
  }

  method FindWidened(peers: seq<PeerPlan>) returns (found: bool)
    ensures found == Widened(peers)
  {
    for i := 0 to |peers|
      invariant forall k :: 0 <= k < i ==> forall a <- peers[k].allowed :: a.V4? && a.p.bits == 24
    {
      for j := 0 to |peers[i].allowed|
        invariant forall k :: 0 <= k < j ==> peers[i].allowed[k].V4? && peers[i].allowed[k].p.bits == 24
      {
        var a := peers[i].allowed[j];
        if !(a.V4? && a.p.bits == 24) {
          assert peers[i] in peers && a in peers[i].allowed;
          return true;
        }
      }
    }
    found := false;
  }

  /** ValidatePlan, with its loops. */
  method StrictPlan(self: Prefix, specs: seq<Spec>) returns (p: Option<Plan>)
    requires self.Ok() && forall s <- specs :: SpecOk(s)
    ensures p == ValidatePlan(self, specs)
  {
    if self.bits != 24 { return None; }
    var peers, skipped := BuildPeers(self, specs);
    var routes := Routes(self, peers);
    if skipped { return None; }
    var widened := FindWidened(peers);
    if widened { return None; }
    p := Some(Plan(peers, routes));
  }
}
