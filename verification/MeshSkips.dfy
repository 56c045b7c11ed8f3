/** Which snapshots of MeshPeers make Apply's skip unsafe (pkg/mesh/plan.go:190-241,
    pkg/mesh/device_wireguard.go:373-407): BuildPlan does not look for a repeated public key,
    so two nodes that carry one key under different endpoints get a plan that is not
    settled, and a run of that plan loses the no-op. */
module MeshSkips {
  import opened Text
  import opened Inet
  import opened MeshUapi
  import opened MeshUapiEffect
  import opened MeshDevice
  import opened MeshApplier
  import P = MeshPlan

  /** A masked /24. */
  predicate NodeCIDR(p: Prefix) { p.bits == 24 && p.addr % 256 == 0 }

  lemma {:induction false} NodeIsMasked(p: Prefix)
    requires NodeCIDR(p)
    ensures p.Ok() && p.Masked() == p
  {
    assert Pow2(8) == 2 * Pow2(7) == 4 * Pow2(6) == 8 * Pow2(5) == 16 * Pow2(4) == 256;
  }

  /** A complete MeshPeer of the node `pod`. */
  function NodeSpec(key: string, pod: Prefix, endpoint: string): P.Spec {
    P.Spec(true, true, Some(P.V4(pod)), [Some(P.V4(pod))], Some(key), 0, endpoint, [])
  }

  function NodePeer(key: string, pod: Prefix, endpoint: string): P.PeerPlan {
    P.PeerPlan(key, endpoint, [P.V4(pod)], P.KEEPALIVE, P.V4(pod))
  }

  lemma {:induction false} NodeIsUsed(self: Prefix, key: string, pod: Prefix, endpoint: string)
    requires NodeCIDR(self) && NodeCIDR(pod) && pod != self
    ensures self.Ok() && P.SpecOk(NodeSpec(key, pod, endpoint))
    ensures P.Judge(self, NodeSpec(key, pod, endpoint)) == P.Use(NodePeer(key, pod, endpoint))
  {
    NodeIsMasked(self);
    NodeIsMasked(pod);
    assert seq(1, _ => P.V4(pod)) == [P.V4(pod)];
  }

  /** Two nodes sharing a key pass BuildPlan and ValidatePlan. */
  lemma {:induction false} SharedKeyValidates(self: Prefix, key: string, a: Prefix, x: string, b: Prefix, y: string)
    requires NodeCIDR(self) && NodeCIDR(a) && NodeCIDR(b) && a != self && b != self
    ensures var plan := P.ValidatePlan(self, [NodeSpec(key, a, x), NodeSpec(key, b, y)]);
            plan.Some? && plan.value.peers == [NodePeer(key, a, x), NodePeer(key, b, y)]
  {
    var specs := [NodeSpec(key, a, x), NodeSpec(key, b, y)];
    NodeIsUsed(self, key, a, x);
    NodeIsUsed(self, key, b, y);
    assert specs[..1] == [specs[0]] && specs[..1][..0] == [];
    assert P.Peers(self, specs[..1]) == [NodePeer(key, a, x)];
  }

  function SharedKeyPlan(key: string, a: Prefix, x: string, b: Prefix, y: string): seq<PeerConfig> {
    [PeerConfig(key, x, [a], P.KEEPALIVE), PeerConfig(key, y, [b], P.KEEPALIVE)]
  }

  lemma {:induction false} SharedKeyConfigs(key: string, a: Prefix, x: string, b: Prefix, y: string)
    ensures P.Configs([NodePeer(key, a, x), NodePeer(key, b, y)]) == SharedKeyPlan(key, a, x, b, y)
  {
    assert seq(1, _ => a) == [a] && seq(1, _ => b) == [b];
  }

  lemma {:induction false} SharedKeyStamps(key: string, a: Prefix, x: string, b: Prefix, y: string)
    requires x != "" && x != y
    ensures var p := SharedKeyPlan(key, a, x, b, y);
            MemoryOf(p) == map[key := y] && LastStamp(p, MemoryOf(p), key) == Some(x) && !Settled(p)
  {
    var p := SharedKeyPlan(key, a, x, b, y);
    assert p[..1] == [p[0]] && p[..1][..0] == [];
    assert MemoryOf([p[0]]) == map[key := x];
    assert MemoryOf(p) == map[key := y];
    assert LastStamp([p[0]], map[key := y], key) == Some(x);
    assert p[0] in p;
  }

  /** The third Apply of `p` would move the key's endpoint from `roamed` back to `x`. */
  predicate SkipUndoesRoaming(p: seq<PeerConfig>, key: string, roamed: string, x: string) {
    var s := Run(TwiceThenRoam(p, key, roamed));
    var r := Interpret(UpdateText(p, s.applied), s.dev);
    && Skips(s, p) && !NoOp(s, p) && EndpointBefore(s.dev, key) == Some(roamed)
    && r.Some? && EndpointBefore(r.value, key) == Some(x)
  }

  lemma {:induction false} SharedKeyRun(key: string, a: Prefix, x: string, b: Prefix, y: string, roamed: string)
    requires NodeCIDR(a) && NodeCIDR(b)
    requires Lacks(key, '\n') && Lacks(x, '\n') && Lacks(y, '\n') && x != "" && x != y && roamed != x
    ensures SkipUndoesRoaming(SharedKeyPlan(key, a, x, b, y), key, roamed, x)
  {
    SharedKeyStamps(key, a, x, b, y);
    var p := SharedKeyPlan(key, a, x, b, y);
    assert p[0] in p && key in Keys(p) && CleanPeers(p);
    UnsettledSkipMoves(p, key, roamed);
  }

  /** From a validated plan of two nodes sharing a key: applied twice, the key roams, and
      the third Apply skips a text that would have moved the endpoint back. */
  lemma {:induction false} SharedKeySkipMoves(self: Prefix, key: string, a: Prefix, x: string, b: Prefix, y: string,
                                              roamed: string)
    requires NodeCIDR(self) && NodeCIDR(a) && NodeCIDR(b) && a != self && b != self
    requires Lacks(key, '\n') && Lacks(x, '\n') && Lacks(y, '\n') && x != "" && x != y && roamed != x
    ensures var plan := P.ValidatePlan(self, [NodeSpec(key, a, x), NodeSpec(key, b, y)]);
            && plan.Some? && (forall q <- plan.value.peers :: q.podCIDR.V4?)
            && SkipUndoesRoaming(P.Configs(plan.value.peers), key, roamed, x)
  {
    SharedKeyValidates(self, key, a, x, b, y);
    SharedKeyConfigs(key, a, x, b, y);
    SharedKeyRun(key, a, x, b, y, roamed);
  }

  /** A validated plan is settled exactly when no peer's non-empty endpoint differs from
      the one the last peer with its key carries. */
  lemma {:induction false} SettledPlanExactly(ps: seq<P.PeerPlan>)
    requires forall q <- ps :: q.podCIDR.V4?
    ensures Settled(P.Configs(ps)) <==>
            forall i :: 0 <= i < |ps| && ps[i].endpoint != "" ==> ps[LastWith(ps, ps[i].key)].endpoint == ps[i].endpoint
  {
    var cs := P.Configs(ps);
    forall i | 0 <= i < |ps|
      ensures cs[i].key in MemoryOf(cs) && MemoryOf(cs)[cs[i].key] == ps[LastWith(ps, ps[i].key)].endpoint
    {
      MemoryIsLast(ps, i);
    }
    if Settled(cs) {
      forall i | 0 <= i < |ps| && ps[i].endpoint != "" ensures ps[LastWith(ps, ps[i].key)].endpoint == ps[i].endpoint {
        assert cs[i] in cs;
      }
    }
  }

  /** The last peer with the key, or 0. */
  function LastWith(ps: seq<P.PeerPlan>, key: string): (i: nat)
    ensures ps != [] ==> i < |ps|
    ensures (exists q <- ps :: q.key == key) ==>
              i < |ps| && ps[i].key == key && forall j :: i < j < |ps| ==> ps[j].key != key
  {
    if ps == [] then 0
    else if ps[|ps| - 1].key == key then |ps| - 1
    else
      assert ps == ps[..|ps| - 1] + [ps[|ps| - 1]];
      LastWith(ps[..|ps| - 1], key)
  }

  lemma {:induction false} MemoryIsLast(ps: seq<P.PeerPlan>, i: nat)
    requires (forall q <- ps :: q.podCIDR.V4?) && i < |ps|
    ensures var m := MemoryOf(P.Configs(ps)); ps[i].key in m && m[ps[i].key] == ps[LastWith(ps, ps[i].key)].endpoint
    decreases |ps|
  {
    var n := |ps| - 1;
    assert P.Configs(ps)[..n] == P.Configs(ps[..n]);
    if ps[i].key != ps[n].key {
      MemoryIsLast(ps[..n], i);
    }
  }
}
