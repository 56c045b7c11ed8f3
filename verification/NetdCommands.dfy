/** The root executor's view of a node (pkg/netd/applier.go:99-181, 292-640) at the grain of
    its commands: lo0 aliases, utun aliases, blackhole routes, the alias tracking and the
    allocation the mesh's SYN refusal consults. Every operation is the list of the
    commands that took effect, in the order the code runs them. */
module NetdCommands {
  import opened Text

  datatype AliasState = Live | Pending

  /** The Service addresses [from, to), which no node /24 overlaps. */
  datatype Service = Service(from: nat, to: nat) {
    predicate Has(ip: nat) { from <= ip < to }
  }

  /** An address of the /24 at `base`, and one of its pod addresses .2 to .254. */
  predicate InNode(base: nat, ip: nat) { base <= ip < base + 256 }
  predicate IsPod(base: nat, ip: nat) { base + 2 <= ip <= base + 254 }

  predicate NodeBase(svc: Service, base: nat) {
    base % 256 == 0 && (base + 256 <= svc.from || svc.to <= base)
  }

  /** `utun` are the pod aliases of the mesh utun; `known` and `pods` are localPods. */
  datatype State = State(
    svc: Service, base: nat,
    lo0: set<nat>, utun: set<nat>, blackholes: set<nat>,
    aliased: map<nat, AliasState>, known: bool, pods: set<nat>, meshUp: bool)

  function PodsOnLo0(s: State): set<nat> { set ip <- s.lo0 | IsPod(s.base, ip) }

  /** localPods.allocated. */
  predicate Allocates(s: State, ip: nat) { !s.known || ip in s.pods }

  // ---- what must hold after every command ----

  /** A pod address live on lo0 counts as allocated. */
  predicate Counted(s: State) { forall ip <- s.lo0 :: IsPod(s.base, ip) ==> Allocates(s, ip) }

  /** A pod alias on the utun has its lo0 alias. */
  predicate Homed(s: State) {
    (forall ip <- s.utun :: ip in s.lo0 && IsPod(s.base, ip)) && (!s.meshUp ==> s.utun == {})
  }

  /** No address is both aliased and blackholed. */
  predicate Disjoint(s: State) { s.lo0 !! s.blackholes }

  /** Only pod addresses of some node /24 are ever blackholed. */
  predicate PodLike(s: State) { forall ip <- s.blackholes :: 2 <= ip % 256 <= 254 && !s.svc.Has(ip) }

  predicate Safe(s: State) { NodeBase(s.svc, s.base) && Counted(s) && Homed(s) && Disjoint(s) && PodLike(s) }

  /** Between operations, tracked addresses are live on lo0, or pending pod addresses that
      are gone from it. */
  predicate Tracked(s: State) {
    forall ip <- s.aliased :: if s.aliased[ip].Live? then ip in s.lo0 else IsPod(s.base, ip) && ip !in s.lo0
  }

  predicate Inv(s: State) { Safe(s) && Tracked(s) }

  // ---- the commands ----

  datatype Cmd =
    | Count(ip: nat)
    | Uncount(ip: nat)
    | Seed(ips: set<nat>)
    | Forget
    | Clear(ip: nat)
    | Install(ip: nat)
    | Alias(ip: nat)
    | Unalias(ip: nat)
    | UtunAlias(ip: nat)
    | UtunUnalias(ip: nat)
    | Track(ip: nat, st: AliasState)
    | Untrack(ips: set<nat>)
    | DeviceUp
    | DeviceDown
    | Repoint(base: nat)
    | Restart(base: nat)

  function Do(s: State, c: Cmd): State {
    match c
    case Count(ip) => if s.known then s.(pods := s.pods + {ip}) else s
    case Uncount(ip) => s.(pods := s.pods - {ip})
    case Seed(ips) => s.(known := true, pods := ips)
    case Forget => s.(known := false, pods := {})
    case Clear(ip) => s.(blackholes := s.blackholes - {ip})
    case Install(ip) => s.(blackholes := s.blackholes + {ip})
    case Alias(ip) => s.(lo0 := s.lo0 + {ip})
    case Unalias(ip) => s.(lo0 := s.lo0 - {ip})
    case UtunAlias(ip) => s.(utun := s.utun + {ip})
    case UtunUnalias(ip) => s.(utun := s.utun - {ip})
    case Track(ip, st) => s.(aliased := s.aliased[ip := st])
    case Untrack(ips) => s.(aliased := s.aliased - ips)
    case DeviceUp => s.(meshUp := true, utun := {})
    case DeviceDown => s.(meshUp := false, utun := {})
    // The device is gone and the alias lock held: nothing consults the set in between.
    case Repoint(b) => if b == s.base then s else s.(base := b, known := false, pods := {})
    case Restart(b) => s.(base := b, aliased := map[], known := false, pods := {}, meshUp := false, utun := {})
  }

  /** When a command keeps every state safe. */
  predicate Allowed(s: State, c: Cmd) {
    match c
    case Uncount(ip) => ip !in s.lo0
    case Seed(ips) => forall ip <- s.lo0 :: IsPod(s.base, ip) ==> ip in ips
    case Install(ip) => IsPod(s.base, ip) && ip !in s.lo0
    case Alias(ip) => ip !in s.blackholes && (IsPod(s.base, ip) ==> Allocates(s, ip))
    case Unalias(ip) => ip !in s.utun
    case UtunAlias(ip) => s.meshUp && ip in s.lo0 && IsPod(s.base, ip)
    case Repoint(b) => NodeBase(s.svc, b) && !s.meshUp
    case Restart(b) => NodeBase(s.svc, b)
    case _ => true
  }

  lemma {:induction false} AllowedKeepsCounted(s: State, c: Cmd)
    requires Safe(s) && Allowed(s, c)
    ensures NodeBase(Do(s, c).svc, Do(s, c).base) && Counted(Do(s, c))
  {
  }

  lemma {:induction false} AllowedKeepsHomed(s: State, c: Cmd)
    requires Safe(s) && Allowed(s, c)
    ensures Homed(Do(s, c))
  {
  }

  lemma {:induction false} AllowedKeepsDisjoint(s: State, c: Cmd)
    requires Safe(s) && Allowed(s, c)
    ensures Disjoint(Do(s, c)) && PodLike(Do(s, c))
  {
  }

  lemma {:induction false} AllowedKeepsSafe(s: State, c: Cmd)
    requires Safe(s) && Allowed(s, c)
    ensures Safe(Do(s, c))
  {
    AllowedKeepsCounted(s, c);
    AllowedKeepsHomed(s, c);
    AllowedKeepsDisjoint(s, c);
  }

  function After(s: State, cs: seq<Cmd>): State {
    if cs == [] then s else Do(After(s, cs[..|cs| - 1]), cs[|cs| - 1])
  }

  predicate AllAllowed(s: State, cs: seq<Cmd>) {
    cs == [] || (AllAllowed(s, cs[..|cs| - 1]) && Allowed(After(s, cs[..|cs| - 1]), cs[|cs| - 1]))
  }

  lemma {:induction false} AllowedFront(s: State, cs: seq<Cmd>, k: nat)
    requires AllAllowed(s, cs) && k <= |cs|
    ensures AllAllowed(s, cs[..k])
    decreases |cs|
  {
    if k == |cs| {
      assert cs[..k] == cs;
    } else {
      var n := |cs| - 1;
      AllowedFront(s, cs[..n], k);
      assert cs[..n][..k] == cs[..k];
    }
  }

  lemma {:induction false} AllowedEndsSafe(s: State, cs: seq<Cmd>)
    requires Safe(s) && AllAllowed(s, cs)
    ensures Safe(After(s, cs))
    decreases |cs|
  {
    if cs != [] {
      var n := |cs| - 1;
      AllowedEndsSafe(s, cs[..n]);
      AllowedKeepsSafe(After(s, cs[..n]), cs[n]);
    }
  }

  /** Every state an allowed command list passes through is safe. */
  lemma {:induction false} SafeThroughout(s: State, cs: seq<Cmd>, k: nat)
    requires Safe(s) && AllAllowed(s, cs) && k <= |cs|
    ensures Safe(After(s, cs[..k]))
  {
    AllowedFront(s, cs, k);
    AllowedEndsSafe(s, cs[..k]);
  }

  /** The commands cs are each allowed where they run and lead from s to t. */
  predicate Leads(s: State, cs: seq<Cmd>, t: State) { AllAllowed(s, cs) && After(s, cs) == t }

  lemma {:induction false} LeadsStep(s: State, cs: seq<Cmd>, t: State, c: Cmd)
    requires Leads(s, cs, t) && Allowed(t, c)
    ensures Leads(s, cs + [c], Do(t, c))
  {
    assert (cs + [c])[..|cs + [c]| - 1] == cs;
  }

  lemma {:induction false} LeadsOne(s: State, c: Cmd)
    requires Allowed(s, c)
    ensures Leads(s, [c], Do(s, c))
  {
    LeadsStep(s, [], s, c);
    assert [] + [c] == [c];
  }

  lemma {:induction false} LeadsTwo(s: State, c: Cmd, d: Cmd)
    requires Allowed(s, c) && Allowed(Do(s, c), d)
    ensures Leads(s, [c, d], Do(Do(s, c), d))
  {
    LeadsOne(s, c);
    LeadsStep(s, [c], Do(s, c), d);
    assert [c] + [d] == [c, d];
  }

  lemma {:induction false} LeadsAppend(s: State, a: seq<Cmd>, t: State, b: seq<Cmd>, u: State)
    requires Leads(s, a, t) && Leads(t, b, u)
    ensures Leads(s, a + b, u)
    decreases |b|
  {
    if b == [] {
      assert a + b == a;
    } else {
      var n := |b| - 1;
      var mid := After(t, b[..n]);
      LeadsAppend(s, a, t, b[..n], mid);
      LeadsStep(s, a + b[..n], mid, b[n]);
      Associative(a, b[..n], [b[n]]);
      assert b[..n] + [b[n]] == b;
    }
  }
}
