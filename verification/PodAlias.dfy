/** The lo0 alias manager (pkg/podnet/alias.go:92-197) under the pod network: an alias, the
    blackhole route that holds a departed pod's address, and the pending state in between.
    Any ifconfig or route command may fail, and then has no effect; -alias finds an
    untracked alias exactly when there is one (pkg/podnet/alias.go:179-184). */
module PodAlias {
  import opened Text
  import opened PodAllocator
  import N = PodNetwork

  datatype AliasState = Live | Pending

  /** The kernel's lo0 addresses and blackhole routes, what the manager tracks, and every
      address that has ever been on lo0. */
  datatype State = State(base: nat, lo0: set<nat>, blackholes: set<nat>, tracked: map<nat, AliasState>, ever: set<nat>)

  /** The kernel's answers to the commands of one call. */
  datatype Answers = Answers(cleared: bool, aliased: bool, unaliased: bool, installed: bool)

  predicate Honest(s: State, ip: nat, a: Answers) {
    && (a.unaliased ==> ip in s.lo0)
    && (ip !in s.tracked && ip in s.lo0 ==> a.unaliased)
  }

  function Ensured(s: State, ip: nat, a: Answers): (State, bool) {
    if ip in s.tracked && s.tracked[ip].Live? then (s, true)
    else if IsHost(s.base, ip) && !a.cleared then (s, false)
    else
      var clear := if IsHost(s.base, ip) then s.(blackholes := s.blackholes - {ip}) else s;
      if !a.aliased then (clear, false)
      else (clear.(lo0 := s.lo0 + {ip}, tracked := s.tracked[ip := Live], ever := s.ever + {ip}), true)
  }

  function Removed(s: State, ip: nat, a: Answers): (State, bool) {
    var tracked := ip in s.tracked;
    var pending := tracked && s.tracked[ip].Pending?;
    if tracked && !pending && !a.unaliased then (s, false)
    else
      var removed := !pending && a.unaliased;
      var t := if removed then s.(lo0 := s.lo0 - {ip}) else s;
      if !IsHost(s.base, ip) then (t.(tracked := t.tracked - {ip}), true)
      else if !tracked && !removed then (t, true)
      else if !a.installed then (t.(tracked := t.tracked[ip := Pending]), false)
      else (t.(blackholes := t.blackholes + {ip}, tracked := t.tracked - {ip}), true)
  }

  /** A tracked address is live on lo0 or pending and gone; no pod address is aliased and
      blackholed at once; only an address that was aliased is ever blackholed. */
  predicate Inv(s: State) {
    && (forall ip <- s.tracked :: s.tracked[ip].Live? <==> ip in s.lo0)
    && (forall ip :: IsHost(s.base, ip) && ip in s.lo0 ==> ip !in s.blackholes)
    && s.lo0 <= s.ever && s.blackholes <= s.ever && s.tracked.Keys <= s.ever
  }

  lemma {:induction false} EnsureKeeps(s: State, ip: nat, a: Answers)
    requires Inv(s)
    ensures Inv(Ensured(s, ip, a).0)
    ensures Ensured(s, ip, a).1 ==> ip in Ensured(s, ip, a).0.lo0
  {
  }

  /** Removing a pod address that was aliased ends with the alias gone and the blackhole
      in, or with an error and the address still tracked. */
  lemma {:induction false} RemoveKeeps(s: State, ip: nat, a: Answers)
    requires Inv(s) && Honest(s, ip, a)
    ensures Inv(Removed(s, ip, a).0)
    ensures Removed(s, ip, a).1 ==> ip !in Removed(s, ip, a).0.lo0 && ip !in Removed(s, ip, a).0.tracked
    ensures Removed(s, ip, a).1 && IsHost(s.base, ip) && (ip in s.lo0 || ip in s.tracked) ==>
              ip in Removed(s, ip, a).0.blackholes
    ensures !Removed(s, ip, a).1 ==> ip in Removed(s, ip, a).0.tracked
  {
  }

  // ---- the pod network over this manager ----

  datatype Node = Node(net: N.State, alias: State)

  /** SweepStale is one SweepOne per host it walks that it does not keep. */
  datatype Event =
    | Setup(pod: string, backend: N.Backend, a: Answers)
    | Teardown(pod: string, a: Answers)
    | Reattach(pod: string, ip: nat, backend: N.Backend, a: Answers)
    | SweepOne(ip: nat, a: Answers)

  /** The address whose alias the event asks for, if it gets that far. */
  function Asked(n: Node, e: Event): Option<nat>
    requires n.net.pool.Valid()
  {
    match e
    case Setup(pod, backend, _) =>
      if pod == "" then None
      else if pod in n.net.byPod then if n.net.byPod[pod].backend == backend then Some(n.net.byPod[pod].ip) else None
      else Free(n.net.pool)
    case Reattach(pod, ip, backend, _) =>
      if N.Reattached(n.net, pod, ip, backend, true).1.Bound? then Some(ip) else None
    case _ => None
  }

  function Plumbed(n: Node, e: Event): (State, bool)
    requires n.net.pool.Valid()
  {
    var ip := Asked(n, e);
    if ip.Some? then Ensured(n.alias, ip.value, e.a) else (n.alias, false)
  }

  function Next(n: Node, e: Event): Node
    requires n.net.pool.Valid()
  {
    match e
    case Setup(pod, backend, _) =>
      var p := Plumbed(n, e);
      Node(N.SetUp(n.net, pod, backend, p.1).0, p.0)
    case Reattach(pod, ip, backend, _) =>
      var p := Plumbed(n, e);
      Node(N.Reattached(n.net, pod, ip, backend, p.1).0, p.0)
    case Teardown(pod, a) =>
      if pod !in n.net.byPod then n
      else
        var r := Removed(n.alias, n.net.byPod[pod].ip, a);
        Node(N.TornDown(n.net, pod, r.1).0, r.0)
    case SweepOne(ip, a) =>
      if ip in n.net.inverse || !IsHost(n.net.pool.base, ip) then n else n.(alias := Removed(n.alias, ip, a).0)
  }

  predicate Legal(n: Node, e: Event) {
    match e
    case Teardown(pod, a) => pod in n.net.byPod ==> Honest(n.alias, n.net.byPod[pod].ip, a)
    case SweepOne(ip, a) => Honest(n.alias, ip, a)
    case _ => true
  }

  predicate NodeInv(n: Node) {
    && N.Inv(n.net) && Inv(n.alias) && n.net.pool.base == n.alias.base
    && (forall ip <- n.net.inverse :: ip in n.alias.tracked)
    && (forall ip <- n.alias.tracked :: IsHost(n.alias.base, ip) && n.alias.tracked[ip].Live? ==> ip in n.net.inverse)
  }

  lemma {:induction false} EnsuredNode(n: Node, ip: nat, a: Answers, net: N.State)
    requires NodeInv(n) && N.Inv(net) && net.pool.base == n.net.pool.base
    requires net.inverse.Keys == n.net.inverse.Keys + if Ensured(n.alias, ip, a).1 then {ip} else {}
    ensures NodeInv(Node(net, Ensured(n.alias, ip, a).0))
  {
    EnsureKeeps(n.alias, ip, a);
  }

  lemma {:induction false} SetupKeeps(n: Node, pod: string, backend: N.Backend, a: Answers)
    requires NodeInv(n)
    ensures NodeInv(Next(n, Setup(pod, backend, a)))
  {
    ExhaustedExactlyWhenFull(n.net.pool);
    var e := Setup(pod, backend, a);
    var net := N.SetUp(n.net, pod, backend, Plumbed(n, e).1).0;
    N.StepKeeps(n.net, N.Setup(pod, backend, Plumbed(n, e).1));
    var ip := Asked(n, e);
    if ip.Some? {
      assert net.inverse.Keys == n.net.inverse.Keys + if Plumbed(n, e).1 then {ip.value} else {};
      EnsuredNode(n, ip.value, a, net);
    }
  }

  lemma {:induction false} ReattachKeeps(n: Node, pod: string, ip: nat, backend: N.Backend, a: Answers)
    requires NodeInv(n)
    ensures NodeInv(Next(n, Reattach(pod, ip, backend, a)))
  {
    var e := Reattach(pod, ip, backend, a);
    var net := N.Reattached(n.net, pod, ip, backend, Plumbed(n, e).1).0;
    N.StepKeeps(n.net, N.Reattach(pod, ip, backend, Plumbed(n, e).1));
    if Asked(n, e).Some? {
      assert net.inverse.Keys == n.net.inverse.Keys + if Plumbed(n, e).1 then {ip} else {};
      EnsuredNode(n, ip, a, net);
    }
  }

  lemma {:induction false} RemovalKeeps(n: Node, e: Event)
    requires NodeInv(n) && (e.Teardown? || e.SweepOne?) && Legal(n, e)
    ensures NodeInv(Next(n, e))
  {
    match e
    case Teardown(pod, a) =>
      if pod in n.net.byPod {
        var ip := n.net.byPod[pod].ip;
        RemoveKeeps(n.alias, ip, a);
        N.StepKeeps(n.net, N.Teardown(pod, Removed(n.alias, ip, a).1));
      }
    case SweepOne(ip, a) => RemoveKeeps(n.alias, ip, a);
  }

  predicate LegalRun(n: Node, events: seq<Event>)
    requires NodeInv(n)
    decreases |events|
  {
    events == [] || (Legal(n, events[0]) && (StepKeeps(n, events[0]); LegalRun(Next(n, events[0]), events[1..])))
  }

  lemma {:induction false} StepKeeps(n: Node, e: Event)
    requires NodeInv(n) && Legal(n, e)
    ensures NodeInv(Next(n, e))
  {
    match e
    case Setup(pod, backend, a) => SetupKeeps(n, pod, backend, a);
    case Reattach(pod, ip, backend, a) => ReattachKeeps(n, pod, ip, backend, a);
    case _ => RemovalKeeps(n, e);
  }

  function Run(n: Node, events: seq<Event>): (m: Node)
    requires NodeInv(n) && LegalRun(n, events)
    ensures NodeInv(m)
    decreases |events|
  {
    if events == [] then n
    else
      StepKeeps(n, events[0]);
      Run(Next(n, events[0]), events[1..])
  }

  /** Over every run: an address whose blackhole is still owed is not handed out while its
      teardown is; and a bound address stays tracked until its removal succeeded. */
  lemma {:induction false} BoundStaysTracked(n: Node, events: seq<Event>, ip: nat)
    requires NodeInv(n) && LegalRun(n, events) && ip in Run(n, events).net.inverse
    ensures ip in Run(n, events).alias.tracked && ip in Run(n, events).net.pool.held
    ensures Free(Run(n, events).net.pool) != Some(ip)
  {
    ExhaustedExactlyWhenFull(Run(n, events).net.pool);
  }

  /** A free address that once was on lo0 and no longer is has its blackhole. */
  predicate Protected(n: Node) {
    forall ip :: IsHost(n.alias.base, ip) && ip in n.alias.ever && ip !in n.alias.lo0 && ip !in n.net.pool.held ==>
      ip in n.alias.blackholes
  }

  /** A fresh plumb whose blackhole clear succeeds and whose alias command then fails, on
      an address some pod had before. */
  predicate RollsBackCleared(n: Node, e: Event)
    requires n.net.pool.Valid()
  {
    && (e.Setup? || e.Reattach?) && e.pod !in n.net.byPod && e.a.cleared && !e.a.aliased
    && Asked(n, e).Some? && Asked(n, e).value in n.alias.ever && Asked(n, e).value !in n.alias.lo0
  }

  /** A sweep that took an orphaned alias down, or retried one, without its blackhole. */
  predicate SweepsUnprotected(n: Node, e: Event) {
    && e.SweepOne? && e.ip !in n.net.inverse && IsHost(n.net.pool.base, e.ip)
    && !e.a.installed && e.ip !in n.alias.blackholes && (e.ip in n.alias.tracked || e.ip in n.alias.lo0)
  }

  lemma {:induction false} PlumbProtects(n: Node, e: Event)
    requires NodeInv(n) && Protected(n) && (e.Setup? || e.Reattach?)
    ensures Protected(Next(n, e)) <==> !RollsBackCleared(n, e)
  {
    ExhaustedExactlyWhenFull(n.net.pool);
    var m := Next(n, e);
    var ip := Asked(n, e);
    if RollsBackCleared(n, e) {
      assert ip.value in m.alias.ever && ip.value !in m.alias.lo0 && ip.value !in m.net.pool.held;
    }
  }

  lemma {:induction false} RemovalProtects(n: Node, e: Event)
    requires NodeInv(n) && Protected(n) && (e.Teardown? || e.SweepOne?) && Legal(n, e)
    ensures Protected(Next(n, e)) <==> !SweepsUnprotected(n, e)
  {
    var m := Next(n, e);
    match e
    case Teardown(pod, a) =>
      if pod in n.net.byPod { RemoveKeeps(n.alias, n.net.byPod[pod].ip, a); }
    case SweepOne(ip, a) =>
      RemoveKeeps(n.alias, ip, a);
  }

  /** One event leaves a departed pod's free address unprotected exactly when it rolls back
      a plumb past the blackhole clear, or sweeps an alias whose blackhole it could not
      install. */
  lemma {:induction false} ProtectedExactly(n: Node, e: Event)
    requires NodeInv(n) && Protected(n) && Legal(n, e)
    ensures Protected(Next(n, e)) <==> !RollsBackCleared(n, e) && !SweepsUnprotected(n, e)
  {
    if e.Setup? || e.Reattach? { PlumbProtects(n, e); } else { RemovalProtects(n, e); }
  }

  function Fresh(base: nat): (n: Node)
    ensures NodeInv(n) && Protected(n)
  {
    Node(N.Start(base), State(base, {}, {}, map[], {}))
  }

  /** A run that does it: a pod is set up and torn down, so its address is blackholed and
      free; a reattach at that address clears the blackhole, fails to alias, and frees the
      address again. */
  lemma {:induction false} RollbackUnprotects(base: nat, pod: string)
    requires pod != ""
    ensures var ip := base + 2;
            var up := Setup(pod, N.HostProcess, Answers(true, true, false, false));
            var down := Teardown(pod, Answers(false, false, true, true));
            var again := Reattach(pod, ip, N.HostProcess, Answers(true, false, false, false));
            var n1 := Next(Fresh(base), up);
            && Legal(Fresh(base), up) && NodeInv(n1) && Protected(n1) && ip in n1.alias.lo0
            && (var n2 := Next(n1, down);
                && Legal(n1, down) && NodeInv(n2) && Protected(n2) && n2.alias.blackholes == {ip}
                && (var n3 := Next(n2, again);
                    Legal(n2, again) && n3.net.pool.held == {} && n3.alias.blackholes == {} && !Protected(n3)))
  {
    var ip := base + 2;
    var up := Setup(pod, N.HostProcess, Answers(true, true, false, false));
    var down := Teardown(pod, Answers(false, false, true, true));
    var again := Reattach(pod, ip, N.HostProcess, Answers(true, false, false, false));
    assert At(base, ip, 0) == ip && Free(Fresh(base).net.pool) == Some(ip);
    var n1 := Next(Fresh(base), up);
    StepKeeps(Fresh(base), up);
    ProtectedExactly(Fresh(base), up);
    var n2 := Next(n1, down);
    StepKeeps(n1, down);
    ProtectedExactly(n1, down);
    assert n2.alias == State(base, {}, {ip}, map[], {ip}) && n2.net.byPod == map[] && n2.net.inverse == map[]
           && n2.net.pool.held == {};
    ProtectedExactly(n2, again);
  }

  class AliasManager {
    const base: nat
    var lo0: set<nat>
    var blackholes: set<nat>
    var tracked: map<nat, AliasState>
    ghost var ever: set<nat>

    ghost function Value(): State
      reads this
    {
      State(base, lo0, blackholes, tracked, ever)
    }

    constructor (base: nat, lo0: set<nat>, blackholes: set<nat>)
      ensures Value() == State(base, lo0, blackholes, map[], lo0 + blackholes)
    {
      this.base, this.lo0, this.blackholes := base, lo0, blackholes;
      tracked, ever := map[], lo0 + blackholes;
    }

    method Ensure(ip: nat, a: Answers) returns (ok: bool)
      modifies this
      ensures (Value(), ok) == Ensured(old(Value()), ip, a)
    {
      if ip in tracked && tracked[ip].Live? { return true; }
      if IsHost(base, ip) {
        if !a.cleared { return false; }
        blackholes := blackholes - {ip};
      }
      if !a.aliased { return false; }
      lo0 := lo0 + {ip};
      tracked := tracked[ip := Live];
      ever := ever + {ip};
      ok := true;
    }

    method Remove(ip: nat, a: Answers) returns (ok: bool)
      modifies this
      ensures (Value(), ok) == Removed(old(Value()), ip, a)
    {
      var known, removed := ip in tracked, false;
      if known && tracked[ip].Pending? {
      } else if known {
        if !a.unaliased { return false; }
        lo0, removed := lo0 - {ip}, true;
      } else {
        removed := a.unaliased;
        if removed { lo0 := lo0 - {ip}; }
      }
      if !IsHost(base, ip) {
        tracked := tracked - {ip};
        return true;
      }
      if !known && !removed { return true; }
      if !a.installed {
        tracked := tracked[ip := Pending];
        return false;
      }
      blackholes := blackholes + {ip};
      tracked := tracked - {ip};
      ok := true;
    }
  }
}
