/** The pod network of one node (pkg/podnet/podnet.go:178-244; pkg/podnet/reconcile.go:
    75-166; pkg/podnet/guest.go:137-148): which pod holds which address of the /24, over
    every run of Setup, SetupGuest, Teardown, both reattaches and SweepStale, with the
    alias manager failing at will. */
module PodNetwork {
  import opened Text
  import opened PodAllocator

  datatype Backend = HostProcess | Vm
  datatype Entry = Entry(ip: nat, backend: Backend)

  datatype State = State(pool: Pool, byPod: map<string, Entry>, inverse: map<nat, string>)

  function Start(base: nat): State { State(Pool(base, base + 2, {}), map[], map[]) }

  datatype Event =
    | Setup(pod: string, backend: Backend, ensured: bool)
    | Teardown(pod: string, removed: bool)
    | Reattach(pod: string, ip: nat, backend: Backend, ensured: bool)

  datatype Answer =
    | Bound(ip: nat) | Gone
    | EmptyPod | BackendMismatch | AliasFailed | PoolExhausted
    | RefusedRebind | InUse | OutOfRange | HeldButUnbound

  function Bind(s: State, pod: string, e: Entry): State {
    s.(byPod := s.byPod[pod := e], inverse := s.inverse[e.ip := pod])
  }

  function SetUp(s: State, pod: string, backend: Backend, ensured: bool): (State, Answer)
    requires s.pool.Valid()
  {
    if pod == "" then (s, EmptyPod)
    else if pod in s.byPod then
      (s, if s.byPod[pod].backend != backend then BackendMismatch
          else if ensured then Bound(s.byPod[pod].ip) else AliasFailed)
    else
      var ip := Free(s.pool);
      if ip.None? then (s, PoolExhausted)
      else if !ensured then (s.(pool := s.pool.(next := ip.value + 1)), AliasFailed)
      else (Bind(s.(pool := Take(s.pool, ip.value)), pod, Entry(ip.value, backend)), Bound(ip.value))
  }

  function TornDown(s: State, pod: string, removed: bool): (State, Answer) {
    if pod == "" then (s, EmptyPod)
    else if pod !in s.byPod then (s, Gone)
    else if !removed then (s, AliasFailed)
    else
      var ip := s.byPod[pod].ip;
      (State(s.pool.(held := s.pool.held - {ip}), s.byPod - {pod}, s.inverse - {ip}), Gone)
  }

  function Reattached(s: State, pod: string, ip: nat, backend: Backend, ensured: bool): (State, Answer) {
    if pod == "" then (s, EmptyPod)
    else if pod in s.byPod then
      var e := s.byPod[pod];
      (s, if backend == Vm && e.backend != Vm then BackendMismatch
          else if e.ip != ip then RefusedRebind
          else if ensured then Bound(ip) else AliasFailed)
    else if ip in s.inverse then (s, InUse)
    else if !IsHost(s.pool.base, ip) then (s, OutOfRange)
    else if ip in s.pool.held then (s, HeldButUnbound)
    else if !ensured then (s, AliasFailed)
    else (Bind(s.(pool := s.pool.(held := s.pool.held + {ip})), pod, Entry(ip, backend)), Bound(ip))
  }

  function Next(s: State, e: Event): (State, Answer)
    requires s.pool.Valid()
  {
    match e
    case Setup(pod, backend, ensured) => SetUp(s, pod, backend, ensured)
    case Teardown(pod, removed) => TornDown(s, pod, removed)
    case Reattach(pod, ip, backend, ensured) => Reattached(s, pod, ip, backend, ensured)
  }

  /** Pods and addresses in bijection, the addresses exactly the allocator's held set,
      all of them hosts of the /24. */
  predicate Inv(s: State) {
    && s.pool.Valid() && "" !in s.byPod
    && s.pool.held == s.inverse.Keys
    && (forall pod <- s.byPod :: s.byPod[pod].ip in s.inverse && s.inverse[s.byPod[pod].ip] == pod)
    && (forall ip <- s.inverse :: s.inverse[ip] in s.byPod && s.byPod[s.inverse[ip]].ip == ip)
  }

  function Run(base: nat, events: seq<Event>): (s: State)
    ensures s.pool.Valid()
  {
    if events == [] then Start(base)
    else
      var s := Run(base, events[..|events| - 1]);
      StepStaysValid(s, events[|events| - 1]);
      Next(s, events[|events| - 1]).0
  }

  lemma {:induction false} StepStaysValid(s: State, e: Event)
    requires s.pool.Valid()
    ensures Next(s, e).0.pool.Valid()
  {
    ExhaustedExactlyWhenFull(s.pool);
  }

  lemma {:induction false} BindKeeps(s: State, pod: string, e: Entry, pool: Pool)
    requires Inv(s) && pod != "" && pod !in s.byPod && e.ip !in s.inverse
    requires pool.Valid() && pool.held == s.pool.held + {e.ip}
    ensures Inv(Bind(s.(pool := pool), pod, e))
  {
    var t := Bind(s.(pool := pool), pod, e);
    assert t.inverse.Keys == s.inverse.Keys + {e.ip};
  }

  lemma {:induction false} UnbindKeeps(s: State, pod: string)
    requires Inv(s) && pod in s.byPod
    ensures Inv(TornDown(s, pod, true).0)
  {
    var t := TornDown(s, pod, true).0;
    if pod != "" {
      assert t.inverse.Keys == s.inverse.Keys - {s.byPod[pod].ip};
    }
  }

  lemma {:induction false} StepKeeps(s: State, e: Event)
    requires Inv(s)
    ensures Inv(Next(s, e).0)
  {
    ExhaustedExactlyWhenFull(s.pool);
    match e
    case Setup(pod, backend, ensured) =>
      if pod != "" && pod !in s.byPod && ensured && Free(s.pool).Some? {
        var ip := Free(s.pool).value;
        BindKeeps(s, pod, Entry(ip, backend), Take(s.pool, ip));
      }
    case Teardown(pod, removed) => if pod in s.byPod && removed { UnbindKeeps(s, pod); }
    case Reattach(pod, ip, backend, ensured) =>
      if Reattached(s, pod, ip, backend, ensured).1.Bound? && pod !in s.byPod {
        BindKeeps(s, pod, Entry(ip, backend), s.pool.(held := s.pool.held + {ip}));
      }
  }

  /** Over every run: the bijection holds. */
  lemma {:induction false} RunKeeps(base: nat, events: seq<Event>)
    ensures Inv(Run(base, events)) && Run(base, events).pool.base == base
    decreases |events|
  {
    if events != [] {
      RunKeeps(base, events[..|events| - 1]);
      StepKeeps(Run(base, events[..|events| - 1]), events[|events| - 1]);
    }
  }

  /** Over every run: no two pods share an address, and every pod's is a host of the /24. */
  lemma {:induction false} AddressesAreUnique(base: nat, events: seq<Event>, a: string, b: string)
    requires a in Run(base, events).byPod && b in Run(base, events).byPod
    ensures IsHost(base, Run(base, events).byPod[a].ip)
    ensures Run(base, events).byPod[a].ip == Run(base, events).byPod[b].ip ==> a == b
  {
    RunKeeps(base, events);
    assert Run(base, events).byPod[a].ip in Run(base, events).inverse;
  }

  /** Over every run: the held-but-unbound refusal is never given. */
  lemma {:induction false} HeldIsAlwaysBound(base: nat, events: seq<Event>, e: Event)
    ensures Next(Run(base, events), e).1 != HeldButUnbound
  {
    RunKeeps(base, events);
  }

  /** Over every run: a held address is released by exactly one thing, the teardown of
      the pod that holds it, after its alias removal succeeded. */
  lemma {:induction false} ReleasedOnlyByItsTeardown(base: nat, events: seq<Event>, e: Event, ip: nat)
    ensures Run(base, events).pool.held == Run(base, events).inverse.Keys
    ensures ip in Run(base, events).inverse ==>
              (ip !in Next(Run(base, events), e).0.pool.held <==> e == Teardown(Run(base, events).inverse[ip], true))
  {
    RunKeeps(base, events);
    var s := Run(base, events);
    ExhaustedExactlyWhenFull(s.pool);
    if ip in s.inverse && e.Teardown? && e.pod in s.byPod {
      assert s.byPod[e.pod].ip == ip <==> s.inverse[ip] == e.pod;
    }
  }

  /** Over every run: a fresh Setup is refused for want of addresses exactly when every
      host of the /24 is bound to a pod. */
  lemma {:induction false} ExhaustedExactlyWhenAllBound(base: nat, events: seq<Event>, pod: string, backend: Backend,
                                                        ensured: bool)
    requires pod != "" && pod !in Run(base, events).byPod
    ensures Next(Run(base, events), Setup(pod, backend, ensured)).1 == PoolExhausted
            <==> forall ip :: IsHost(base, ip) ==> ip in Run(base, events).inverse
  {
    RunKeeps(base, events);
    ExhaustedExactlyWhenFull(Run(base, events).pool);
  }

  /** Over every run: Setup of a bound pod, and a reattach of its own binding, change nothing
      and answer the address it has. */
  lemma {:induction false} RepeatIsIdempotent(base: nat, events: seq<Event>, pod: string)
    requires pod in Run(base, events).byPod && pod != ""
    ensures var s := Run(base, events);
            var e := s.byPod[pod];
            && Next(s, Setup(pod, e.backend, true)) == (s, Bound(e.ip))
            && Next(s, Reattach(pod, e.ip, e.backend, true)) == (s, Bound(e.ip))
            && Next(s, Reattach(pod, e.ip, HostProcess, true)) == (s, Bound(e.ip))
  {
  }

  /** A failed Setup or reattach binds nothing and holds nothing: only the cursor moves. */
  lemma {:induction false} FailureLeaksNothing(s: State, e: Event)
    requires Inv(s) && !Next(s, e).1.Bound? && !Next(s, e).1.Gone?
    ensures Next(s, e).0 == s.(pool := s.pool.(next := Next(s, e).0.pool.next))
  {
    ExhaustedExactlyWhenFull(s.pool);
  }

  class Network {
    const alloc: Allocator
    var byPod: map<string, Entry>
    var inverse: map<nat, string>

    function Value(): State
      reads this, alloc
    {
      State(alloc.Value(), byPod, inverse)
    }

    constructor (base: nat)
      ensures fresh(alloc) && Value() == Start(base) && Inv(Value())
    {
      alloc := new Allocator(base);
      byPod, inverse := map[], map[];
    }

    /** Setup and SetupGuest. `ensured` is the alias manager's answer, if it is asked. */
    method Setup(pod: string, backend: Backend, ensured: bool) returns (a: Answer)
      requires Inv(Value())
      modifies this, alloc
      ensures (Value(), a) == SetUp(old(Value()), pod, backend, ensured)
    {
      if pod == "" { return EmptyPod; }
      if pod in byPod {
        var e := byPod[pod];
        if e.backend != backend { return BackendMismatch; }
        if !ensured { return AliasFailed; }
        return Bound(e.ip);
      }
      ExhaustedExactlyWhenFull(alloc.Value());
      var ip := alloc.Allocate();
      if ip.None? { return PoolExhausted; }
      if !ensured {
        var _ := alloc.Release(ip.value);
        return AliasFailed;
      }
      byPod := byPod[pod := Entry(ip.value, backend)];
      inverse := inverse[ip.value := pod];
      a := Bound(ip.value);
    }

    method Teardown(pod: string, removed: bool) returns (a: Answer)
      requires Inv(Value())
      modifies this, alloc
      ensures (Value(), a) == TornDown(old(Value()), pod, removed)
    {
      if pod == "" { return EmptyPod; }
      if pod !in byPod { return Gone; }
      var ip := byPod[pod].ip;
      if !removed { return AliasFailed; }
      var _ := alloc.Release(ip);
      byPod := byPod - {pod};
      inverse := inverse - {ip};
      a := Gone;
    }

    /** ReattachPod and ReattachGuest. */
    method Reattach(pod: string, ip: nat, backend: Backend, ensured: bool) returns (a: Answer)
      requires Inv(Value())
      modifies this, alloc
      ensures (Value(), a) == Reattached(old(Value()), pod, ip, backend, ensured)
    {
      if pod == "" { return EmptyPod; }
      if pod in byPod {
        var e := byPod[pod];
        if backend == Vm && e.backend != Vm { return BackendMismatch; }
        if e.ip != ip { return RefusedRebind; }
        if !ensured { return AliasFailed; }
        return Bound(ip);
      }
      if ip in inverse { return InUse; }
      var alreadyHeld := alloc.AllocateSpecific(ip);
      if alreadyHeld.None? { return OutOfRange; }
      if alreadyHeld.value { return HeldButUnbound; }
      if !ensured {
        var _ := alloc.Release(ip);
        return AliasFailed;
      }
      byPod := byPod[pod := Entry(ip, backend)];
      inverse := inverse[ip := pod];
      a := Bound(ip);
    }

    /** SweepStale: asks for the removal of exactly the hosts no known or bound pod has,
        and succeeds exactly when each of them does. `removable` are the addresses whose
        removal succeeds. Nothing bound changes. */
    method SweepStale(known: map<string, nat>, removable: set<nat>) returns (ok: bool, asked: seq<nat>)
      requires Inv(Value())
      ensures forall ip :: ip in asked <==> IsHost(alloc.base, ip) && ip !in known.Values && ip !in inverse
      ensures ok <==> forall ip <- asked :: ip in removable
    {
      var keep := known.Values + inverse.Keys;
      ok, asked := true, [];
      var ip := alloc.base + 2;
      while ip <= alloc.base + 254
        invariant alloc.base + 2 <= ip <= alloc.base + 255
        invariant forall a :: a in asked <==> alloc.base + 2 <= a < ip && a !in keep
        invariant ok <==> forall a <- asked :: a in removable
      {
        if ip !in keep {
          asked := asked + [ip];
          if ip !in removable { ok := false; }
        }
        ip := ip + 1;
      }
    }
  }
}
