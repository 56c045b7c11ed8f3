/** ClientIP session affinity of the Service proxy (pkg/proxy/affinity.go over the
    snapshot of pkg/proxy/routing.go): the binding table, its exact live-binding
    counter, its two caps, and the critical section of a sticky pick. The class at
    the end is the table the source updates in place under `affMu`; the functions
    before it are the values its methods are proved to compute, and
    AffinityProtocol interleaves them. */
module Affinity {

  datatype PortKey = PortKey(clusterIP: string, port: int, protocol: string)
  datatype Client = Client(ip: nat)
  datatype AddrPort = AddrPort(ip: nat, port: nat)
  datatype Backend = Backend(addr: AddrPort, nodeLocal: bool)
  datatype Binding = Binding(backend: Backend, lastSeen: int)
  type Binds = map<Client, Binding>
  type Bindings = map<PortKey, Binds>

  /** One published per-port state. `id` stands for the pointer: every install
      allocates a new one, so equal values are the same object. */
  datatype PortState = PortState(id: nat, all: seq<Backend>, localOnly: bool, clientIP: bool, timeout: int) {
    function Locals(): seq<Backend> {
      NodeLocal(all)
    }
  }

  type Snapshot = map<PortKey, PortState>

  datatype PickError = NoBackends | NoLocalBackends
  datatype Scoped = NoPool(error: PickError) | Pool(st: PortState, pool: seq<Backend>)

  datatype Request = Request(key: PortKey, client: Client, now: int, external: bool)

  datatype Table = Table(bindings: Bindings, count: int, warned: bool)

  /** The two caps as the pick reads them (`max(1, …)`). */
  datatype Caps = Caps(perPort: int, total: int) {
    function PerPort(): int { if perPort < 1 then 1 else perPort }
    function Total(): int { if total < 1 then 1 else total }
  }

  function NodeLocal(bs: seq<Backend>): (r: seq<Backend>)
    ensures forall b <- r :: b in bs
  {
    if bs == [] then []
    else if bs[0].nodeLocal then [bs[0]] + NodeLocal(bs[1..])
    else NodeLocal(bs[1..])
  }

  function Addrs(pool: seq<Backend>): set<AddrPort> {
    set b <- pool :: b.addr
  }

  /** RoutingTable.scoped with activePool: the pool the scope selects in `snap`. */
  function ScopedPool(snap: Snapshot, key: PortKey, external: bool, podCIDRValid: bool): (r: Scoped)
    ensures r.Pool? ==> key in snap && r.st == snap[key] && r.pool != [] && Addrs(r.pool) <= Addrs(r.st.all)
    ensures external && r.NoPool? ==> key !in snap || snap[key].all == []
  {
    if key !in snap || snap[key].all == [] then NoPool(NoBackends)
    else
      var st := snap[key];
      if external || !st.localOnly || !podCIDRValid then Pool(st, st.all)
      else if st.Locals() == [] then NoPool(NoLocalBackends)
      else Pool(st, st.Locals())
  }

  function RoundRobin(pool: seq<Backend>, cursor: nat): (b: Backend)
    requires pool != []
    ensures b in pool
  {
    pool[cursor % |pool|]
  }

  function BindsOf(b: Bindings, key: PortKey): Binds {
    if key in b then b[key] else map[]
  }

  function DropOne(t: Table, key: PortKey, client: Client): Table
    requires key in t.bindings
  {
    t.(bindings := t.bindings[key := t.bindings[key] - {client}], count := t.count - 1)
  }

  function DropAll(t: Table, key: PortKey): Table {
    t.(bindings := t.bindings - {key}, count := t.count - |BindsOf(t.bindings, key)|)
  }

  /** How a pick's critical section leaves the lock before its generation check:
      answered outright, or owing a record of `be`. */
  datatype Opening = Answered(be: Backend, t: Table) | Owes(be: Backend, t: Table)

  function Hits(t: Table, req: Request, st: PortState, pool: seq<Backend>): bool {
    var binds := BindsOf(t.bindings, req.key);
    req.client in binds
    && binds[req.client].backend.addr in Addrs(pool)
    && req.now - binds[req.client].lastSeen < st.timeout
  }

  function Unstuck(t: Table, req: Request): Table {
    if req.client in BindsOf(t.bindings, req.key) then DropOne(t, req.key, req.client) else t
  }

  /** The eviction at the per-port cap. `victim` is the entry the map iteration happens
      to visit first. */
  function Evicted(t: Table, caps: Caps, key: PortKey, victim: Client): Table {
    if |BindsOf(t.bindings, key)| >= caps.PerPort() && key in t.bindings then DropOne(t, key, victim) else t
  }

  ghost predicate VictimOk(t: Table, caps: Caps, req: Request, victim: Client) {
    var u := Unstuck(t, req);
    |BindsOf(u.bindings, req.key)| >= caps.PerPort() ==> victim in BindsOf(u.bindings, req.key)
  }

  /** From the reload under `affMu` to just before the generation check. */
  function Open(t: Table, caps: Caps, req: Request, st: PortState, pool: seq<Backend>, cursor: nat,
                victim: Client): Opening
    requires pool != []
  {
    if Hits(t, req, st, pool) then
      var b := t.bindings[req.key][req.client];
      Answered(b.backend,
               t.(bindings := t.bindings[req.key := t.bindings[req.key][req.client := b.(lastSeen := req.now)]]))
    else
      var be := RoundRobin(pool, cursor);
      var e := Evicted(Unstuck(t, req), caps, req.key, victim);
      if e.count >= caps.Total() then Answered(be, e.(warned := true))
      else Owes(be, e.(warned := false))
  }

  function Record(t: Table, req: Request, be: Backend): Table {
    t.(bindings := t.bindings[req.key := BindsOf(t.bindings, req.key)[req.client := Binding(be, req.now)]],
       count := t.count + 1)
  }

  function Unexpired(binds: Binds, now: int, timeout: int): Binds {
    map c | c in binds && now - binds[c].lastSeen < timeout :: binds[c]
  }

  /** The same with the clients in `todo` not reached yet. */
  function Idling(binds: Binds, now: int, timeout: int, todo: set<Client>): Binds {
    map c | c in binds && (c in todo || now - binds[c].lastSeen < timeout) :: binds[c]
  }

  lemma IdlingStep(binds: Binds, now: int, timeout: int, todo: set<Client>, c: Client)
    requires c in todo && c in binds
    ensures var before := Idling(binds, now, timeout, todo);
            && c in before && before[c] == binds[c]
            && Idling(binds, now, timeout, todo - {c})
               == if now - binds[c].lastSeen < timeout then before else before - {c}
  {
  }

  /** SweepExpired on values, with the ports in `todo` not reached yet. */
  function Swept(b: Bindings, snap: Snapshot, now: int, todo: set<PortKey>): Bindings {
    map k | k in b && (k in todo || (k in snap && Unexpired(b[k], now, snap[k].timeout) != map[]))
      :: if k in todo then b[k] else Unexpired(b[k], now, snap[k].timeout)
  }

  /** What handling one more port does to a sweep in progress. */
  lemma SweptStep(b: Bindings, snap: Snapshot, now: int, todo: set<PortKey>, key: PortKey)
    requires key in todo && todo <= b.Keys
    ensures var before := Swept(b, snap, now, todo);
            var after := Swept(b, snap, now, todo - {key});
            && key in before && before[key] == b[key]
            && (if key in snap && Unexpired(b[key], now, snap[key].timeout) != map[]
                then after == before[key := Unexpired(b[key], now, snap[key].timeout)]
                else after == before - {key})
  {
  }

  ghost function SweptTable(t: Table, snap: Snapshot, now: int): Table {
    var b := Swept(t.bindings, snap, now, {});
    t.(bindings := b, count := t.count - (Sum(t.bindings) - Sum(b)))
  }

  // ---- the counter is the sum of the per-port binding counts ----

  ghost function Sum(b: Bindings): nat {
    Total(Sizes(b))
  }

  function Sizes(b: Bindings): map<PortKey, nat> {
    map k | k in b :: |b[k]|
  }

  lemma SumEmpty()
    ensures Sum(map[]) == 0
  {
    assert Sizes(map[]) == map[];
  }

  ghost function Total(sizes: map<PortKey, nat>): nat {
    if sizes == map[] then 0
    else
      var k :| k in sizes;
      sizes[k] + Total(sizes - {k})
  }

  /** The total does not depend on the order the ports are added up in. */
  lemma {:induction false} TotalTakes(sizes: map<PortKey, nat>, k: PortKey)
    requires k in sizes
    ensures Total(sizes) == sizes[k] + Total(sizes - {k})
    decreases |sizes|
  {
    var j :| j in sizes && Total(sizes) == sizes[j] + Total(sizes - {j});
    if j != k {
      TotalTakes(sizes - {j}, k);
      TotalTakes(sizes - {k}, j);
      assert sizes - {j} - {k} == sizes - {k} - {j};
    }
  }

  lemma {:induction false} SumDrop(b: Bindings, k: PortKey)
    ensures Sum(b - {k}) == Sum(b) - |BindsOf(b, k)|
  {
    assert Sizes(b - {k}) == Sizes(b) - {k};
    if k in b {
      TotalTakes(Sizes(b), k);
    } else {
      assert b - {k} == b;
    }
  }

  lemma {:induction false} SumPut(b: Bindings, k: PortKey, binds: Binds)
    ensures Sum(b[k := binds]) == Sum(b) - |BindsOf(b, k)| + |binds|
  {
    var put := b[k := binds];
    assert put - {k} == b - {k};
    SumDrop(b, k);
    SumDrop(put, k);
  }

  lemma SizeWithout(m: Binds, c: Client)
    requires c in m
    ensures |m - {c}| == |m| - 1
  {
    assert m == (m - {c})[c := m[c]];
  }

  /** The table invariant: an exact counter, and neither cap exceeded. */
  ghost predicate WellCounted(t: Table, caps: Caps) {
    && t.count == Sum(t.bindings)
    && t.count <= caps.Total()
    && forall k <- t.bindings :: |t.bindings[k]| <= caps.PerPort()
  }

  lemma DropOneKeeps(t: Table, caps: Caps, key: PortKey, client: Client)
    requires WellCounted(t, caps) && key in t.bindings && client in t.bindings[key]
    ensures WellCounted(DropOne(t, key, client), caps)
    ensures |BindsOf(DropOne(t, key, client).bindings, key)| == |t.bindings[key]| - 1
  {
    SizeWithout(t.bindings[key], client);
    SumPut(t.bindings, key, t.bindings[key] - {client});
  }

  lemma DropAllKeeps(t: Table, caps: Caps, key: PortKey)
    requires WellCounted(t, caps)
    ensures WellCounted(DropAll(t, key), caps)
    ensures key !in DropAll(t, key).bindings
  {
    SumDrop(t.bindings, key);
  }

  lemma {:induction false} HitKeeps(t: Table, caps: Caps, req: Request, st: PortState, pool: seq<Backend>,
                                    cursor: nat, victim: Client)
    requires WellCounted(t, caps) && pool != [] && Hits(t, req, st, pool)
    ensures var o := Open(t, caps, req, st, pool, cursor, victim);
            && o.Answered? && WellCounted(o.t, caps) && o.t.bindings.Keys == t.bindings.Keys
            && o.be == t.bindings[req.key][req.client].backend && o.be.addr in Addrs(pool)
  {
    var b := t.bindings[req.key];
    var refreshed := b[req.client := b[req.client].(lastSeen := req.now)];
    SumPut(t.bindings, req.key, refreshed);
    assert refreshed.Keys == b.Keys;
    assert |refreshed| == |refreshed.Keys| == |b|;
  }

  lemma {:induction false} EvictedKeeps(u: Table, caps: Caps, key: PortKey, victim: Client)
    requires WellCounted(u, caps)
    requires |BindsOf(u.bindings, key)| >= caps.PerPort() ==> victim in BindsOf(u.bindings, key)
    ensures var e := Evicted(u, caps, key, victim);
            && WellCounted(e, caps) && e.bindings.Keys == u.bindings.Keys
            && |BindsOf(e.bindings, key)| < caps.PerPort()
            && BindsOf(e.bindings, key).Keys <= BindsOf(u.bindings, key).Keys
  {
    if |BindsOf(u.bindings, key)| >= caps.PerPort() {
      DropOneKeeps(u, caps, key, victim);
    }
  }

  /** The opening half of a pick keeps the table well counted, answers only with a
      backend eligible in the generation it reloaded, and when it still owes a record it
      has left room for exactly one more binding under both caps. */
  lemma {:induction false} OpenKeeps(t: Table, caps: Caps, req: Request, st: PortState, pool: seq<Backend>,
                                     cursor: nat, victim: Client)
    requires WellCounted(t, caps) && pool != [] && VictimOk(t, caps, req, victim)
    ensures var o := Open(t, caps, req, st, pool, cursor, victim);
            && WellCounted(o.t, caps)
            && o.be.addr in Addrs(pool)
            && o.t.bindings.Keys == t.bindings.Keys
            && (o.Owes? ==> && req.client !in BindsOf(o.t.bindings, req.key)
                            && |BindsOf(o.t.bindings, req.key)| < caps.PerPort()
                            && o.t.count < caps.Total())
  {
    if Hits(t, req, st, pool) {
      HitKeeps(t, caps, req, st, pool, cursor, victim);
    } else {
      UnstuckKeeps(t, caps, req);
      EvictedKeeps(Unstuck(t, req), caps, req.key, victim);
    }
  }

  lemma UnstuckKeeps(t: Table, caps: Caps, req: Request)
    requires WellCounted(t, caps)
    ensures WellCounted(Unstuck(t, req), caps)
    ensures req.client !in BindsOf(Unstuck(t, req).bindings, req.key)
  {
    if req.client in BindsOf(t.bindings, req.key) {
      DropOneKeeps(t, caps, req.key, req.client);
    }
  }

  lemma RecordKeeps(t: Table, caps: Caps, req: Request, be: Backend)
    requires WellCounted(t, caps)
    requires req.client !in BindsOf(t.bindings, req.key)
    requires |BindsOf(t.bindings, req.key)| < caps.PerPort() && t.count < caps.Total()
    ensures WellCounted(Record(t, req, be), caps)
  {
    SumPut(t.bindings, req.key, BindsOf(t.bindings, req.key)[req.client := Binding(be, req.now)]);
  }

  lemma UnexpiredSize(binds: Binds, now: int, timeout: int)
    ensures |Unexpired(binds, now, timeout)| <= |binds|
  {
    SubsetSize(Unexpired(binds, now, timeout).Keys, binds.Keys);
  }

  lemma SubsetSize<T>(a: set<T>, b: set<T>)
    requires a <= b
    ensures |a| <= |b|
  {
    assert b == a + (b - a);
  }

  lemma {:induction false} TotalShrinks(b: map<PortKey, nat>, c: map<PortKey, nat>)
    requires c.Keys <= b.Keys && forall k <- c :: c[k] <= b[k]
    ensures Total(c) <= Total(b)
    decreases |c|
  {
    if c != map[] {
      var k :| k in c;
      TotalTakes(c, k);
      TotalTakes(b, k);
      TotalShrinks(b - {k}, c - {k});
    }
  }

  /** A sweep keeps the counter exact and leaves precisely the bindings that are still
      within their port's timeout, on ports the snapshot still has. */
  lemma SweepKeeps(t: Table, caps: Caps, snap: Snapshot, now: int)
    requires WellCounted(t, caps)
    ensures WellCounted(SweptTable(t, snap, now), caps)
    ensures forall k: PortKey, c: Client :: c in BindsOf(SweptTable(t, snap, now).bindings, k) <==>
              c in BindsOf(t.bindings, k) && k in snap && now - t.bindings[k][c].lastSeen < snap[k].timeout
  {
    var b := Swept(t.bindings, snap, now, {});
    forall k | k in b
      ensures |b[k]| <= |t.bindings[k]|
    {
      UnexpiredSize(t.bindings[k], now, snap[k].timeout);
    }
    TotalShrinks(Sizes(t.bindings), Sizes(b));
  }

  datatype PickResult = Failed(error: PickError) | Picked(be: Backend)

  /** One pick with the three generations its loads return: the lock-free one that only
      decides whether to lock, the one reloaded under `affMu`, and the one the record is
      validated against. */
  function Pick(t: Table, caps: Caps, req: Request, first: Snapshot, reloaded: Snapshot, current: Snapshot,
                podCIDRValid: bool, cursor: nat, victim: Client): (PickResult, Table)
  {
    match ScopedPool(first, req.key, req.external, podCIDRValid)
    case NoPool(e) => (Failed(e), t)
    case Pool(st0, pool0) =>
      if !st0.clientIP then (Picked(RoundRobin(pool0, cursor)), t)
      else
        match ScopedPool(reloaded, req.key, req.external, podCIDRValid)
        case NoPool(e) => (Failed(e), t)
        case Pool(st, pool) =>
          if !st.clientIP then (Picked(RoundRobin(pool, cursor)), t)
          else
            var o := Open(t, caps, req, st, pool, cursor, victim);
            if o.Owes? && req.key in current && current[req.key] == st then (Picked(o.be), Record(o.t, req, o.be))
            else (Picked(o.be), o.t)
  }

  /** The binding table as the source holds it: every method runs under `affMu`. */
  class AffinityTable {
    var bindings: Bindings
    var count: int
    var warned: bool
    const caps: Caps

    constructor (caps: Caps)
      ensures Value() == Table(map[], 0, false) && this.caps == caps
      ensures WellCounted(Value(), caps)
    {
      this.caps := caps;
      bindings, count, warned := map[], 0, false;
    }

    function Value(): Table
      reads this
    {
      Table(bindings, count, warned)
    }

    method DropBinding(key: PortKey, client: Client)
      requires key in bindings && client in bindings[key]
      modifies this`bindings, this`count
      ensures Value() == DropOne(old(Value()), key, client)
      ensures count - Sum(bindings) == old(count) - Sum(old(bindings))
    {
      SizeWithout(bindings[key], client);
      SumPut(bindings, key, bindings[key] - {client});
      bindings := bindings[key := bindings[key] - {client}];
      count := count - 1;
    }

    method DropAffinity(key: PortKey)
      modifies this`bindings, this`count
      ensures Value() == DropAll(old(Value()), key)
      ensures count - Sum(bindings) == old(count) - Sum(old(bindings))
    {
      SumDrop(bindings, key);
      count := count - |BindsOf(bindings, key)|;
      bindings := bindings - {key};
    }

    /** SweepExpired: port by port, then client by client, dropping what idled out. */
    method SweepExpired(snap: Snapshot, now: int)
      modifies this`bindings, this`count
      ensures Value() == SweptTable(old(Value()), snap, now)
    {
      ghost var b0 := bindings;
      var todo := bindings.Keys;
      assert bindings == Swept(b0, snap, now, todo);
      while todo != {}
        invariant todo <= b0.Keys
        invariant bindings == Swept(b0, snap, now, todo)
        invariant count - Sum(bindings) == old(count) - Sum(b0)
        decreases |todo|
      {
        var key :| key in todo;
        SweptStep(b0, snap, now, todo, key);
        SweepKey(key, snap, now);
        todo := todo - {key};
      }
    }

    /** One turn of SweepExpired's loop. */
    method SweepKey(key: PortKey, snap: Snapshot, now: int)
      requires key in bindings
      modifies this`bindings, this`count
      ensures bindings == if key in snap && Unexpired(old(bindings)[key], now, snap[key].timeout) != map[]
                          then old(bindings)[key := Unexpired(old(bindings)[key], now, snap[key].timeout)]
                          else old(bindings) - {key}
      ensures count - Sum(bindings) == old(count) - Sum(old(bindings))
    {
      if key !in snap {
        DropAffinity(key);
      } else {
        SweepPort(key, now, snap[key].timeout);
        if bindings[key] == map[] {
          DropAffinity(key);
        }
      }
    }

    /** The inner loop of SweepExpired over one port's clients. */
    method SweepPort(key: PortKey, now: int, timeout: int)
      requires key in bindings
      modifies this`bindings, this`count
      ensures bindings == old(bindings)[key := Unexpired(old(bindings)[key], now, timeout)]
      ensures count - Sum(bindings) == old(count) - Sum(old(bindings))
    {
      ghost var b0 := bindings;
      ghost var binds0 := bindings[key];
      var todo := bindings[key].Keys;
      assert Idling(binds0, now, timeout, todo) == binds0;
      assert b0[key := binds0] == b0;
      while todo != {}
        invariant todo <= binds0.Keys
        invariant bindings == b0[key := Idling(binds0, now, timeout, todo)]
        invariant count - Sum(bindings) == old(count) - Sum(b0)
        decreases |todo|
      {
        var client :| client in todo;
        IdlingStep(binds0, now, timeout, todo, client);
        if now - bindings[key][client].lastSeen >= timeout {
          DropBinding(key, client);
        }
        todo := todo - {client};
      }
      assert Idling(binds0, now, timeout, {}) == Unexpired(binds0, now, timeout);
    }

    /** pickStickyScoped from the lookup of the client's binding to the ceiling check:
        `owes` says a record of `be` is still to be validated and made. */
    method OpenPick(req: Request, st: PortState, pool: seq<Backend>, cursor: nat)
      returns (be: Backend, owes: bool, ghost victim: Client)
      requires pool != []
      modifies this
      ensures VictimOk(old(Value()), caps, req, victim)
      ensures Open(old(Value()), caps, req, st, pool, cursor, victim)
              == if owes then Owes(be, Value()) else Answered(be, Value())
    {
      ghost var t0 := Value();
      ghost var u := Unstuck(t0, req);
      var key, client := req.key, req.client;
      victim := client;
      if |BindsOf(u.bindings, key)| >= caps.PerPort() {
        assert BindsOf(u.bindings, key).Keys != {};
        victim :| victim in BindsOf(u.bindings, key);
      }
      if key in bindings && client in bindings[key] {
        var b := bindings[key][client];
        if b.backend.addr in Addrs(pool) && req.now - b.lastSeen < st.timeout {
          bindings := bindings[key := bindings[key][client := b.(lastSeen := req.now)]];
          return b.backend, false, victim;
        }
        DropBinding(key, client);
      }
      assert Value() == u && !Hits(t0, req, st, pool);
      be := RoundRobin(pool, cursor);
      if key in bindings && |bindings[key]| >= caps.PerPort() {
        var evict :| evict in bindings[key];
        victim := evict;
        DropBinding(key, evict);
      }
      assert Value() == Evicted(u, caps, key, victim);
      owes := count < caps.Total();
      warned := !owes;
    }

    /** pickStickyScoped. `first`, `reloaded` and `current` are what its three loads
        return; `cursor` is the round-robin slot it claims. */
    method PickStickyScoped(req: Request, first: Snapshot, reloaded: Snapshot, current: Snapshot,
                            podCIDRValid: bool, cursor: nat) returns (r: PickResult, ghost victim: Client)
      modifies this
      ensures (r, Value()) == Pick(old(Value()), caps, req, first, reloaded, current, podCIDRValid, cursor, victim)
    {
      victim := req.client;
      var seen := ScopedPool(first, req.key, req.external, podCIDRValid);
      if seen.NoPool? {
        return Failed(seen.error), victim;
      }
      if !seen.st.clientIP {
        return Picked(RoundRobin(seen.pool, cursor)), victim;
      }
      var live := ScopedPool(reloaded, req.key, req.external, podCIDRValid);
      if live.NoPool? {
        return Failed(live.error), victim;
      }
      if !live.st.clientIP {
        return Picked(RoundRobin(live.pool, cursor)), victim;
      }
      var be, owes;
      be, owes, victim := OpenPick(req, live.st, live.pool, cursor);
      if owes && req.key in current && current[req.key] == live.st {
        bindings := bindings[req.key := BindsOf(bindings, req.key)[req.client := Binding(be, req.now)]];
        count := count + 1;
      }
      return Picked(be), victim;
    }
  }
}
