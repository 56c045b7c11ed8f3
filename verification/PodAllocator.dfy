/** The pod address allocator of one node /24 (pkg/podnet/allocator.go:153-241, 278-301):
    unique hosts .2 through .254 from a rotating cursor. */
module PodAllocator {
  import opened Text

  /** The hosts a /24 with network address `base` yields. */
  const HOSTS := 253

  predicate IsHost(base: nat, ip: nat) { base + 2 <= ip <= base + 254 }

  datatype Pool = Pool(base: nat, next: nat, held: set<nat>) {
    predicate Valid() {
      base + 2 <= next <= base + 255 && forall ip <- held :: IsHost(base, ip)
    }
  }

  /** The candidate k places after the cursor, wrapping past .254. */
  function At(base: nat, next: nat, k: nat): (ip: nat)
    requires base + 2 <= next <= base + 255
    ensures IsHost(base, ip)
  {
    base + 2 + (next - base - 2 + k) % HOSTS
  }

  /** The first free candidate at or after place k of the scan. */
  function FreeFrom(p: Pool, k: nat): Option<nat>
    requires p.Valid() && k <= HOSTS
    decreases HOSTS - k
  {
    if k == HOSTS then None
    else if At(p.base, p.next, k) !in p.held then Some(At(p.base, p.next, k))
    else FreeFrom(p, k + 1)
  }

  function Free(p: Pool): Option<nat>
    requires p.Valid()
  {
    FreeFrom(p, 0)
  }

  function Take(p: Pool, ip: nat): Pool { Pool(p.base, ip + 1, p.held + {ip}) }

  lemma {:induction false} FreeFromFinds(p: Pool, k: nat)
    requires p.Valid() && k <= HOSTS
    ensures FreeFrom(p, k).Some? ==> IsHost(p.base, FreeFrom(p, k).value) && FreeFrom(p, k).value !in p.held
    ensures FreeFrom(p, k).None? <==> forall j :: k <= j < HOSTS ==> At(p.base, p.next, j) in p.held
    decreases HOSTS - k
  {
    if k < HOSTS {
      FreeFromFinds(p, k + 1);
    }
  }

  lemma {:induction false} EveryHostIsScanned(base: nat, next: nat, ip: nat)
    requires base + 2 <= next <= base + 255 && IsHost(base, ip)
    ensures exists k :: 0 <= k < HOSTS && At(base, next, k) == ip
  {
    var k := if ip >= next then ip - next else ip - next + HOSTS;
    assert At(base, next, k) == ip;
  }

  /** Allocation fails exactly when all 253 hosts are held. */
  lemma {:induction false} ExhaustedExactlyWhenFull(p: Pool)
    requires p.Valid()
    ensures Free(p).None? <==> forall ip :: IsHost(p.base, ip) ==> ip in p.held
    ensures Free(p).Some? ==>
              IsHost(p.base, Free(p).value) && Free(p).value !in p.held && Take(p, Free(p).value).Valid()
  {
    FreeFromFinds(p, 0);
    if Free(p).None? {
      forall ip | IsHost(p.base, ip) ensures ip in p.held {
        EveryHostIsScanned(p.base, p.next, ip);
        var k :| 0 <= k < HOSTS && At(p.base, p.next, k) == ip;
      }
    }
  }

  lemma {:induction false} NextCandidate(base: nat, next: nat, k: nat)
    requires base + 2 <= next <= base + 255
    ensures At(base, next, k + 1) == if At(base, next, k) + 1 > base + 254 then base + 2 else At(base, next, k) + 1
    ensures At(base, next, 0) == if next > base + 254 then base + 2 else next
  {
    var x := next - base - 2 + k;
    assert (x + 1) % HOSTS == if x % HOSTS == HOSTS - 1 then 0 else x % HOSTS + 1;
  }

  class Allocator {
    const base: nat
    var next: nat
    var held: set<nat>

    function Value(): Pool
      reads this
    {
      Pool(base, next, held)
    }

    constructor (base: nat)
      ensures Value() == Pool(base, base + 2, {}) && Value().Valid()
    {
      this.base := base;
      next, held := base + 2, {};
    }

    method Allocate() returns (r: Option<nat>)
      requires Value().Valid()
      modifies this
      ensures r == Free(old(Value()))
      ensures Value() == if r.Some? then Take(old(Value()), r.value) else old(Value())
    {
      var first, last := base + 2, base + 254;
      var candidate := next;
      NextCandidate(base, next, 0);
      for i := 0 to HOSTS
        invariant Value() == old(Value()) && Free(Value()) == FreeFrom(Value(), i)
        invariant (if candidate > last then first else candidate) == At(base, next, i)
      {
        if candidate > last { candidate := first; }
        if candidate !in held {
          r := Some(candidate);
          held := held + {candidate};
          next := candidate + 1;
          return;
        }
        NextCandidate(base, next, i);
        candidate := candidate + 1;
      }
      r := None;
    }

    /** None when the address is not a host of the /24, else whether it was held already. */
    method AllocateSpecific(ip: nat) returns (alreadyHeld: Option<bool>)
      requires Value().Valid()
      modifies this
      ensures alreadyHeld == if !IsHost(base, ip) then None else Some(ip in old(held))
      ensures next == old(next) && held == if IsHost(base, ip) then old(held) + {ip} else old(held)
    {
      if !IsHost(base, ip) { return None; }
      alreadyHeld := Some(ip in held);
      held := held + {ip};
    }

    method Release(ip: nat) returns (ok: bool)
      modifies this
      ensures ok == (ip in old(held)) && next == old(next) && held == old(held) - {ip}
    {
      ok := ip in held;
      held := held - {ip};
    }
  }
}
