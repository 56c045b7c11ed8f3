/** The root daemon's request handlers (pkg/netd/server.go:265-360, 658-754, 789-887;
    pkg/netd/interconnect.go:185-305, 339-438), each proved to be its step of the run. */
module NetdServer {
  import opened Text
  import opened Inet
  import opened NetdIdentity

  class Server {
    const c: Config
    var node: Prefix
    var confirmed: bool
    var aliases: set<IPv4>
    var owned: map<nat, nat>
    var meshRoutes: nat
    var meshUp: bool
    var execUp: bool
    var idFile: Option<Prefix>
    var ledger: Option<map<nat, nat>>
    var lo0: set<IPv4>
    var bridge: map<nat, int>

    function Value(): State
      reads this
    {
      State(node, confirmed, aliases, owned, meshRoutes, meshUp, execUp, idFile, ledger, lo0, bridge)
    }

    /** NewServer over the files and kernel of `s`: `read`, `removed` and `persisted` are
        the answers of the start-up interconnect reconcile. */
    constructor (c: Config, s: State, read: bool, removed: set<nat>, persisted: bool)
      requires WellFormed(c)
      ensures this.c == c && Value() == Restarted(c, s, read, removed, persisted) && Inv(c, Value())
    {
      this.c := c;
      var restored := Restored(c, s);
      node := if restored.Some? then restored.value else c.configured.Masked();
      confirmed := restored.Some?;
      aliases, owned, meshRoutes, meshUp, execUp := {}, map[], 0, false, false;
      idFile, ledger, lo0, bridge := s.idFile, s.ledger, s.lo0, s.bridge;
      new;
      ReconcileInterconnectAtStart(read, removed, persisted);
      RestartKeeps(c, s, read, removed, persisted);
    }

    method SetOwned(o: map<nat, nat>, persisted: bool)
      modifies this`owned, this`ledger
      ensures Value() == WithOwned(old(Value()), o, persisted)
    {
      owned := o;
      if persisted { ledger := Some(o); }
    }

    /** restoreInterconnect. */
    method RestoreInterconnect(i: nat) returns (kept: map<nat, nat>)
      requires WellFormed(c) && i <= c.maxIndex
      ensures kept == Kept(c, i, ledger)
    {
      kept := map[];
      if ledger.None? { return; }
      var left := ledger.value.Keys;
      while left != {}
        invariant left <= ledger.value.Keys
        invariant kept == map k |
                    k in ledger.value && k !in left && k < SLOTS && ledger.value[k] == c.derive[(i, k)] ::
                    ledger.value[k]
        decreases left
      {
        var k: nat :| k in left;
        left := left - {k};
        if k < SLOTS && ledger.value[k] == c.derive[(i, k)] {
          kept := kept[k := ledger.value[k]];
        }
      }
    }

    /** ownsRider. */
    method FindRider(present: map<nat, int>) returns (found: bool)
      ensures found == OwnsRider(owned, present)
    {
      var left := owned.Keys;
      while left != {}
        invariant left <= owned.Keys
        invariant forall k :: k in owned && k !in left ==> k == 0 || owned[k] !in present
        decreases left
      {
        var k: nat :| k in left;
        if k != 0 && owned[k] in present { return true; }
        left := left - {k};
      }
      found := false;
    }

    method ReconcileInterconnectAtStart(read: bool, removed: set<nat>, persisted: bool)
      requires WellFormed(c) && owned == map[]
      modifies this`owned, this`ledger, this`bridge
      ensures var s := old(Value());
              var i := Index(c, s.node, s.confirmed);
              Value() == if i.None? then WithOwned(s, map[], persisted)
                         else (var u := WithOwned(s, Kept(c, i.value, s.ledger), persisted);
                               if read then u.(bridge := Swept(c, i.value, u.owned, s.bridge, removed)) else u)
    {
      var i := Index(c, node, confirmed);
      if i.None? {
        SetOwned(map[], persisted);
        return;
      }
      var kept := RestoreInterconnect(i.value);
      SetOwned(kept, persisted);
      if !read { return; }
      SweepStale(i.value, removed);
    }

    /** The slots 7 down to 0: every derived address present and not owned goes, slot 0
        only when no owned /32 rides it. */
    method SweepStale(i: nat, removed: set<nat>)
      requires WellFormed(c) && i <= c.maxIndex
      modifies this`bridge
      ensures bridge == Swept(c, i, owned, old(bridge), removed)
    {
      var present := bridge;
      var slot := SLOTS;
      while slot > 0
        invariant 0 <= slot <= SLOTS
        invariant bridge == present - set k |
                    k in removed && k >= slot && Stale(c, i, owned, present, k) :: c.derive[(i, k)]
      {
        slot := slot - 1;
        var addr := c.derive[(i, slot)];
        var keep := addr !in present || slot in owned;
        if !keep && slot == 0 { keep := FindRider(present); }
        if !keep && slot in removed {
          bridge := bridge - {addr};
        }
      }
    }

    // ---- aliases and the mesh ----

    /** The executor's ensure: lo0 first, then the utun of a mesh that is up. */
    method PlumbAlias(ip: IPv4, a: Plumbing) returns (ok: bool)
      modifies this`lo0
      ensures ok == Plumbs(old(Value()), ip, a)
      ensures lo0 == if ReachesLo0(old(Value()), ip, a) then old(lo0) + {ip} else old(lo0)
    {
      var pod := IsPod(node, ip);
      if pod && !a.cleared { return false; }
      if !a.aliased { return false; }
      lo0 := lo0 + {ip};
      ok := !pod || !execUp || a.utunAliased;
    }

    method EnsureAlias(ip: IPv4, a: Plumbing) returns (ok: bool)
      requires WellFormed(c)
      modifies this`aliases, this`lo0
      ensures Value() == EnsuredAlias(c, old(Value()), ip, a)
      ensures ok <==> AliasAdmitted(c, node, ip) && Plumbs(old(Value()), ip, a)
    {
      if !AliasAdmitted(c, node, ip) { return false; }
      ok := PlumbAlias(ip, a);
      if ok { aliases := aliases + {ip}; }
    }

    method RemoveAlias(ip: IPv4, r: Removal) returns (ok: bool)
      requires WellFormed(c)
      modifies this`aliases, this`lo0
      ensures Value() == RemovedAlias(c, old(Value()), ip, r)
      ensures ok <==> AliasAdmitted(c, node, ip) && r.Removed?
    {
      ok := false;
      if !AliasAdmitted(c, node, ip) { return; }
      if r.Failed? {
        if !r.onLo0 { lo0 := lo0 - {ip}; }
        return;
      }
      lo0 := lo0 - {ip};
      aliases := aliases - {ip};
      ok := true;
    }

    /** livePodAliasesLocked. */
    method LivePodAliases() returns (n: nat)
      requires node.Ok()
      ensures n > 0 <==> exists ip <- aliases :: node.Contains(ip)
    {
      n := 0;
      var left := aliases;
      while left != {}
        invariant left <= aliases && (n > 0 <==> exists ip <- aliases - left :: node.Contains(ip))
        decreases left
      {
        var ip: IPv4 :| ip in left;
        assert aliases - (left - {ip}) == (aliases - left) + {ip};
        if node.Contains(ip) { n := n + 1; }
        left := left - {ip};
      }
      assert aliases - left == aliases;
    }

    method AdoptNodePodCIDR(cidr: Option<Prefix>, execOk: bool, persisted: bool) returns (ok: bool)
      requires WellFormed(c) && node.Ok()
      modifies this`node, this`confirmed, this`idFile
      ensures (Value(), ok) == Adopt(c, old(Value()), cidr, execOk, persisted)
    {
      if cidr.None? { return true; }
      if !cidr.value.Ok() { return false; }
      var want := cidr.value.Masked();
      if !WithinAggregate(c, want) { return false; }
      if node == want {
        confirmed := true;
        idFile := Recorded(c, Value(), want, persisted);
        return true;
      }
      var pods := LivePodAliases();
      if pods > 0 || meshRoutes > 0 || meshUp || |owned| > 0 { return false; }
      if execUp || want.bits != 24 || !execOk { return false; }
      node, confirmed := want, true;
      if persisted { idFile := Some(want); }
      ok := true;
    }

    method ConfigureMesh(cidr: Option<Prefix>, execOk: bool, persisted: bool, rest: MeshOutcome) returns (ok: bool)
      requires WellFormed(c) && node.Ok()
      modifies this
      ensures Value() == Configured(c, old(Value()), cidr, execOk, persisted, rest)
      ensures ok <==> Adopt(c, old(Value()), cidr, execOk, persisted).1 && rest.Applied?
    {
      ok := AdoptNodePodCIDR(cidr, execOk, persisted);
      if !ok { return; }
      match rest {
        case Rejected => ok := false;
        case ExecFailed(up) =>
          execUp, ok := execUp || up, false;
        case Applied(n) =>
          execUp, meshUp, meshRoutes := true, true, n;
      }
    }

    method RemoveMesh(down: bool) returns (ok: bool)
      requires WellFormed(c)
      modifies this`meshUp, this`meshRoutes, this`execUp
      ensures Value() == Next(c, old(Value()), Event.RemoveMesh(down)) && ok == down
    {
      ok := down;
      if down { meshUp, meshRoutes, execUp := false, 0, false; }
    }

    // ---- the interconnect verbs ----

    method EnsureInterconnect(slot: int, a: Answers) returns (ok: bool)
      requires WellFormed(c)
      modifies this`owned, this`ledger, this`bridge
      ensures Value() == EnsuredInterconnect(c, old(Value()), slot, a)
      ensures ok ==> Target(c, Value(), slot).Some? && Target(c, Value(), slot).value in bridge
      ensures ok ==> slot as nat in owned && owned[slot as nat] == Target(c, Value(), slot).value
      ensures !ok ==> owned == old(owned) && ledger == old(ledger)
    {
      ok := false;
      var addr := Target(c, Value(), slot);
      if addr.None? || !a.read { return; }
      ok := Plumb(slot, addr.value, a);
      if ok { SetOwned(owned[slot as nat := addr.value], a.persisted); }
    }

    /** Puts the address on bridge0 unless it is there, repairing a slot-0 netmask. */
    method Plumb(slot: int, addr: nat, a: Answers) returns (ok: bool)
      modifies this`bridge
      ensures var repair := NeedsRepair(old(Value()), slot, addr);
              var cut := if repair && a.gone then old(bridge) - {addr} else old(bridge);
              && ok == (if repair then !a.removeErr && a.addOk else (addr in old(bridge) || a.addOk))
              && bridge == (if !ok || (addr in old(bridge) && !repair) then cut else cut[addr := BitsOf(slot)])
    {
      ok := false;
      var here := addr in bridge;
      if here && slot == 0 && bridge[addr] != BitsOf(slot) {
        if a.gone { bridge := bridge - {addr}; }
        if a.removeErr { return; }
        here := false;
      }
      if !here {
        if !a.addOk { return; }
        bridge := bridge[addr := BitsOf(slot)];
      }
      ok := true;
    }

    method Riders() returns (found: bool)
      ensures found == HasRiders(Value())
    {
      var left := owned.Keys;
      while left != {}
        invariant left <= owned.Keys && forall k :: k in owned && k !in left ==> k == 0
        decreases left
      {
        var k: nat :| k in left;
        if k != 0 { return true; }
        left := left - {k};
      }
      found := false;
    }

    method RemoveInterconnect(slot: int, a: Answers) returns (ok: bool)
      requires WellFormed(c)
      modifies this`owned, this`ledger, this`bridge
      ensures Value() == RemovedInterconnect(c, old(Value()), slot, a)
      ensures ok <==>
                && Target(c, Value(), slot).Some?
                && !(slot as nat in owned && owned[slot as nat] == Target(c, Value(), slot).value)
    {
      ok := false;
      var addr := Target(c, Value(), slot);
      if addr.None? { return; }
      if slot as nat !in owned || owned[slot as nat] != addr.value { return true; }
      if slot == 0 {
        var riders := Riders();
        if riders { return; }
      }
      if !a.read { return; }
      if addr.value in bridge {
        if a.gone { bridge := bridge - {addr.value}; }
        if a.removeErr {
          if !a.reread || addr.value in bridge { return; }
        }
      }
      SetOwned(owned - {slot as nat}, a.persisted);
      ok := true;
    }
  }
}
