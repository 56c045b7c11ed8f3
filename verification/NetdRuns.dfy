/** What holds over every run of the root daemon's requests with restarts
    (pkg/netd/server.go:401-429, 789-842; pkg/netd/interconnect.go:185-305, 339-438). */
module NetdRuns {
  import opened Text
  import opened Inet
  import opened NetdIdentity

  /** The answers of one start-up reconcile. */
  datatype Start = Start(read: bool, removed: set<nat>, persisted: bool)

  /** Where a run begins: the files and the kernel `over` which the daemon first starts. */
  datatype Origin = Origin(over: State, start: Start)

  function Begun(c: Config, o: Origin): State
    requires WellFormed(c)
  {
    Restarted(c, o.over, o.start.read, o.start.removed, o.start.persisted)
  }

  /** A run: the daemon starts, then serves. */
  function Run(c: Config, o: Origin, events: seq<Event>): (t: State)
    requires WellFormed(c)
    ensures Inv(c, t)
  {
    if events == [] then
      RestartKeeps(c, o.over, o.start.read, o.start.removed, o.start.persisted);
      Begun(c, o)
    else
      StepKeeps(c, Run(c, o, events[..|events| - 1]), events[|events| - 1]);
      Next(c, Run(c, o, events[..|events| - 1]), events[|events| - 1])
  }

  lemma {:induction false} RunSnoc(c: Config, o: Origin, events: seq<Event>, e: Event)
    requires WellFormed(c)
    ensures Run(c, o, events + [e]) == Next(c, Run(c, o, events), e)
  {
    assert (events + [e])[..|events|] == events;
  }

  /** Over every run: each tracked alias lies in the node CIDR in force or the Service CIDR. */
  lemma {:induction false} TrackedAliasesInPolicy(c: Config, o: Origin, events: seq<Event>, ip: IPv4)
    requires WellFormed(c) && ip in Run(c, o, events).aliases
    ensures var t := Run(c, o, events);
            (t.node.Ok() && t.node.Contains(ip)) || (c.service.Some? && c.service.value.Contains(ip))
  {
  }

  /** Over every run: an owned interconnect alias is the confirmed identity's address of
      its slot, so two slots never share one. */
  lemma {:induction false} OwnedAliasesAreDerived(c: Config, o: Origin, events: seq<Event>, k: nat, j: nat)
    requires WellFormed(c) && k in Run(c, o, events).owned
    ensures var t := Run(c, o, events);
            && t.confirmed && Target(c, t, k) == Some(t.owned[k])
            && (j in t.owned && t.owned[j] == t.owned[k] ==> j == k)
  {
    var t := Run(c, o, events);
    var i := Index(c, t.node, t.confirmed).value;
    if j in t.owned && t.owned[j] == t.owned[k] {
      assert (i, j) in c.derive && (i, k) in c.derive;
    }
  }

  /** A ConfigureMesh moves the identity exactly when it carries another /24 inside the
      aggregate, nothing is live, and the executor's mesh is down and takes it. */
  lemma {:induction false} IdentityMovesExactly(c: Config, s: State, cidr: Option<Prefix>, execOk: bool,
                                                persisted: bool, rest: MeshOutcome)
    requires WellFormed(c)
    ensures var t := Configured(c, s, cidr, execOk, persisted, rest);
            t.node != s.node <==>
              && cidr.Some? && cidr.value.Ok() && cidr.value.bits == 24
              && WithinAggregate(c, cidr.value.Masked()) && cidr.value.Masked() != s.node
              && !Live(c, s) && !s.execUp && execOk
  {
  }

  lemma {:induction false} VerbFields(c: Config, s: State, t: State, slot: int, a: Answers)
    requires WellFormed(c) && (t == EnsuredInterconnect(c, s, slot, a) || t == RemovedInterconnect(c, s, slot, a))
    ensures t.node == s.node && t.confirmed == s.confirmed && t.idFile == s.idFile
    ensures a.persisted && s.ledger == Some(s.owned) ==> t.ledger == Some(t.owned)
  {
  }

  /** No other request moves it. */
  lemma {:induction false} OnlyConfigureMovesIdentity(c: Config, s: State, e: Event)
    requires WellFormed(c) && !e.ConfigureMesh? && !e.Restart?
    ensures Next(c, s, e).node == s.node && Next(c, s, e).confirmed == s.confirmed
  {
    match e
    case EnsureInterconnect(slot, a) => VerbFields(c, s, Next(c, s, e), slot, a);
    case RemoveInterconnect(slot, a) => VerbFields(c, s, Next(c, s, e), slot, a);
    case EnsureAlias(_, _) =>
    case RemoveAlias(_, _) =>
    case RemoveMesh(_) =>
  }

  predicate SameBridge(a: map<nat, int>, b: map<nat, int>, addr: nat) {
    (addr in a <==> addr in b) && (addr in a ==> a[addr] == b[addr])
  }

  lemma {:induction false} TargetIsDerived(c: Config, s: State, slot: int)
    requires WellFormed(c) && Target(c, s, slot).Some?
    ensures Target(c, s, slot).value in Derived(c, s)
  {
  }

  lemma {:induction false} RestartBridge(c: Config, s: State, read: bool, removed: set<nat>, persisted: bool, addr: nat)
    requires WellFormed(c)
    ensures var t := Restarted(c, s, read, removed, persisted);
            addr in Derived(c, t) || SameBridge(s.bridge, t.bridge, addr)
  {
    var t := Restarted(c, s, read, removed, persisted);
    var i := Index(c, t.node, t.confirmed);
    if i.Some? && read {
      assert forall k: nat :: k < SLOTS ==> c.derive[(i.value, k)] in Derived(c, t);
    }
  }

  lemma {:induction false} VerbBridge(c: Config, s: State, slot: int, a: Answers, addr: nat)
    requires WellFormed(c) && addr !in Derived(c, s)
    ensures SameBridge(s.bridge, EnsuredInterconnect(c, s, slot, a).bridge, addr)
    ensures SameBridge(s.bridge, RemovedInterconnect(c, s, slot, a).bridge, addr)
  {
    if Target(c, s, slot).Some? { TargetIsDerived(c, s, slot); }
  }

  lemma {:induction false} ConfigureBridge(c: Config, s: State, cidr: Option<Prefix>, execOk: bool, persisted: bool,
                                           rest: MeshOutcome)
    requires WellFormed(c)
    ensures Configured(c, s, cidr, execOk, persisted, rest).bridge == s.bridge
  {
  }

  lemma {:induction false} VerbKeepsIdentity(c: Config, s: State, slot: int, a: Answers)
    requires WellFormed(c)
    ensures Derived(c, EnsuredInterconnect(c, s, slot, a)) == Derived(c, s)
    ensures Derived(c, RemovedInterconnect(c, s, slot, a)) == Derived(c, s)
  {
    VerbFields(c, s, EnsuredInterconnect(c, s, slot, a), slot, a);
    VerbFields(c, s, RemovedInterconnect(c, s, slot, a), slot, a);
  }

  /** Every step leaves every bridge0 address outside the eight derived ones as it is. */
  lemma {:induction false} OtherBridgeAddressesUntouched(c: Config, s: State, e: Event, addr: nat)
    requires WellFormed(c) && addr !in Derived(c, Next(c, s, e))
    ensures SameBridge(s.bridge, Next(c, s, e).bridge, addr)
  {
    match e
    case EnsureInterconnect(slot, a) => VerbKeepsIdentity(c, s, slot, a); VerbBridge(c, s, slot, a, addr);
    case RemoveInterconnect(slot, a) => VerbKeepsIdentity(c, s, slot, a); VerbBridge(c, s, slot, a, addr);
    case ConfigureMesh(cidr, execOk, persisted, rest) => ConfigureBridge(c, s, cidr, execOk, persisted, rest);
    case Restart(read, removed, persisted) => RestartBridge(c, s, read, removed, persisted, addr);
    case _ =>
  }

  /** Over every run: a bridge0 address that is never one of the derived ones is exactly as
      the first start found it. */
  lemma {:induction false} ForeignBridgeAddressesKept(c: Config, o: Origin, events: seq<Event>, addr: nat)
    requires WellFormed(c)
    requires forall k :: 0 <= k <= |events| ==> addr !in Derived(c, Run(c, o, events[..k]))
    ensures SameBridge(o.over.bridge, Run(c, o, events).bridge, addr)
    decreases |events|
  {
    assert events[..|events|] == events;
    if events == [] {
      RestartBridge(c, o.over, o.start.read, o.start.removed, o.start.persisted, addr);
    } else {
      var n := |events| - 1;
      forall k | 0 <= k <= n ensures addr !in Derived(c, Run(c, o, events[..n][..k])) {
        assert events[..n][..k] == events[..k];
      }
      ForeignBridgeAddressesKept(c, o, events[..n], addr);
      OtherBridgeAddressesUntouched(c, Run(c, o, events[..n]), events[n], addr);
    }
  }

  // ---- restart ----

  /** The identity file reads back the confirmed identity and the ledger the owned set. */
  predicate FilesIntact(c: Config, s: State)
    requires WellFormed(c)
  {
    s.confirmed && Restored(c, s) == Some(s.node) && s.ledger == Some(s.owned)
  }

  /** A restart over intact files keeps the identity and the owned set, and removes no
      owned alias from bridge0. */
  lemma {:induction false} RestartKeepsOwned(c: Config, s: State, read: bool, removed: set<nat>, persisted: bool)
    requires WellFormed(c) && Inv(c, s)
    ensures var t := Restarted(c, s, read, removed, persisted);
            FilesIntact(c, s) ==>
              && t.node == s.node && t.confirmed && t.owned == s.owned
              && forall k <- s.owned :: SameBridge(s.bridge, t.bridge, s.owned[k])
  {
    if FilesIntact(c, s) && s.owned != map[] { OwnedStay(c, s, read, removed, persisted); }
  }

  lemma {:induction false} OwnedStay(c: Config, s: State, read: bool, removed: set<nat>, persisted: bool)
    requires WellFormed(c) && Inv(c, s) && FilesIntact(c, s) && s.owned != map[]
    ensures var t := Restarted(c, s, read, removed, persisted);
            t.owned == s.owned && forall k <- s.owned :: SameBridge(s.bridge, t.bridge, s.owned[k])
  {
    var i := Index(c, s.node, true).value;
    var t := Restarted(c, s, read, removed, persisted);
    assert Kept(c, i, s.ledger) == s.owned;
    forall k | k in s.owned ensures SameBridge(s.bridge, t.bridge, s.owned[k]) {
      forall j: nat | j < SLOTS && c.derive[(i, j)] == s.owned[k] ensures j == k {
        assert (i, j) in c.derive && (i, k) in c.derive;
      }
    }
  }

  predicate Persists(e: Event) {
    match e
    case ConfigureMesh(_, _, persisted, _) => persisted
    case EnsureInterconnect(_, a) => a.persisted
    case RemoveInterconnect(_, a) => a.persisted
    case Restart(_, _, persisted) => persisted
    case _ => true
  }

  predicate FilesFollow(c: Config, s: State)
    requires WellFormed(c)
  {
    s.ledger == Some(s.owned) && (s.confirmed ==> Restored(c, s) == Some(s.node))
  }

  lemma {:induction false} AdoptFollows(c: Config, s: State, cidr: Option<Prefix>, execOk: bool)
    requires WellFormed(c) && Inv(c, s) && FilesFollow(c, s)
    ensures FilesFollow(c, Adopt(c, s, cidr, execOk, true).0)
  {
    if cidr.Some? && cidr.value.Ok() { MaskedIsSame(cidr.value, 0); }
  }

  lemma {:induction false} SameFilesFollow(c: Config, s: State, t: State)
    requires WellFormed(c) && FilesFollow(c, s)
    requires t.node == s.node && t.confirmed == s.confirmed && t.idFile == s.idFile && t.ledger == Some(t.owned)
    ensures FilesFollow(c, t)
  {
  }

  lemma {:induction false} AliasFollows(c: Config, s: State, ip: IPv4, a: Plumbing, r: Removal)
    requires WellFormed(c) && FilesFollow(c, s)
    ensures FilesFollow(c, EnsuredAlias(c, s, ip, a)) && FilesFollow(c, RemovedAlias(c, s, ip, r))
  {
    SameFilesFollow(c, s, EnsuredAlias(c, s, ip, a));
    SameFilesFollow(c, s, RemovedAlias(c, s, ip, r));
  }

  lemma {:induction false} VerbFollows(c: Config, s: State, t: State, slot: int, a: Answers)
    requires WellFormed(c) && FilesFollow(c, s) && a.persisted
    requires t == EnsuredInterconnect(c, s, slot, a) || t == RemovedInterconnect(c, s, slot, a)
    ensures FilesFollow(c, t)
  {
    VerbFields(c, s, t, slot, a);
    SameFilesFollow(c, s, t);
  }

  lemma {:induction false} ConfigureFollows(c: Config, s: State, cidr: Option<Prefix>, execOk: bool, rest: MeshOutcome)
    requires WellFormed(c) && Inv(c, s) && FilesFollow(c, s)
    ensures FilesFollow(c, Configured(c, s, cidr, execOk, true, rest))
  {
    AdoptFollows(c, s, cidr, execOk);
    SameFilesFollow(c, Adopt(c, s, cidr, execOk, true).0, Configured(c, s, cidr, execOk, true, rest));
  }

  lemma {:induction false} RestartFollows(c: Config, s: State, read: bool, removed: set<nat>)
    requires WellFormed(c)
    ensures FilesFollow(c, Restarted(c, s, read, removed, true))
  {
  }

  lemma {:induction false} StepFollows(c: Config, s: State, e: Event)
    requires WellFormed(c) && Inv(c, s) && FilesFollow(c, s) && Persists(e)
    ensures FilesFollow(c, Next(c, s, e))
  {
    match e
    case ConfigureMesh(cidr, execOk, _, rest) => ConfigureFollows(c, s, cidr, execOk, rest);
    case Restart(read, removed, _) => RestartFollows(c, s, read, removed);
    case EnsureInterconnect(slot, a) => VerbFollows(c, s, EnsuredInterconnect(c, s, slot, a), slot, a);
    case RemoveInterconnect(slot, a) => VerbFollows(c, s, RemovedInterconnect(c, s, slot, a), slot, a);
    case EnsureAlias(ip, a) => AliasFollows(c, s, ip, a, Removed);
    case RemoveAlias(ip, r) => AliasFollows(c, s, ip, Plumbing(true, true, true), r);
    case RemoveMesh(_) => SameFilesFollow(c, s, s.(meshUp := false, meshRoutes := 0, execUp := false));
  }

  /** Over every run whose file writes succeed: the files follow the daemon, so a restart
      at any point keeps the confirmed identity and everything it owns. */
  lemma {:induction false} FilesFollowEveryRun(c: Config, o: Origin, events: seq<Event>)
    requires WellFormed(c) && o.start.persisted && forall e <- events :: Persists(e)
    ensures FilesFollow(c, Run(c, o, events))
    decreases |events|
  {
    if events == [] {
      RestartFollows(c, o.over, o.start.read, o.start.removed);
    } else {
      var n := |events| - 1;
      FilesFollowEveryRun(c, o, events[..n]);
      assert events[n] in events;
      StepFollows(c, Run(c, o, events[..n]), events[n]);
    }
  }

  // ---- slot 0 carries its riders ----

  /** An owned /32 rides slot 0's /24 on bridge0. */
  predicate Ridden(c: Config, s: State)
    requires WellFormed(c)
  {
    && Target(c, s, 0).Some? && Target(c, s, 0).value in s.bridge
    && exists k <- s.owned :: k != 0 && s.owned[k] in s.bridge
  }

  /** A request takes slot 0 off bridge0 under an owned rider exactly when it repairs a
      wrong netmask and the removal lands but its report or the add fails. */
  predicate DropsUnderRiders(c: Config, s: State, e: Event)
    requires WellFormed(c)
  {
    && e.EnsureInterconnect? && e.slot == 0 && Target(c, s, 0).Some?
    && e.a.read && NeedsRepair(s, 0, Target(c, s, 0).value) && e.a.gone && (e.a.removeErr || !e.a.addOk)
  }

  lemma {:induction false} EnsureKeepsSlotZero(c: Config, s: State, slot: int, a: Answers)
    requires WellFormed(c) && Inv(c, s) && Honest(a) && Ridden(c, s)
    ensures Target(c, s, 0).value !in EnsuredInterconnect(c, s, slot, a).bridge
            <==> DropsUnderRiders(c, s, EnsureInterconnect(slot, a))
  {
  }

  lemma {:induction false} RemoveKeepsSlotZero(c: Config, s: State, slot: int, a: Answers)
    requires WellFormed(c) && Inv(c, s) && Ridden(c, s)
    ensures Target(c, s, 0).value in RemovedInterconnect(c, s, slot, a).bridge
  {
    var i := Index(c, s.node, s.confirmed).value;
    if slot != 0 && Target(c, s, slot).Some? {
      assert (i, 0) in c.derive && (i, slot as nat) in c.derive;
    }
  }

  lemma {:induction false} SlotZeroKeptExactly(c: Config, s: State, e: Event)
    requires WellFormed(c) && Inv(c, s) && LegalEvent(e) && !e.Restart? && Ridden(c, s)
    ensures Target(c, s, 0).value !in Next(c, s, e).bridge <==> DropsUnderRiders(c, s, e)
  {
    match e
    case EnsureInterconnect(slot, a) => EnsureKeepsSlotZero(c, s, slot, a);
    case RemoveInterconnect(slot, a) => RemoveKeepsSlotZero(c, s, slot, a);
    case ConfigureMesh(cidr, execOk, persisted, rest) => ConfigureBridge(c, s, cidr, execOk, persisted, rest);
    case _ =>
  }

  /** The start-up reconcile keeps slot 0 under an owned rider. */
  lemma {:induction false} RestartKeepsSlotZero(c: Config, s: State, read: bool, removed: set<nat>, persisted: bool)
    requires WellFormed(c) && Inv(c, s) && FilesIntact(c, s) && Ridden(c, s)
    ensures Target(c, s, 0).value in Restarted(c, s, read, removed, persisted).bridge
  {
    var i := Index(c, s.node, true).value;
    assert Kept(c, i, s.ledger) == s.owned;
    forall j: nat | j < SLOTS && c.derive[(i, j)] == c.derive[(i, 0)] ensures j == 0 {
      assert (i, j) in c.derive && (i, 0) in c.derive;
    }
  }

  /** Slot 0 sits on bridge0 as a /32 under an owned slot 1. */
  predicate BadlyMasked(c: Config, s: State, i: nat)
    requires WellFormed(c)
  {
    && Index(c, s.node, s.confirmed) == Some(i) && i <= c.maxIndex
    && s.owned == map[1 := c.derive[(i, 1)]]
    && s.bridge == map[c.derive[(i, 0)] := 32, c.derive[(i, 1)] := 32]
  }

  lemma {:induction false} RepairDrops(c: Config, s: State, i: nat, a: Answers)
    requires WellFormed(c) && BadlyMasked(c, s, i)
    requires a.read && a.gone && !a.removeErr && !a.addOk
    ensures var t := EnsuredInterconnect(c, s, 0, a);
            && Ridden(c, s) && DropsUnderRiders(c, s, EnsureInterconnect(0, a))
            && c.derive[(i, 0)] !in t.bridge && 1 in t.owned && t.owned[1] in t.bridge
  {
    assert (i, 0) in c.derive && (i, 1) in c.derive && c.derive[(i, 0)] != c.derive[(i, 1)];
    assert 1 in s.owned;
  }

  lemma {:induction false} StartsBadlyMasked(c: Config, o: Origin, node: Prefix, i: nat)
    requires WellFormed(c) && node.Ok() && Restored(c, o.over) == Some(node) && Index(c, node, true) == Some(i)
    requires o.over.ledger == Some(map[1 := c.derive[(i, 1)]])
    requires o.over.bridge == map[c.derive[(i, 0)] := 32, c.derive[(i, 1)] := 32]
    ensures BadlyMasked(c, Begun(c, o), i)
  {
    var owned := Kept(c, i, o.over.ledger);
    assert owned == map[1 := c.derive[(i, 1)]];
    assert 1 in owned && OwnsRider(owned, o.over.bridge);
    forall k: nat ensures !Stale(c, i, owned, o.over.bridge, k) {
      if k < SLOTS { assert (i, k) in c.derive && (i, 0) in c.derive && (i, 1) in c.derive; }
    }
  }

  /** Such a request is reachable: the daemon starts over a bridge0 where slot 0 sits as a
      /32 under a slot 1 its ledger owns, and the repair removes it and cannot add it back. */
  lemma {:induction false} RepairDropsSlotZero(c: Config, o: Origin, node: Prefix, i: nat, a: Answers)
    requires WellFormed(c) && node.Ok() && Restored(c, o.over) == Some(node) && Index(c, node, true) == Some(i)
    requires o.over.ledger == Some(map[1 := c.derive[(i, 1)]])
    requires o.over.bridge == map[c.derive[(i, 0)] := 32, c.derive[(i, 1)] := 32]
    requires a.read && a.gone && !a.removeErr && !a.addOk
    ensures var s, t := Run(c, o, []), Run(c, o, [EnsureInterconnect(0, a)]);
            && Ridden(c, s) && DropsUnderRiders(c, s, EnsureInterconnect(0, a))
            && c.derive[(i, 0)] !in t.bridge && 1 in t.owned && t.owned[1] in t.bridge
  {
    StartsBadlyMasked(c, o, node, i);
    RepairDrops(c, Run(c, o, []), i, a);
    RunSnoc(c, o, [], EnsureInterconnect(0, a));
    assert [] + [EnsureInterconnect(0, a)] == [EnsureInterconnect(0, a)];
  }
}
