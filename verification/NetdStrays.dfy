/** Which aliases a move of the node identity leaves behind on lo0 (pkg/netd/server.go:
    672-703, 789-842; pkg/netd/applier.go:292-319): the history of one address over every
    run of the root daemon with restarts. */
module NetdStrays {
  import opened History
  import opened Text
  import opened Inet
  import opened NetdIdentity
  import opened NetdRuns

  // ---- one address through one event ----

  /** On lo0 without the daemon tracking it. */
  predicate Stray(s: State, ip: IPv4) { ip in s.lo0 && ip !in s.aliases }

  /** An ensure the daemon admits. */
  predicate Ensures(c: Config, s: State, e: Event, ip: IPv4)
    requires WellFormed(c)
  {
    e.EnsureAlias? && e.ip == ip && AliasAdmitted(c, s.node, ip)
  }

  predicate PutsOn(c: Config, s: State, e: Event, ip: IPv4)
    requires WellFormed(c)
  {
    Ensures(c, s, e, ip) && ReachesLo0(s, ip, e.plumbing)
  }

  /** A removal the daemon admits and that took the alias off lo0, whatever it reported. */
  predicate TakesOff(c: Config, s: State, e: Event, ip: IPv4)
    requires WellFormed(c)
  {
    e.RemoveAlias? && e.ip == ip && AliasAdmitted(c, s.node, ip) && e.removal != Failed(true)
  }

  /** An ensure of an untracked address that went onto lo0 and was refused by the utun. */
  predicate FailsPastLo0(c: Config, s: State, e: Event, ip: IPv4)
    requires WellFormed(c)
  {
    && Ensures(c, s, e, ip) && ip !in s.aliases
    && IsPod(s.node, ip) && s.execUp && e.plumbing == Plumbing(true, true, false)
  }

  /** A successful ensure, or the alias off lo0. */
  predicate Settles(c: Config, s: State, e: Event, ip: IPv4)
    requires WellFormed(c)
  {
    (Ensures(c, s, e, ip) && Plumbs(s, ip, e.plumbing)) || TakesOff(c, s, e, ip)
  }

  lemma {:induction false} EnsureKeepsAliases(c: Config, s: State, slot: int, a: Answers)
    requires WellFormed(c)
    ensures var t := EnsuredInterconnect(c, s, slot, a); t.lo0 == s.lo0 && t.aliases == s.aliases
  {
  }

  lemma {:induction false} RemoveKeepsAliases(c: Config, s: State, slot: int, a: Answers)
    requires WellFormed(c)
    ensures var t := RemovedInterconnect(c, s, slot, a); t.lo0 == s.lo0 && t.aliases == s.aliases
  {
  }

  lemma {:induction false} ConfigureKeepsAliases(c: Config, s: State, cidr: Option<Prefix>, execOk: bool,
                                                 persisted: bool, rest: MeshOutcome)
    requires WellFormed(c)
    ensures var t := Configured(c, s, cidr, execOk, persisted, rest); t.lo0 == s.lo0 && t.aliases == s.aliases
  {
  }

  lemma {:induction false} RestartForgets(c: Config, s: State, read: bool, removed: set<nat>, persisted: bool)
    requires WellFormed(c)
    ensures var t := Restarted(c, s, read, removed, persisted); t.lo0 == s.lo0 && t.aliases == {}
  {
  }

  lemma {:induction false} OtherEventsKeep(c: Config, s: State, e: Event)
    requires WellFormed(c) && !e.EnsureAlias? && !e.RemoveAlias?
    ensures Next(c, s, e).lo0 == s.lo0 && Next(c, s, e).aliases == if e.Restart? then {} else s.aliases
  {
    match e
    case ConfigureMesh(cidr, execOk, persisted, rest) => ConfigureKeepsAliases(c, s, cidr, execOk, persisted, rest);
    case RemoveMesh(_) =>
    case EnsureInterconnect(slot, a) => EnsureKeepsAliases(c, s, slot, a);
    case RemoveInterconnect(slot, a) => RemoveKeepsAliases(c, s, slot, a);
    case Restart(read, removed, persisted) => RestartForgets(c, s, read, removed, persisted);
  }

  lemma {:induction false} LoStep(c: Config, s: State, e: Event, ip: IPv4)
    requires WellFormed(c)
    ensures ip in Next(c, s, e).lo0 <==> PutsOn(c, s, e, ip) || (ip in s.lo0 && !TakesOff(c, s, e, ip))
  {
    if !e.EnsureAlias? && !e.RemoveAlias? { OtherEventsKeep(c, s, e); }
  }

  lemma {:induction false} StrayStep(c: Config, s: State, e: Event, ip: IPv4)
    requires WellFormed(c)
    ensures Stray(Next(c, s, e), ip) <==>
            || FailsPastLo0(c, s, e, ip) || (e.Restart? && ip in s.lo0)
            || (Stray(s, ip) && !Settles(c, s, e, ip))
  {
    if !e.EnsureAlias? && !e.RemoveAlias? { OtherEventsKeep(c, s, e); }
  }

  // ---- one address over a run ----

  /** The state before event k, or the last one. */
  function At(c: Config, o: Origin, events: seq<Event>, k: nat): State
    requires WellFormed(c)
  {
    if k <= |events| then Run(c, o, events[..k]) else Run(c, o, events)
  }

  /** What put the address on lo0 by step i: it was there before the first start, or event
      i - 1 did. */
  predicate PutBy(c: Config, o: Origin, events: seq<Event>, ip: IPv4, i: nat)
    requires WellFormed(c)
  {
    if i == 0 then ip in o.over.lo0 else i <= |events| && PutsOn(c, At(c, o, events, i - 1), events[i - 1], ip)
  }

  predicate TakenBy(c: Config, o: Origin, events: seq<Event>, ip: IPv4, j: nat)
    requires WellFormed(c)
  {
    j < |events| && TakesOff(c, At(c, o, events, j), events[j], ip)
  }

  /** By the events alone: something put the address on lo0 before step n and nothing took
      it off since. */
  ghost predicate StoodOnLo0(c: Config, o: Origin, events: seq<Event>, ip: IPv4, n: nat)
    requires WellFormed(c)
  {
    exists i :: 0 <= i <= n && PutBy(c, o, events, ip, i) && forall j :: i <= j < n ==> !TakenBy(c, o, events, ip, j)
  }

  /** What can leave it untracked by step i: a start or a restart with the address on lo0,
      or an ensure refused past lo0. */
  ghost predicate StrayedBy(c: Config, o: Origin, events: seq<Event>, ip: IPv4, i: nat)
    requires WellFormed(c)
  {
    if i == 0 then ip in o.over.lo0
    else
      && i <= |events|
      && (|| FailsPastLo0(c, At(c, o, events, i - 1), events[i - 1], ip)
          || (events[i - 1].Restart? && StoodOnLo0(c, o, events, ip, i - 1)))
  }

  predicate SettledBy(c: Config, o: Origin, events: seq<Event>, ip: IPv4, j: nat)
    requires WellFormed(c)
  {
    j < |events| && Settles(c, At(c, o, events, j), events[j], ip)
  }

  /** By the events alone: a failed ensure or a restart left it untracked, and no successful
      ensure or removal followed. */
  ghost predicate LeftStray(c: Config, o: Origin, events: seq<Event>, ip: IPv4)
    requires WellFormed(c)
  {
    exists i :: 0 <= i <= |events| && StrayedBy(c, o, events, ip, i)
                && forall j :: i <= j < |events| ==> !SettledBy(c, o, events, ip, j)
  }

  lemma {:induction false} AtNext(c: Config, o: Origin, events: seq<Event>, k: nat)
    requires WellFormed(c) && k < |events|
    ensures At(c, o, events, k + 1) == Next(c, At(c, o, events, k), events[k])
  {
    assert events[..k + 1] == events[..k] + [events[k]];
    RunSnoc(c, o, events[..k], events[k]);
  }

  lemma {:induction false} OnLo0Step(c: Config, o: Origin, events: seq<Event>, ip: IPv4, k: nat)
    requires WellFormed(c) && k < |events|
    ensures ip in At(c, o, events, k + 1).lo0
            <==> PutBy(c, o, events, ip, k + 1) || (ip in At(c, o, events, k).lo0 && !TakenBy(c, o, events, ip, k))
  {
    AtNext(c, o, events, k);
    LoStep(c, At(c, o, events, k), events[k], ip);
  }

  lemma {:induction false} AtStart(c: Config, o: Origin, events: seq<Event>)
    requires WellFormed(c)
    ensures At(c, o, events, 0).lo0 == o.over.lo0 && At(c, o, events, 0).aliases == {}
    ensures At(c, o, events, |events|) == Run(c, o, events)
  {
    assert events[..0] == [] && events[..|events|] == events;
    RestartForgets(c, o.over, o.start.read, o.start.removed, o.start.persisted);
  }

  lemma {:induction false} OnLo0Exactly(c: Config, o: Origin, events: seq<Event>, ip: IPv4, n: nat)
    requires WellFormed(c) && n <= |events|
    ensures ip in At(c, o, events, n).lo0 <==> StoodOnLo0(c, o, events, ip, n)
  {
    var p := (k: nat) => ip in At(c, o, events, k).lo0;
    var cause, ends := (k: nat) => PutBy(c, o, events, ip, k), (k: nat) => TakenBy(c, o, events, ip, k);
    AtStart(c, o, events);
    forall k | 0 <= k < n ensures p(k + 1) <==> cause(k + 1) || (p(k) && !ends(k)) {
      OnLo0Step(c, o, events, ip, k);
    }
    LastCause(p, cause, ends, n);
    StoodStands(c, o, events, ip, n, cause, ends);
  }

  lemma {:induction false} StoodStands(c: Config, o: Origin, events: seq<Event>, ip: IPv4, n: nat,
                                       cause: nat -> bool, ends: nat -> bool)
    requires WellFormed(c)
    requires forall k :: cause(k) == PutBy(c, o, events, ip, k)
    requires forall k :: ends(k) == TakenBy(c, o, events, ip, k)
    ensures StoodOnLo0(c, o, events, ip, n) <==> exists i :: Stands(cause, ends, i, n)
  {
    if StoodOnLo0(c, o, events, ip, n) {
      var i :| 0 <= i <= n && PutBy(c, o, events, ip, i) && forall j :: i <= j < n ==> !TakenBy(c, o, events, ip, j);
      assert Stands(cause, ends, i, n);
    }
    if i :| Stands(cause, ends, i, n) {
      assert PutBy(c, o, events, ip, i);
    }
  }

  lemma {:induction false} StrayAtStep(c: Config, o: Origin, events: seq<Event>, ip: IPv4, k: nat)
    requires WellFormed(c) && k < |events|
    ensures Stray(At(c, o, events, k + 1), ip)
            <==> StrayedBy(c, o, events, ip, k + 1)
                 || (Stray(At(c, o, events, k), ip) && !SettledBy(c, o, events, ip, k))
  {
    AtNext(c, o, events, k);
    OnLo0Exactly(c, o, events, ip, k);
    StrayStep(c, At(c, o, events, k), events[k], ip);
  }

  lemma {:induction false} LeftStands(c: Config, o: Origin, events: seq<Event>, ip: IPv4,
                                      cause: nat -> bool, ends: nat -> bool)
    requires WellFormed(c)
    requires forall k :: cause(k) == StrayedBy(c, o, events, ip, k)
    requires forall k :: ends(k) == SettledBy(c, o, events, ip, k)
    ensures LeftStray(c, o, events, ip) <==> exists i :: Stands(cause, ends, i, |events|)
  {
    if LeftStray(c, o, events, ip) {
      var i :| 0 <= i <= |events| && StrayedBy(c, o, events, ip, i)
               && forall j :: i <= j < |events| ==> !SettledBy(c, o, events, ip, j);
      assert Stands(cause, ends, i, |events|);
    }
    if i :| Stands(cause, ends, i, |events|) {
      assert StrayedBy(c, o, events, ip, i);
    }
  }

  lemma {:induction false} StraysStand(c: Config, o: Origin, events: seq<Event>, ip: IPv4,
                                       p: nat -> bool, cause: nat -> bool, ends: nat -> bool)
    requires WellFormed(c)
    requires forall k :: p(k) == Stray(At(c, o, events, k), ip)
    requires forall k :: cause(k) == StrayedBy(c, o, events, ip, k)
    requires forall k :: ends(k) == SettledBy(c, o, events, ip, k)
    ensures p(|events|) <==> exists i :: Stands(cause, ends, i, |events|)
  {
    AtStart(c, o, events);
    forall k | 0 <= k < |events| ensures p(k + 1) <==> cause(k + 1) || (p(k) && !ends(k)) {
      StrayAtStep(c, o, events, ip, k);
    }
    LastCause(p, cause, ends, |events|);
  }

  /** Over every run with restarts: an address sits on lo0 untracked exactly when its last
      relevant event is an ensure the utun refused, or a start with the address on lo0. */
  lemma {:induction false} StrayExactly(c: Config, o: Origin, events: seq<Event>, ip: IPv4)
    requires WellFormed(c)
    ensures Stray(Run(c, o, events), ip) <==> LeftStray(c, o, events, ip)
  {
    var p := (k: nat) => Stray(At(c, o, events, k), ip);
    var cause, ends := (k: nat) => StrayedBy(c, o, events, ip, k), (k: nat) => SettledBy(c, o, events, ip, k);
    StraysStand(c, o, events, ip, p, cause, ends);
    LeftStands(c, o, events, ip, cause, ends);
    AtStart(c, o, events);
    assert p(|events|) == Stray(Run(c, o, events), ip);
  }

  // ---- what a move leaves behind ----

  predicate Moves(c: Config, o: Origin, events: seq<Event>, e: Event)
    requires WellFormed(c)
  {
    e.ConfigureMesh? && Run(c, o, events + [e]).node != Run(c, o, events).node
  }

  lemma {:induction false} MoveKeepsLo0(c: Config, s: State, e: Event)
    requires WellFormed(c) && Inv(c, s) && e.ConfigureMesh? && Next(c, s, e).node != s.node
    ensures Next(c, s, e).lo0 == s.lo0 && forall ip <- s.aliases :: !s.node.Contains(ip)
  {
    IdentityMovesExactly(c, s, e.cidr, e.execOk, e.persisted, e.rest);
  }

  /** Over every run: a move of the identity leaves on lo0 exactly the old identity's
      addresses whose history is that of a stray. */
  lemma {:induction false} MoveOrphansExactly(c: Config, o: Origin, events: seq<Event>, e: Event, ip: IPv4)
    requires WellFormed(c)
    ensures Moves(c, o, events, e) && Run(c, o, events).node.Contains(ip) ==>
              (ip in Run(c, o, events + [e]).lo0 <==> LeftStray(c, o, events, ip))
  {
    RunSnoc(c, o, events, e);
    if Moves(c, o, events, e) { MoveKeepsLo0(c, Run(c, o, events), e); }
    StrayExactly(c, o, events, ip);
  }

  /** No ensure is refused past lo0 and the daemon does not restart. */
  predicate Undisturbed(c: Config, o: Origin, events: seq<Event>)
    requires WellFormed(c)
  {
    forall i :: 0 <= i < |events| ==>
      !events[i].Restart? && (events[i].EnsureAlias? ==> !FailsPastLo0(c, At(c, o, events, i), events[i], events[i].ip))
  }

  /** A run from an empty lo0 in which neither happens never moves the identity over a
      live alias. */
  lemma {:induction false} UndisturbedMoveOrphansNothing(c: Config, o: Origin, events: seq<Event>, e: Event, ip: IPv4)
    requires WellFormed(c) && o.over.lo0 == {} && Undisturbed(c, o, events)
    ensures Moves(c, o, events, e) && Run(c, o, events).node.Contains(ip) ==> ip !in Run(c, o, events + [e]).lo0
  {
    MoveOrphansExactly(c, o, events, e, ip);
    forall i: nat ensures !StrayedBy(c, o, events, ip, i) {
      UndisturbedStraysNothing(c, o, events, ip, i);
    }
  }

  lemma {:induction false} UndisturbedStraysNothing(c: Config, o: Origin, events: seq<Event>, ip: IPv4, i: nat)
    requires WellFormed(c) && o.over.lo0 == {} && Undisturbed(c, o, events)
    ensures !StrayedBy(c, o, events, ip, i)
  {
    if 0 < i <= |events| { assert !events[i - 1].Restart?; }
  }

  // ---- both causes are real ----

  /** A first boot: nothing on lo0, no identity file, no ledger. */
  predicate FirstBoot(c: Config, o: Origin)
    requires WellFormed(c)
  {
    o.over.lo0 == {} && o.over.idFile.None? && o.over.ledger.None?
  }

  predicate OtherNode(c: Config, want: Prefix)
    requires WellFormed(c)
  {
    want.Ok() && want.bits == 24 && WithinAggregate(c, want.Masked()) && want.Masked() != c.configured.Masked()
  }

  /** From a first boot: the mesh comes up, a pod's utun alias is refused, the mesh goes
      down, and the next ConfigureMesh moves the identity over the lo0 alias. */
  lemma {:induction false} RefusedUtunOrphans(c: Config, o: Origin, routes: nat, ip: IPv4, want: Prefix)
    requires WellFormed(c) && FirstBoot(c, o) && OtherNode(c, want)
    requires IsPod(c.configured.Masked(), ip) && c.aggregate.Contains(ip)
    ensures var events := [ConfigureMesh(None, true, true, Applied(routes)),
                           EnsureAlias(ip, Plumbing(true, true, false)), RemoveMesh(true)];
            var e := ConfigureMesh(Some(want), true, true, Rejected);
            Moves(c, o, events, e) && LeftStray(c, o, events, ip) && ip in Run(c, o, events + [e]).lo0
  {
    var a := ConfigureMesh(None, true, true, Applied(routes));
    var b := EnsureAlias(ip, Plumbing(true, true, false));
    var d := RemoveMesh(true);
    var e := ConfigureMesh(Some(want), true, true, Rejected);
    ThreeSteps(c, o, a, b, d);
    var t := Run(c, o, [a, b, d]);
    RunSnoc(c, o, [a, b, d], e);
    IdentityMovesExactly(c, t, Some(want), true, true, Rejected);
    MoveOrphansExactly(c, o, [a, b, d], e, ip);
  }

  lemma {:induction false} ThreeSteps(c: Config, o: Origin, a: Event, b: Event, d: Event)
    requires WellFormed(c)
    ensures Run(c, o, [a, b, d]) == Next(c, Next(c, Next(c, Begun(c, o), a), b), d)
  {
    RunSnoc(c, o, [], a);
    RunSnoc(c, o, [a], b);
    RunSnoc(c, o, [a, b], d);
    assert [] + [a] == [a] && [a] + [b] == [a, b] && [a, b] + [d] == [a, b, d];
  }

  /** From a first boot: an ensured pod alias, a restart, and a ConfigureMesh that moves the
      identity before the alias is ensured again. */
  lemma {:induction false} RestartOrphans(c: Config, o: Origin, ip: IPv4, again: Start, want: Prefix)
    requires WellFormed(c) && FirstBoot(c, o) && OtherNode(c, want)
    requires IsPod(c.configured.Masked(), ip) && c.aggregate.Contains(ip)
    ensures var events := [EnsureAlias(ip, Plumbing(true, true, true)),
                           Restart(again.read, again.removed, again.persisted)];
            var e := ConfigureMesh(Some(want), true, true, Rejected);
            Moves(c, o, events, e) && LeftStray(c, o, events, ip) && ip in Run(c, o, events + [e]).lo0
  {
    var a := EnsureAlias(ip, Plumbing(true, true, true));
    var b := Restart(again.read, again.removed, again.persisted);
    var e := ConfigureMesh(Some(want), true, true, Rejected);
    RunSnoc(c, o, [], a);
    RunSnoc(c, o, [a], b);
    assert [] + [a] == [a] && [a] + [b] == [a, b];
    RunSnoc(c, o, [a, b], e);
    IdentityMovesExactly(c, Run(c, o, [a, b]), Some(want), true, true, Rejected);
    MoveOrphansExactly(c, o, [a, b], e, ip);
  }
}
