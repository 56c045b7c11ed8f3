/** The daemon and its executor together (pkg/netd/server.go:265-360, 658-842, 880-887;
    pkg/netd/applier.go:292-319, 429-469, 494-640): every run of requests, with whatever the
    kernel answers, is at once a run of the identity model and a legal run of the
    executor, and the two agree at every step on the /24, on the mesh and on lo0. */
module NetdRefinement {
  import opened Text
  import opened Inet
  import I = NetdIdentity
  import R = NetdRuns
  import C = NetdCommands
  import A = NetdApplier
  import opened NetdExecutor

  /** One request or start with the answers of everything below the daemon: `swept` are the
      blackholes a sweep clears, `planned` tells whether the plan and key were accepted. */
  datatype Call =
    | Ensure(ip: IPv4, a: I.Plumbing)
    | Remove(ip: IPv4, r: A.RemoveAnswers)
    | Configure(cidr: Option<Prefix>, persisted: bool, swept: set<nat>, planned: bool, m: A.MeshAnswers, routes: nat)
    | Down(down: bool)
    | EnsureSlot(slot: int, x: I.Answers)
    | RemoveSlot(slot: int, x: I.Answers)
    | Start(read: bool, removed: set<nat>, persisted: bool, swept: set<nat>)

  datatype Both = Both(t: I.State, s: C.State)

  /** The /24s the daemon can serve do not meet the Service range, which is c's. */
  ghost predicate Setting(c: I.Config, svc: C.Service) {
    && I.WellFormed(c) && c.configured.bits == 24
    && (forall p: Prefix :: p.bits == 24 && p.addr % 256 == 0 && (I.WithinAggregate(c, p) || p == c.configured.Masked())
          ==> C.NodeBase(svc, p.addr))
    && (forall ip: IPv4 :: c.service.Some? && c.service.value.Contains(ip) ==> svc.Has(ip))
  }

  /** What ConfigureMesh adopts, and the executor after the re-pointing that goes with it. */
  function Adopted(c: I.Config, b: Both, cidr: Option<Prefix>, persisted: bool): (I.State, bool)
    requires I.WellFormed(c)
  {
    I.Adopt(c, b.t, cidr, true, persisted)
  }

  function RepointOps(c: I.Config, b: Both, call: Call): seq<A.Op>
    requires I.WellFormed(c) && call.Configure?
  {
    var u := Adopted(c, b, call.cidr, call.persisted).0;
    if u.node != b.t.node then [A.SetNodePodCIDR(u.node.addr, call.swept)] else []
  }

  /** The executor operations a call runs. */
  function OpsOf(c: I.Config, b: Both, call: Call): seq<A.Op>
    requires I.WellFormed(c)
  {
    match call
    case Ensure(ip, a) => if I.AliasAdmitted(c, b.t.node, ip) then [A.EnsureAlias(ip, Answered(a))] else []
    case Remove(ip, r) => if I.AliasAdmitted(c, b.t.node, ip) then [A.RemoveAlias(ip, r)] else []
    case Configure(cidr, persisted, _, planned, m, _) =>
      RepointOps(c, b, call) + if Adopted(c, b, cidr, persisted).1 && planned then [A.ConfigureMesh(m)] else []
    case Down(down) => [A.RemoveMesh(down)]
    case Start(read, removed, persisted, swept) =>
      [A.DaemonRestart(I.Restarted(c, b.t, read, removed, persisted).node.addr, swept)]
    case _ => []
  }

  function MeshOutcome(c: I.Config, b: Both, call: Call): I.MeshOutcome
    requires I.WellFormed(c) && call.Configure?
  {
    if !call.planned then I.Rejected
    else if A.ConfigureOk(A.Run(b.s, RepointOps(c, b, call)), call.m) then I.Applied(call.routes)
    else I.ExecFailed(call.m.up)
  }

  /** The same call as the identity model sees it. */
  function EventOf(c: I.Config, b: Both, call: Call): I.Event
    requires I.WellFormed(c)
  {
    match call
    case Ensure(ip, a) => I.EnsureAlias(ip, a)
    case Remove(ip, r) => I.RemoveAlias(ip, if A.RemoveOk(b.s, ip, r) then I.Removed else I.Failed(false))
    case Configure(cidr, persisted, _, _, _, _) => I.ConfigureMesh(cidr, true, persisted, MeshOutcome(c, b, call))
    case Down(down) => I.RemoveMesh(b.s.meshUp ==> down)
    case EnsureSlot(slot, x) => I.EnsureInterconnect(slot, x)
    case RemoveSlot(slot, x) => I.RemoveInterconnect(slot, x)
    case Start(read, removed, persisted, _) => I.Restart(read, removed, persisted)
  }

  /** -alias fails only for an absent address; nothing else is asked of the answers. */
  predicate LegalCall(c: I.Config, b: Both, call: Call)
    requires I.WellFormed(c)
  {
    call.Remove? && I.AliasAdmitted(c, b.t.node, call.ip) ==> A.Legal(b.s, A.RemoveAlias(call.ip, call.r))
  }

  function Step(c: I.Config, b: Both, call: Call): Both
    requires I.WellFormed(c)
  {
    Both(I.Next(c, b.t, EventOf(c, b, call)), A.Run(b.s, OpsOf(c, b, call)))
  }

  /** The coupling: same /24, mesh and lo0, the executor's invariant, and only /24s on file. */
  ghost predicate Coupled(svc: C.Service, b: Both) {
    && Matches(b.t, b.s) && C.Inv(b.s) && b.s.svc == svc
    && (b.t.idFile.Some? ==> b.t.idFile.value.bits == 24)
  }

  // ---- the executor's side of one operation ----

  lemma {:induction false} RunOne(s: C.State, op: A.Op)
    ensures A.Run(s, [op]) == A.Next(s, op) && (A.LegalRun(s, [op]) <==> A.Legal(s, op))
  {
    assert [op][1..] == [];
    assert A.Run(A.Next(s, op), []) == A.Next(s, op) && A.LegalRun(A.Next(s, op), []);
  }

  lemma {:induction false} KeepsService(s: C.State, cs: seq<C.Cmd>)
    ensures C.After(s, cs).svc == s.svc
    decreases |cs|
  {
    if cs != [] { KeepsService(s, cs[..|cs| - 1]); }
  }

  lemma {:induction false} OpKeeps(s: C.State, op: A.Op)
    requires C.Inv(s) && A.Legal(s, op)
    ensures C.Inv(A.Next(s, op)) && A.Next(s, op).svc == s.svc
  {
    A.OpRuns(s, op);
    KeepsService(s, A.Cmds(s, op));
  }

  lemma {:induction false} ClearsSpare(ips: seq<nat>)
    ensures forall d <- A.Clears(ips) :: Spares(d)
  {
    forall d | d in A.Clears(ips) ensures Spares(d) {
      var i :| 0 <= i < |ips| && A.Clears(ips)[i] == d;
    }
  }

  lemma {:induction false} RestartedExecutor(s: C.State, base: nat, swept: set<nat>)
    ensures var u := A.Next(s, A.DaemonRestart(base, swept)); u.lo0 == s.lo0 && u.base == base && !u.meshUp
  {
    var clears := A.Clears(A.Listed(base, s.blackholes * swept));
    A.AfterOne(s, C.Restart(base));
    A.AfterAppend(s, [C.Restart(base)], clears);
    ClearsSpare(A.Listed(base, s.blackholes * swept));
    KeepsLo0(C.Do(s, C.Restart(base)), clears);
  }

  lemma {:induction false} ConfiguredExecutor(s: C.State, m: A.MeshAnswers)
    requires C.Inv(s)
    ensures var u := A.Next(s, A.ConfigureMesh(m));
            u.lo0 == s.lo0 && u.base == s.base && u.meshUp == (s.meshUp || m.up)
  {
    A.ConfigureRuns(s, m);
    A.ConfiguredMeans(s, m);
  }

  // ---- one call ----

  lemma {:induction false} MaskedBase(p: Prefix)
    requires p.bits == 24
    ensures p.Masked().addr % 256 == 0 && p.Masked().bits == 24 && p.Masked().Masked() == p.Masked()
  {
    SpanOf24(p);
    RoundDown(p.addr, 256);
    MaskedIsSame(p, 0);
  }

  lemma {:induction false} NodeHolds(b: Both, ip: IPv4)
    requires Matches(b.t, b.s)
    ensures b.t.node.Contains(ip) <==> C.InNode(b.s.base, ip)
  {
    SpanOf24(b.t.node);
  }

  lemma {:induction false} EnsureMatches(c: I.Config, svc: C.Service, b: Both, ip: IPv4, a: I.Plumbing)
    requires Setting(c, svc) && Coupled(svc, b)
    ensures var call := Ensure(ip, a); A.LegalRun(b.s, OpsOf(c, b, call)) && Coupled(svc, Step(c, b, call))
  {
    if I.AliasAdmitted(c, b.t.node, ip) {
      var op := A.EnsureAlias(ip, Answered(a));
      NodeHolds(b, ip);
      assert A.Legal(b.s, op);
      RunOne(b.s, op);
      OpKeeps(b.s, op);
      EnsureIsTheExecutors(c, b.t, b.s, ip, a);
    }
  }

  lemma {:induction false} RemoveMatches(c: I.Config, svc: C.Service, b: Both, ip: IPv4, r: A.RemoveAnswers)
    requires Setting(c, svc) && Coupled(svc, b) && LegalCall(c, b, Remove(ip, r))
    ensures var call := Remove(ip, r); A.LegalRun(b.s, OpsOf(c, b, call)) && Coupled(svc, Step(c, b, call))
  {
    if I.AliasAdmitted(c, b.t.node, ip) {
      var op := A.RemoveAlias(ip, r);
      RunOne(b.s, op);
      OpKeeps(b.s, op);
      RemoveIsTheExecutors(c, b.t, b.s, ip, r);
    }
  }

  lemma {:induction false} DownMatches(c: I.Config, svc: C.Service, b: Both, down: bool)
    requires Setting(c, svc) && Coupled(svc, b)
    ensures var call := Down(down); A.LegalRun(b.s, OpsOf(c, b, call)) && Coupled(svc, Step(c, b, call))
  {
    var op := A.RemoveMesh(down);
    RunOne(b.s, op);
    OpKeeps(b.s, op);
    A.AfterOne(b.s, C.DeviceDown);
  }

  lemma {:induction false} EnsureSlotKeeps(c: I.Config, t: I.State, slot: int, x: I.Answers)
    requires I.WellFormed(c)
    ensures var u := I.EnsuredInterconnect(c, t, slot, x);
            u.node == t.node && u.execUp == t.execUp && u.lo0 == t.lo0 && u.idFile == t.idFile
  {
  }

  lemma {:induction false} RemoveSlotKeeps(c: I.Config, t: I.State, slot: int, x: I.Answers)
    requires I.WellFormed(c)
    ensures var u := I.RemovedInterconnect(c, t, slot, x);
            u.node == t.node && u.execUp == t.execUp && u.lo0 == t.lo0 && u.idFile == t.idFile
  {
  }

  lemma {:induction false} SlotMatches(c: I.Config, svc: C.Service, b: Both, call: Call)
    requires Setting(c, svc) && Coupled(svc, b) && (call.EnsureSlot? || call.RemoveSlot?)
    ensures A.LegalRun(b.s, OpsOf(c, b, call)) && Coupled(svc, Step(c, b, call))
  {
    match call
    case EnsureSlot(slot, x) => EnsureSlotKeeps(c, b.t, slot, x);
    case RemoveSlot(slot, x) => RemoveSlotKeeps(c, b.t, slot, x);
  }

  /** The identity a start comes up with is a /24 the daemon can serve. */
  lemma {:induction false} StartsOn24(c: I.Config, svc: C.Service, t: I.State, read: bool, removed: set<nat>,
                                      persisted: bool)
    requires Setting(c, svc) && (t.idFile.Some? ==> t.idFile.value.bits == 24)
    ensures var u := I.Restarted(c, t, read, removed, persisted);
            && u.node.bits == 24 && u.node.addr % 256 == 0 && C.NodeBase(svc, u.node.addr)
            && u.lo0 == t.lo0 && !u.execUp && u.idFile == t.idFile
  {
    MaskedBase(c.configured);
    if I.Restored(c, t).Some? { MaskedBase(t.idFile.value); }
  }

  lemma {:induction false} StartMatches(c: I.Config, svc: C.Service, b: Both, call: Call)
    requires Setting(c, svc) && Coupled(svc, b) && call.Start?
    ensures A.LegalRun(b.s, OpsOf(c, b, call)) && Coupled(svc, Step(c, b, call))
  {
    StartsOn24(c, svc, b.t, call.read, call.removed, call.persisted);
    var base := I.Restarted(c, b.t, call.read, call.removed, call.persisted).node.addr;
    var op := A.DaemonRestart(base, call.swept);
    RunOne(b.s, op);
    OpKeeps(b.s, op);
    RestartedExecutor(b.s, base, call.swept);
  }

  /** The adoption, and the re-pointing that follows it. */
  lemma {:induction false} RepointMatches(c: I.Config, svc: C.Service, b: Both, call: Call)
    requires Setting(c, svc) && Coupled(svc, b) && call.Configure?
    ensures var ops := RepointOps(c, b, call);
            A.LegalRun(b.s, ops) && Coupled(svc, Both(Adopted(c, b, call.cidr, call.persisted).0, A.Run(b.s, ops)))
  {
    var u := Adopted(c, b, call.cidr, call.persisted).0;
    if call.cidr.Some? && call.cidr.value.Ok() && call.cidr.value.bits == 24 { MaskedBase(call.cidr.value); }
    if u.node != b.t.node {
      var op := A.SetNodePodCIDR(u.node.addr, call.swept);
      assert C.NodeBase(svc, u.node.addr);
      RunOne(b.s, op);
      OpKeeps(b.s, op);
      A.SetNodeState(b.s, u.node.addr, call.swept);
    }
  }

  lemma {:induction false} LegalAppend(s: C.State, a: seq<A.Op>, z: seq<A.Op>)
    ensures A.Run(s, a + z) == A.Run(A.Run(s, a), z)
    ensures A.LegalRun(s, a + z) <==> A.LegalRun(s, a) && A.LegalRun(A.Run(s, a), z)
    decreases |a|
  {
    if a == [] {
      assert a + z == z;
    } else {
      assert (a + z)[0] == a[0] && (a + z)[1..] == a[1..] + z;
      LegalAppend(A.Next(s, a[0]), a[1..], z);
    }
  }

  /** Bringing the mesh up on a coupled pair. */
  lemma {:induction false} MeshMatches(svc: C.Service, b: Both, m: A.MeshAnswers, routes: nat)
    requires Coupled(svc, b)
    ensures A.LegalRun(b.s, [A.ConfigureMesh(m)])
    ensures var t := if A.ConfigureOk(b.s, m) then b.t.(execUp := true, meshUp := true, meshRoutes := routes)
                     else b.t.(execUp := b.t.execUp || m.up);
            Coupled(svc, Both(t, A.Run(b.s, [A.ConfigureMesh(m)])))
  {
    RunOne(b.s, A.ConfigureMesh(m));
    OpKeeps(b.s, A.ConfigureMesh(m));
    ConfiguredExecutor(b.s, m);
  }

  lemma {:induction false} ConfigureMatches(c: I.Config, svc: C.Service, b: Both, call: Call)
    requires Setting(c, svc) && Coupled(svc, b) && call.Configure?
    ensures A.LegalRun(b.s, OpsOf(c, b, call)) && Coupled(svc, Step(c, b, call))
  {
    RepointMatches(c, svc, b, call);
    var (u, ok) := Adopted(c, b, call.cidr, call.persisted);
    var first := RepointOps(c, b, call);
    if ok && call.planned {
      MeshMatches(svc, Both(u, A.Run(b.s, first)), call.m, call.routes);
      LegalAppend(b.s, first, [A.ConfigureMesh(call.m)]);
      ConfiguredDaemon(c, b, call);
    } else {
      assert first + [] == first;
    }
  }

  /** The daemon's state after an accepted plan. */
  lemma {:induction false} ConfiguredDaemon(c: I.Config, b: Both, call: Call)
    requires I.WellFormed(c) && call.Configure? && call.planned && Adopted(c, b, call.cidr, call.persisted).1
    ensures var u := Adopted(c, b, call.cidr, call.persisted).0;
            I.Next(c, b.t, EventOf(c, b, call))
            == if A.ConfigureOk(A.Run(b.s, RepointOps(c, b, call)), call.m)
               then u.(execUp := true, meshUp := true, meshRoutes := call.routes)
               else u.(execUp := u.execUp || call.m.up)
  {
  }

  /** Every call is legal for the executor and keeps the coupling. */
  lemma {:induction false} CallMatches(c: I.Config, svc: C.Service, b: Both, call: Call)
    requires Setting(c, svc) && Coupled(svc, b) && LegalCall(c, b, call)
    ensures A.LegalRun(b.s, OpsOf(c, b, call)) && Coupled(svc, Step(c, b, call))
  {
    match call
    case Ensure(ip, a) => EnsureMatches(c, svc, b, ip, a);
    case Remove(ip, r) => RemoveMatches(c, svc, b, ip, r);
    case Configure(_, _, _, _, _, _) => ConfigureMatches(c, svc, b, call);
    case Down(down) => DownMatches(c, svc, b, down);
    case Start(_, _, _, _) => StartMatches(c, svc, b, call);
    case _ => SlotMatches(c, svc, b, call);
  }

  // ---- whole runs ----

  function Served(c: I.Config, b: Both, calls: seq<Call>): Both
    requires I.WellFormed(c)
  {
    if calls == [] then b else Step(c, Served(c, b, calls[..|calls| - 1]), calls[|calls| - 1])
  }

  predicate LegalCalls(c: I.Config, b: Both, calls: seq<Call>)
    requires I.WellFormed(c)
  {
    forall i :: 0 <= i < |calls| ==> LegalCall(c, Served(c, b, calls[..i]), calls[i])
  }

  function Events(c: I.Config, b: Both, calls: seq<Call>): seq<I.Event>
    requires I.WellFormed(c)
  {
    if calls == [] then []
    else
      var front := calls[..|calls| - 1];
      Events(c, b, front) + [EventOf(c, Served(c, b, front), calls[|calls| - 1])]
  }

  function Ops(c: I.Config, b: Both, calls: seq<Call>): seq<A.Op>
    requires I.WellFormed(c)
  {
    if calls == [] then []
    else
      var front := calls[..|calls| - 1];
      Ops(c, b, front) + OpsOf(c, Served(c, b, front), calls[|calls| - 1])
  }

  /** The daemon has started over the kernel that a fresh executor of its /24 serves. */
  ghost predicate Starts(c: I.Config, svc: C.Service, o: R.Origin, s: C.State)
    requires I.WellFormed(c)
  {
    && (o.over.idFile.Some? ==> o.over.idFile.value.bits == 24)
    && A.Fresh(s) && s.svc == svc && s.base == R.Begun(c, o).node.addr
    && forall ip: IPv4 :: ip in o.over.lo0 <==> ip in s.lo0
  }

  lemma {:induction false} StartsCoupled(c: I.Config, svc: C.Service, o: R.Origin, s: C.State)
    requires Setting(c, svc) && Starts(c, svc, o, s)
    ensures Coupled(svc, Both(R.Begun(c, o), s))
  {
    StartsOn24(c, svc, o.over, o.start.read, o.start.removed, o.start.persisted);
  }

  /** Every run of the daemon over its executor is a run of the identity model and a legal
      run of the executor, and at its end the two are coupled: one /24, one view of the
      mesh, one lo0. */
  lemma {:induction false} RunsRefine(c: I.Config, svc: C.Service, o: R.Origin, s: C.State, calls: seq<Call>)
    requires Setting(c, svc) && Starts(c, svc, o, s) && LegalCalls(c, Both(R.Begun(c, o), s), calls)
    ensures var b := Both(R.Begun(c, o), s);
            var end := Served(c, b, calls);
            && end.t == R.Run(c, o, Events(c, b, calls))
            && end.s == A.Run(s, Ops(c, b, calls)) && A.LegalRun(s, Ops(c, b, calls))
            && Coupled(svc, end)
    decreases |calls|
  {
    var b := Both(R.Begun(c, o), s);
    StartsCoupled(c, svc, o, s);
    if calls != [] {
      var n := |calls| - 1;
      var front := calls[..n];
      FrontIsLegal(c, b, calls);
      RunsRefine(c, svc, o, s, front);
      var mid := Served(c, b, front);
      CallMatches(c, svc, mid, calls[n]);
      R.RunSnoc(c, o, Events(c, b, front), EventOf(c, mid, calls[n]));
      LegalAppend(s, Ops(c, b, front), OpsOf(c, mid, calls[n]));
    }
  }

  lemma {:induction false} FrontIsLegal(c: I.Config, b: Both, calls: seq<Call>)
    requires I.WellFormed(c) && LegalCalls(c, b, calls) && calls != []
    ensures LegalCalls(c, b, calls[..|calls| - 1])
    ensures LegalCall(c, Served(c, b, calls[..|calls| - 1]), calls[|calls| - 1])
  {
    var front := calls[..|calls| - 1];
    forall i | 0 <= i < |front| ensures LegalCall(c, Served(c, b, front[..i]), front[i]) {
      assert front[..i] == calls[..i] && front[i] == calls[i];
    }
  }

  /** So the executor's guarantees hold inside every run of the daemon: after every command
      of every operation, pods live on lo0 count as allocated, utun pod aliases have their
      lo0 alias, and nothing is aliased and blackholed. */
  lemma {:induction false} DaemonRunsAreSafe(c: I.Config, svc: C.Service, o: R.Origin, s: C.State, calls: seq<Call>,
                                             i: nat, k: nat)
    requires Setting(c, svc) && Starts(c, svc, o, s) && LegalCalls(c, Both(R.Begun(c, o), s), calls)
    requires i < |Ops(c, Both(R.Begun(c, o), s), calls)|
    ensures var ops := Ops(c, Both(R.Begun(c, o), s), calls);
            var cmds := A.Cmds(A.Run(s, ops[..i]), ops[i]);
            k <= |cmds| ==>
              var u := C.After(A.Run(s, ops[..i]), cmds[..k]);
              && (forall ip <- u.lo0 :: C.IsPod(u.base, ip) ==> C.Allocates(u, ip))
              && (forall ip <- u.utun :: ip in u.lo0)
              && u.lo0 !! u.blackholes
  {
    var ops := Ops(c, Both(R.Begun(c, o), s), calls);
    RunsRefine(c, svc, o, s, calls);
    assert ops == ops[..i] + ops[i..];
    LegalAppend(s, ops[..i], ops[i..]);
    if k <= |A.Cmds(A.Run(s, ops[..i]), ops[i])| { A.SafeAtEveryCommand(s, ops[..i], ops[i], k); }
  }
}
