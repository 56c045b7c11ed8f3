/** The root executor's operations (pkg/netd/applier.go:292-469, 494-640) as the commands
    they run, under any failures: the kernel answers each command as it likes, except that
    -alias fails only for an address that is not there. */
module NetdApplier {
  import opened Text
  import opened NetdCommands

  // ---- addresses in order ----

  /** The addresses of s between lo and hi, ascending. */
  function Scan(s: set<nat>, lo: nat, hi: nat): (r: seq<nat>)
    ensures forall x :: x in r <==> x in s && lo <= x <= hi
    decreases hi + 1 - lo
  {
    if lo > hi then [] else (if lo in s then [lo] else []) + Scan(s, lo + 1, hi)
  }

  /** The pod addresses of the /24 at `base` among s, ascending. */
  function Listed(base: nat, s: set<nat>): (r: seq<nat>)
    ensures forall x :: x in r <==> x in s && IsPod(base, x)
  {
    Scan(s, base + 2, base + 254)
  }

  function Members(ips: seq<nat>): (r: set<nat>)
    ensures forall x :: x in r <==> x in ips
  {
    if ips == [] then {} else
      assert ips == ips[..|ips| - 1] + [ips[|ips| - 1]];
      Members(ips[..|ips| - 1]) + {ips[|ips| - 1]}
  }

  // ---- the operations ----

  /** The kernel's answers to one operation's commands. */
  datatype EnsureAnswers = EnsureAnswers(cleared: bool, aliased: bool, utunAliased: bool)
  datatype RemoveAnswers = RemoveAnswers(utunFound: bool, found: bool, installed: bool)
  datatype MeshAnswers = MeshAnswers(readLo0: bool, up: bool, applied: bool, readBoth: bool, refused: set<nat>)

  datatype Op =
    | EnsureAlias(ip: nat, e: EnsureAnswers)
    | RemoveAlias(ip: nat, r: RemoveAnswers)
    | ConfigureMesh(m: MeshAnswers)
    | RemoveMesh(down: bool)
    | SetNodePodCIDR(base: nat, swept: set<nat>)
    | DaemonRestart(base: nat, swept: set<nat>)

  function EnsureCmds(s: State, ip: nat, a: EnsureAnswers): seq<Cmd> {
    if !IsPod(s.base, ip) then if a.aliased then [Alias(ip), Track(ip, Live)] else []
    else if !a.cleared then [Count(ip)]
    else if !a.aliased then [Count(ip), Clear(ip)]
    else [Count(ip), Clear(ip), Alias(ip), Track(ip, Live)] + if s.meshUp && a.utunAliased then [UtunAlias(ip)] else []
  }

  predicate EnsureOk(s: State, ip: nat, a: EnsureAnswers) {
    a.aliased && (IsPod(s.base, ip) ==> a.cleared && (s.meshUp ==> a.utunAliased))
  }

  predicate IsPending(s: State, ip: nat) { ip in s.aliased && s.aliased[ip].Pending? }

  function UnaliasCmds(s: State, ip: nat, a: RemoveAnswers): seq<Cmd> {
    (if IsPod(s.base, ip) && s.meshUp && a.utunFound then [UtunUnalias(ip)] else [])
    + if !IsPending(s, ip) && a.found then [Unalias(ip)] else []
  }

  /** Counted out if the alias is known gone, then blackholed, or pending when that fails. */
  function DepartCmds(ip: nat, gone: bool, installed: bool): seq<Cmd> {
    (if gone then [Uncount(ip)] else []) + if installed then [Install(ip), Untrack({ip})] else [Track(ip, Pending)]
  }

  function BlackholeCmds(s: State, ip: nat, a: RemoveAnswers): seq<Cmd> {
    var removed := !IsPending(s, ip) && a.found;
    if !IsPod(s.base, ip) then [Untrack({ip})]
    else if ip !in s.aliased && !removed then [] else DepartCmds(ip, removed || IsPending(s, ip), a.installed)
  }

  function RemoveCmds(s: State, ip: nat, a: RemoveAnswers): seq<Cmd> {
    UnaliasCmds(s, ip, a) + BlackholeCmds(s, ip, a)
  }

  predicate RemoveOk(s: State, ip: nat, a: RemoveAnswers) {
    IsPod(s.base, ip) && (ip in s.aliased || a.found) ==> a.installed
  }

  function LivePods(s: State): set<nat> { set ip <- s.aliased | s.aliased[ip].Live? && IsPod(s.base, ip) }

  function SeedCmd(s: State, a: MeshAnswers): Cmd {
    if a.readLo0 then Seed(PodsOnLo0(s) + LivePods(s)) else Forget
  }

  function UtunAliases(ips: seq<nat>): seq<Cmd> { seq(|ips|, i requires 0 <= i < |ips| => UtunAlias(ips[i])) }
  function UtunUnaliases(ips: seq<nat>): seq<Cmd> { seq(|ips|, i requires 0 <= i < |ips| => UtunUnalias(ips[i])) }
  function Clears(ips: seq<nat>): seq<Cmd> { seq(|ips|, i requires 0 <= i < |ips| => Clear(ips[i])) }

  /** The pod addresses on the utun once it is up. */
  function UtunNow(s: State): set<nat> { if s.meshUp then set ip <- s.utun | IsPod(s.base, ip) else {} }

  function BringUpCmds(s: State, a: MeshAnswers): seq<Cmd> {
    [SeedCmd(s, a)] + if s.meshUp || !a.up then [] else [DeviceUp]
  }

  function ReconcileCmds(base: nat, have: set<nat>, want: set<nat>, refused: set<nat>): seq<Cmd> {
    UtunUnaliases(Listed(base, have - want)) + UtunAliases(Listed(base, want - have - refused))
  }

  function ConfigureCmds(s: State, a: MeshAnswers): seq<Cmd> {
    if (!s.meshUp && !a.up) || !a.readBoth then BringUpCmds(s, a)
    else BringUpCmds(s, a) + ReconcileCmds(s.base, UtunNow(s), PodsOnLo0(s), a.refused)
  }

  predicate ConfigureOk(s: State, a: MeshAnswers) {
    (s.meshUp || a.up) && a.applied && a.readBoth && (PodsOnLo0(s) - UtunNow(s)) !! a.refused
  }

  function SetNodeCmds(s: State, base: nat, swept: set<nat>): seq<Cmd> {
    if s.meshUp then []
    else if base == s.base then [Repoint(base)]
    else [Repoint(base), Untrack(set ip <- s.aliased | IsPod(s.base, ip))]
         + Clears(Listed(s.base, s.blackholes * swept))
  }

  function Cmds(s: State, op: Op): seq<Cmd> {
    match op
    case EnsureAlias(ip, a) => EnsureCmds(s, ip, a)
    case RemoveAlias(ip, a) => RemoveCmds(s, ip, a)
    case ConfigureMesh(a) => ConfigureCmds(s, a)
    case RemoveMesh(down) => if s.meshUp && down then [DeviceDown] else []
    case SetNodePodCIDR(base, swept) => SetNodeCmds(s, base, swept)
    case DaemonRestart(base, swept) =>
      [Restart(base)] + Clears(Listed(base, s.blackholes * swept))
  }

  /** The server lets through only addresses of the node /24 and of the Service range, and
      only node /24s; -alias fails only for an absent address. */
  predicate Legal(s: State, op: Op) {
    match op
    case EnsureAlias(ip, _) => InNode(s.base, ip) || s.svc.Has(ip)
    case RemoveAlias(ip, a) => (ip in s.utun ==> a.utunFound) && (ip in s.lo0 ==> a.found)
    case SetNodePodCIDR(base, _) => NodeBase(s.svc, base)
    case DaemonRestart(base, _) => NodeBase(s.svc, base)
    case _ => true
  }

  // ---- each operation's commands are allowed, in order ----

  /** The operation's commands run safely and end in t, where the invariant holds again. */
  predicate Runs(s: State, cs: seq<Cmd>, t: State) { Leads(s, cs, t) && Inv(t) }

  lemma {:induction false} AliasRuns(s: State, ip: nat)
    requires Inv(s) && Allowed(s, Alias(ip))
    ensures Runs(s, [Alias(ip), Track(ip, Live)], Do(Do(s, Alias(ip)), Track(ip, Live)))
  {
    LeadsTwo(s, Alias(ip), Track(ip, Live));
    AllowedKeepsSafe(s, Alias(ip));
    var t := Do(Do(s, Alias(ip)), Track(ip, Live));
    AllowedKeepsSafe(Do(s, Alias(ip)), Track(ip, Live));
  }

  lemma {:induction false} PodAliasRuns(s: State, ip: nat)
    requires Inv(s) && IsPod(s.base, ip)
    ensures var t := Do(Do(s, Count(ip)), Clear(ip));
            && Runs(s, [Count(ip)], Do(s, Count(ip))) && Runs(s, [Count(ip), Clear(ip)], t)
            && Runs(s, [Count(ip), Clear(ip)] + [Alias(ip), Track(ip, Live)], Do(Do(t, Alias(ip)), Track(ip, Live)))
  {
    LeadsOne(s, Count(ip));
    LeadsTwo(s, Count(ip), Clear(ip));
    AllowedKeepsSafe(s, Count(ip));
    AllowedKeepsSafe(Do(s, Count(ip)), Clear(ip));
    var t := Do(Do(s, Count(ip)), Clear(ip));
    AliasRuns(t, ip);
    LeadsAppend(s, [Count(ip), Clear(ip)], t, [Alias(ip), Track(ip, Live)], Do(Do(t, Alias(ip)), Track(ip, Live)));
  }

  lemma {:induction false} UtunAliasRuns(s: State, cs: seq<Cmd>, t: State, ip: nat)
    requires Runs(s, cs, t) && Allowed(t, UtunAlias(ip))
    ensures Runs(s, cs + [UtunAlias(ip)], Do(t, UtunAlias(ip)))
  {
    LeadsStep(s, cs, t, UtunAlias(ip));
    AllowedKeepsSafe(t, UtunAlias(ip));
  }

  lemma {:induction false} EnsureRuns(s: State, ip: nat, a: EnsureAnswers)
    requires Inv(s) && Legal(s, EnsureAlias(ip, a))
    ensures Runs(s, EnsureCmds(s, ip, a), After(s, EnsureCmds(s, ip, a)))
  {
    if !IsPod(s.base, ip) {
      if a.aliased { AliasRuns(s, ip); }
    } else {
      PodAliasRuns(s, ip);
      if a.cleared && a.aliased {
        var cs := [Count(ip), Clear(ip), Alias(ip), Track(ip, Live)];
        assert cs == [Count(ip), Clear(ip)] + [Alias(ip), Track(ip, Live)];
        if s.meshUp && a.utunAliased {
          UtunAliasRuns(s, cs, After(s, cs), ip);
        } else {
          assert cs + [] == cs;
        }
      }
    }
  }

  lemma {:induction false} UnaliasRuns(s: State, ip: nat, a: RemoveAnswers)
    requires Inv(s) && Legal(s, RemoveAlias(ip, a))
    ensures var cs := UnaliasCmds(s, ip, a);
            var removed := !IsPending(s, ip) && a.found;
            && Leads(s, cs, s.(utun := s.utun - {ip}, lo0 := s.lo0 - {ip}))
            && Safe(s.(utun := s.utun - {ip}, lo0 := s.lo0 - {ip}))
  {
    var cs := UnaliasCmds(s, ip, a);
    var off := s.(utun := s.utun - {ip});
    if IsPod(s.base, ip) && s.meshUp && a.utunFound {
      LeadsOne(s, UtunUnalias(ip));
      AllowedKeepsSafe(s, UtunUnalias(ip));
    } else {
      assert off == s;
      assert Leads(s, [], s);
    }
    var gone := off.(lo0 := s.lo0 - {ip});
    if !IsPending(s, ip) && a.found {
      LeadsOne(off, Unalias(ip));
      AllowedKeepsSafe(off, Unalias(ip));
    } else {
      assert gone == off;
      assert Leads(off, [], off);
    }
    LeadsAppend(s, if IsPod(s.base, ip) && s.meshUp && a.utunFound then [UtunUnalias(ip)] else [], off,
                if !IsPending(s, ip) && a.found then [Unalias(ip)] else [], gone);
  }

  predicate TrackedBut(s: State, ip: nat) {
    forall k <- s.aliased :: k != ip ==> if s.aliased[k].Live? then k in s.lo0 else IsPod(s.base, k) && k !in s.lo0
  }

  /** A pod address gone from both interfaces: counted out, then blackholed or pending. */
  lemma {:induction false} DepartRuns(s: State, ip: nat, installed: bool)
    requires Safe(s) && TrackedBut(s, ip)
    requires IsPod(s.base, ip) && ip !in s.lo0
    ensures var last := if installed then [Install(ip), Untrack({ip})] else [Track(ip, Pending)];
            Runs(s, last, After(s, last)) && Runs(s, [Uncount(ip)] + last, After(Do(s, Uncount(ip)), last))
  {
    LastRuns(s, ip, installed);
    var t := Do(s, Uncount(ip));
    AllowedKeepsSafe(s, Uncount(ip));
    LastRuns(t, ip, installed);
    LeadsOne(s, Uncount(ip));
    var last := if installed then [Install(ip), Untrack({ip})] else [Track(ip, Pending)];
    LeadsAppend(s, [Uncount(ip)], t, last, After(t, last));
  }

  lemma {:induction false} LastRuns(s: State, ip: nat, installed: bool)
    requires Safe(s) && TrackedBut(s, ip)
    requires IsPod(s.base, ip) && ip !in s.lo0
    ensures var last := if installed then [Install(ip), Untrack({ip})] else [Track(ip, Pending)];
            Runs(s, last, After(s, last))
  {
    if installed {
      LeadsTwo(s, Install(ip), Untrack({ip}));
      AllowedKeepsSafe(s, Install(ip));
      AllowedKeepsSafe(Do(s, Install(ip)), Untrack({ip}));
    } else {
      LeadsOne(s, Track(ip, Pending));
      AllowedKeepsSafe(s, Track(ip, Pending));
    }
  }

  lemma {:induction false} PlainRemoveRuns(t: State, ip: nat)
    requires Safe(t) && TrackedBut(t, ip)
    ensures Runs(t, [Untrack({ip})], Do(t, Untrack({ip})))
  {
    LeadsOne(t, Untrack({ip}));
    AllowedKeepsSafe(t, Untrack({ip}));
  }

  lemma {:induction false} PodRemoveRuns(t: State, ip: nat, counted: bool, installed: bool)
    requires Safe(t) && TrackedBut(t, ip) && IsPod(t.base, ip) && ip !in t.lo0
    ensures Runs(t, DepartCmds(ip, counted, installed), After(t, DepartCmds(ip, counted, installed)))
  {
    DepartRuns(t, ip, installed);
    var last := if installed then [Install(ip), Untrack({ip})] else [Track(ip, Pending)];
    assert [] + last == last;
  }

  lemma {:induction false} BlackholeRuns(s: State, ip: nat, a: RemoveAnswers, t: State)
    requires Inv(s) && Legal(s, RemoveAlias(ip, a))
    requires t == s.(utun := s.utun - {ip}, lo0 := s.lo0 - {ip}) && Safe(t)
    ensures Runs(t, BlackholeCmds(s, ip, a), After(t, BlackholeCmds(s, ip, a)))
  {
    assert TrackedBut(t, ip);
    var removed := !IsPending(s, ip) && a.found;
    if !IsPod(s.base, ip) {
      PlainRemoveRuns(t, ip);
    } else if ip !in s.aliased && !removed {
      assert t == s && BlackholeCmds(s, ip, a) == [];
    } else {
      PodRemoveRuns(t, ip, removed || IsPending(s, ip), a.installed);
    }
  }

  lemma {:induction false} RemoveRuns(s: State, ip: nat, a: RemoveAnswers)
    requires Inv(s) && Legal(s, RemoveAlias(ip, a))
    ensures Runs(s, RemoveCmds(s, ip, a), After(s, RemoveCmds(s, ip, a)))
  {
    UnaliasRuns(s, ip, a);
    BlackholeRuns(s, ip, a, s.(utun := s.utun - {ip}, lo0 := s.lo0 - {ip}));
    var t := s.(utun := s.utun - {ip}, lo0 := s.lo0 - {ip});
    LeadsAppend(s, UnaliasCmds(s, ip, a), t, BlackholeCmds(s, ip, a), After(t, BlackholeCmds(s, ip, a)));
  }

  // ---- the loops over addresses ----

  lemma {:induction false} UtunAliasesRun(s: State, ips: seq<nat>)
    requires Inv(s) && (ips != [] ==> s.meshUp) && forall ip <- ips :: ip in PodsOnLo0(s)
    ensures Runs(s, UtunAliases(ips), s.(utun := s.utun + Members(ips)))
    decreases |ips|
  {
    if ips == [] {
      assert UtunAliases(ips) == [] && s.utun + Members(ips) == s.utun;
    } else {
      var n := |ips| - 1;
      UtunAliasesRun(s, ips[..n]);
      var t := s.(utun := s.utun + Members(ips[..n]));
      assert ips[n] in ips && ips[n] in PodsOnLo0(s);
      UtunAliasRuns(s, UtunAliases(ips[..n]), t, ips[n]);
      assert UtunAliases(ips) == UtunAliases(ips[..n]) + [UtunAlias(ips[n])];
      assert s.utun + Members(ips) == t.utun + {ips[n]};
    }
  }

  lemma {:induction false} UtunUnaliasesRun(s: State, ips: seq<nat>)
    requires Inv(s)
    ensures Runs(s, UtunUnaliases(ips), s.(utun := s.utun - Members(ips)))
    decreases |ips|
  {
    if ips == [] {
      assert UtunUnaliases(ips) == [] && s.utun - Members(ips) == s.utun;
    } else {
      var n := |ips| - 1;
      UtunUnaliasesRun(s, ips[..n]);
      var t := s.(utun := s.utun - Members(ips[..n]));
      LeadsStep(s, UtunUnaliases(ips[..n]), t, UtunUnalias(ips[n]));
      AllowedKeepsSafe(t, UtunUnalias(ips[n]));
      assert UtunUnaliases(ips) == UtunUnaliases(ips[..n]) + [UtunUnalias(ips[n])];
      assert s.utun - Members(ips) == t.utun - {ips[n]};
    }
  }

  lemma {:induction false} ClearsRun(s: State, ips: seq<nat>)
    requires Inv(s)
    ensures Runs(s, Clears(ips), s.(blackholes := s.blackholes - Members(ips)))
    decreases |ips|
  {
    if ips == [] {
      assert Clears(ips) == [] && s.blackholes - Members(ips) == s.blackholes;
    } else {
      var n := |ips| - 1;
      ClearsRun(s, ips[..n]);
      var t := s.(blackholes := s.blackholes - Members(ips[..n]));
      LeadsStep(s, Clears(ips[..n]), t, Clear(ips[n]));
      AllowedKeepsSafe(t, Clear(ips[n]));
      assert Clears(ips) == Clears(ips[..n]) + [Clear(ips[n])];
      assert s.blackholes - Members(ips) == t.blackholes - {ips[n]};
    }
  }

  // ---- the mesh operations ----

  lemma {:induction false} BringUpRuns(s: State, a: MeshAnswers)
    requires Inv(s)
    ensures var up := s.meshUp || a.up;
            var t := Do(s, SeedCmd(s, a)).(meshUp := up, utun := UtunNow(s));
            Runs(s, BringUpCmds(s, a), t) && (a.readLo0 ==> t.known && t.pods == PodsOnLo0(s))
  {
    var c := SeedCmd(s, a);
    assert PodsOnLo0(s) + LivePods(s) == PodsOnLo0(s);
    LeadsOne(s, c);
    AllowedKeepsSafe(s, c);
    assert UtunNow(s) == s.utun;
    if !s.meshUp && a.up {
      LeadsTwo(s, c, DeviceUp);
      AllowedKeepsSafe(Do(s, c), DeviceUp);
      assert [c] + [DeviceUp] == [c, DeviceUp];
    } else {
      assert [c] + [] == [c];
    }
  }

  function Reconciled(have: set<nat>, want: set<nat>, refused: set<nat>): set<nat> {
    have * want + (want - have - refused)
  }

  lemma {:induction false} ReconcileRuns(t: State, refused: set<nat>)
    requires Inv(t) && t.meshUp
    ensures Runs(t, ReconcileCmds(t.base, t.utun, PodsOnLo0(t), refused),
                 t.(utun := Reconciled(t.utun, PodsOnLo0(t), refused)))
  {
    var stale, missing := Listed(t.base, t.utun - PodsOnLo0(t)), Listed(t.base, PodsOnLo0(t) - t.utun - refused);
    UtunUnaliasesRun(t, stale);
    var u := t.(utun := t.utun - Members(stale));
    assert PodsOnLo0(u) == PodsOnLo0(t);
    UtunAliasesRun(u, missing);
    var w := u.(utun := u.utun + Members(missing));
    LeadsAppend(t, UtunUnaliases(stale), u, UtunAliases(missing), w);
    assert w.utun == Reconciled(t.utun, PodsOnLo0(t), refused);
  }

  /** The state ConfigureMesh leaves. */
  function Configured(s: State, a: MeshAnswers): State {
    var t := Do(s, SeedCmd(s, a)).(meshUp := s.meshUp || a.up, utun := UtunNow(s));
    if (!s.meshUp && !a.up) || !a.readBoth then t else t.(utun := Reconciled(UtunNow(s), PodsOnLo0(s), a.refused))
  }

  lemma {:induction false} ConfigureRuns(s: State, a: MeshAnswers)
    requires Inv(s)
    ensures Runs(s, ConfigureCmds(s, a), Configured(s, a))
  {
    BringUpRuns(s, a);
    if (s.meshUp || a.up) && a.readBoth {
      var t := Do(s, SeedCmd(s, a)).(meshUp := true, utun := UtunNow(s));
      assert PodsOnLo0(t) == PodsOnLo0(s);
      ReconcileRuns(t, a.refused);
      LeadsAppend(s, BringUpCmds(s, a), t, ReconcileCmds(s.base, UtunNow(s), PodsOnLo0(s), a.refused),
                  Configured(s, a));
    }
  }

  lemma {:induction false} RepointRuns(s: State, base: nat)
    requires Inv(s) && !s.meshUp && NodeBase(s.svc, base) && base != s.base
    ensures var dropped := set ip <- s.aliased | IsPod(s.base, ip);
            Runs(s, [Repoint(base), Untrack(dropped)], Do(Do(s, Repoint(base)), Untrack(dropped)))
  {
    var dropped := set ip <- s.aliased | IsPod(s.base, ip);
    LeadsTwo(s, Repoint(base), Untrack(dropped));
    AllowedKeepsSafe(s, Repoint(base));
    AllowedKeepsSafe(Do(s, Repoint(base)), Untrack(dropped));
  }

  lemma {:induction false} SetNodeRuns(s: State, base: nat, swept: set<nat>)
    requires Inv(s) && NodeBase(s.svc, base)
    ensures Runs(s, SetNodeCmds(s, base, swept), After(s, SetNodeCmds(s, base, swept)))
  {
    if s.meshUp {
      assert Leads(s, [], s);
    } else if base == s.base {
      LeadsOne(s, Repoint(base));
    } else {
      RepointRuns(s, base);
      var dropped := set ip <- s.aliased | IsPod(s.base, ip);
      var t := Do(Do(s, Repoint(base)), Untrack(dropped));
      var ips := Listed(s.base, s.blackholes * swept);
      ClearsRun(t, ips);
      LeadsAppend(s, [Repoint(base), Untrack(dropped)], t, Clears(ips), t.(blackholes := t.blackholes - Members(ips)));
    }
  }

  /** The state SetNodePodCIDR leaves. */
  function Repointed(s: State, base: nat, swept: set<nat>): State {
    if s.meshUp || base == s.base then s
    else s.(base := base, known := false, pods := {}, aliased := s.aliased - (set ip <- s.aliased | IsPod(s.base, ip)),
            blackholes := s.blackholes - (set ip <- s.blackholes | IsPod(s.base, ip) && ip in swept))
  }

  lemma {:induction false} SetNodeState(s: State, base: nat, swept: set<nat>)
    requires Inv(s) && NodeBase(s.svc, base)
    ensures After(s, SetNodeCmds(s, base, swept)) == Repointed(s, base, swept)
  {
    if !s.meshUp && base == s.base {
      LeadsOne(s, Repoint(base));
    } else if !s.meshUp {
      RepointRuns(s, base);
      var dropped := set ip <- s.aliased | IsPod(s.base, ip);
      var t := Do(Do(s, Repoint(base)), Untrack(dropped));
      var ips := Listed(s.base, s.blackholes * swept);
      ClearsRun(t, ips);
      LeadsAppend(s, [Repoint(base), Untrack(dropped)], t, Clears(ips), t.(blackholes := t.blackholes - Members(ips)));
      assert Members(ips) == set ip <- s.blackholes | IsPod(s.base, ip) && ip in swept;
    }
  }

  lemma {:induction false} RestartRuns(s: State, base: nat, swept: set<nat>)
    requires Inv(s) && NodeBase(s.svc, base)
    ensures var cs := Cmds(s, DaemonRestart(base, swept)); Runs(s, cs, After(s, cs))
  {
    var t := Do(s, Restart(base));
    LeadsOne(s, Restart(base));
    AllowedKeepsSafe(s, Restart(base));
    var ips := Listed(base, s.blackholes * swept);
    ClearsRun(t, ips);
    LeadsAppend(s, [Restart(base)], t, Clears(ips), t.(blackholes := t.blackholes - Members(ips)));
  }

  lemma {:induction false} OpRuns(s: State, op: Op)
    requires Inv(s) && Legal(s, op)
    ensures Runs(s, Cmds(s, op), After(s, Cmds(s, op)))
  {
    match op
    case EnsureAlias(ip, a) => EnsureRuns(s, ip, a);
    case RemoveAlias(ip, a) => RemoveRuns(s, ip, a);
    case ConfigureMesh(a) => ConfigureRuns(s, a);
    case RemoveMesh(down) =>
      if s.meshUp && down {
        LeadsOne(s, DeviceDown);
        AllowedKeepsSafe(s, DeviceDown);
      }
    case SetNodePodCIDR(base, swept) => SetNodeRuns(s, base, swept);
    case DaemonRestart(base, swept) => RestartRuns(s, base, swept);
  }

  // ---- runs ----

  function Next(s: State, op: Op): State { After(s, Cmds(s, op)) }

  predicate LegalRun(s: State, ops: seq<Op>)
    decreases |ops|
  {
    ops == [] || (Legal(s, ops[0]) && LegalRun(Next(s, ops[0]), ops[1..]))
  }

  function Run(s: State, ops: seq<Op>): State
    decreases |ops|
  {
    if ops == [] then s else Run(Next(s, ops[0]), ops[1..])
  }

  /** A fresh daemon over any kernel whose blackholes are pod addresses not on lo0. */
  predicate Fresh(s: State) {
    NodeBase(s.svc, s.base) && Disjoint(s) && PodLike(s) && s.aliased == map[] && !s.known && !s.meshUp && s.utun == {}
  }

  lemma {:induction false} RunKeeps(s: State, ops: seq<Op>)
    requires Inv(s) && LegalRun(s, ops)
    ensures Inv(Run(s, ops))
    decreases |ops|
  {
    if ops != [] {
      OpRuns(s, ops[0]);
      RunKeeps(Next(s, ops[0]), ops[1..]);
    }
  }

  /** Over every run with restarts and failing commands, after every single command of
      every operation: each pod address of the current /24 live on lo0 counts as
      allocated, each pod alias on the utun also has its lo0 alias, and no address is
      both aliased and blackholed. */
  lemma {:induction false} SafeAtEveryCommand(s: State, ops: seq<Op>, op: Op, k: nat)
    requires Fresh(s) && LegalRun(s, ops) && Legal(Run(s, ops), op) && k <= |Cmds(Run(s, ops), op)|
    ensures var t := After(Run(s, ops), Cmds(Run(s, ops), op)[..k]);
            && (forall ip <- t.lo0 :: IsPod(t.base, ip) ==> Allocates(t, ip))
            && (forall ip <- t.utun :: ip in t.lo0)
            && t.lo0 !! t.blackholes
  {
    RunKeeps(s, ops);
    OpRuns(Run(s, ops), op);
    SafeThroughout(Run(s, ops), Cmds(Run(s, ops), op), k);
  }

  /** Over every run: an error-free ConfigureMesh leaves the utun carrying exactly the pod
      addresses on lo0, and a read of lo0 makes the allocation exactly that set. */
  lemma {:induction false} ConfigureConverges(s: State, ops: seq<Op>, a: MeshAnswers)
    requires Fresh(s) && LegalRun(s, ops)
    ensures var t := Next(Run(s, ops), ConfigureMesh(a));
            && (ConfigureOk(Run(s, ops), a) ==> t.meshUp && t.utun == PodsOnLo0(t))
            && (a.readLo0 ==> forall ip :: IsPod(t.base, ip) ==> (Allocates(t, ip) <==> ip in t.lo0))
  {
    RunKeeps(s, ops);
    ConfigureRuns(Run(s, ops), a);
    ConfiguredMeans(Run(s, ops), a);
  }

  lemma {:induction false} ConfiguredMeans(s: State, a: MeshAnswers)
    requires Inv(s)
    ensures var t := Configured(s, a);
            && t.lo0 == s.lo0 && t.base == s.base
            && (ConfigureOk(s, a) ==> t.meshUp && t.utun == PodsOnLo0(t))
            && (a.readLo0 ==> forall ip :: IsPod(t.base, ip) ==> (Allocates(t, ip) <==> ip in t.lo0))
  {
    var t := Configured(s, a);
    assert PodsOnLo0(t) == PodsOnLo0(s);
    assert LivePods(s) <= PodsOnLo0(s);
  }

  // ---- the executor object ----

  lemma {:induction false} AfterOne(s: State, c: Cmd)
    ensures After(s, [c]) == Do(s, c)
  {
    assert [c][..0] == [];
  }

  lemma {:induction false} AfterTwo(s: State, c: Cmd, d: Cmd)
    ensures After(s, [c, d]) == Do(Do(s, c), d)
  {
    AfterOne(s, c);
    assert [c, d][..1] == [c];
  }

  lemma {:induction false} AfterAppend(s: State, a: seq<Cmd>, b: seq<Cmd>)
    ensures After(s, a + b) == After(After(s, a), b)
    decreases |b|
  {
    if b == [] {
      assert a + b == a;
    } else {
      assert (a + b)[..|a + b| - 1] == a + b[..|b| - 1];
      AfterAppend(s, a, b[..|b| - 1]);
    }
  }

  lemma {:induction false} AfterEnsure(s: State, ip: nat)
    ensures var t := Do(Do(s, Count(ip)), Clear(ip));
            var u := Do(Do(t, Alias(ip)), Track(ip, Live));
            && After(s, [Count(ip)]) == Do(s, Count(ip)) && After(s, [Count(ip), Clear(ip)]) == t
            && After(s, [Count(ip), Clear(ip), Alias(ip), Track(ip, Live)] + []) == u
            && After(s, [Count(ip), Clear(ip), Alias(ip), Track(ip, Live)] + [UtunAlias(ip)]) == Do(u, UtunAlias(ip))
  {
    AfterOne(s, Count(ip));
    AfterTwo(s, Count(ip), Clear(ip));
    var t := Do(Do(s, Count(ip)), Clear(ip));
    AfterTwo(t, Alias(ip), Track(ip, Live));
    AfterAppend(s, [Count(ip), Clear(ip)], [Alias(ip), Track(ip, Live)]);
    var four := [Count(ip), Clear(ip), Alias(ip), Track(ip, Live)];
    assert [Count(ip), Clear(ip)] + [Alias(ip), Track(ip, Live)] == four;
    assert four + [] == four;
    AfterAppend(s, four, [UtunAlias(ip)]);
    AfterOne(After(s, four), UtunAlias(ip));
  }

  /** `lo0`, `utun` and `blackholes` stand for the kernel. */
  class DarwinApplier {
    const svc: Service
    var base: nat
    var lo0: set<nat>
    var utun: set<nat>
    var blackholes: set<nat>
    var aliased: map<nat, AliasState>
    var known: bool
    var pods: set<nat>
    var meshUp: bool

    function Value(): State
      reads this
    {
      State(svc, base, lo0, utun, blackholes, aliased, known, pods, meshUp)
    }

    constructor (svc: Service, base: nat, lo0: set<nat>, blackholes: set<nat>)
      requires NodeBase(svc, base) && lo0 !! blackholes
      requires forall ip <- blackholes :: 2 <= ip % 256 <= 254 && !svc.Has(ip)
      ensures Fresh(Value()) && Inv(Value())
    {
      this.svc, this.base, this.lo0, this.blackholes := svc, base, lo0, blackholes;
      utun, aliased, known, pods, meshUp := {}, map[], false, {}, false;
    }

    method EnsureAlias(ip: nat, a: EnsureAnswers) returns (ok: bool)
      modifies this
      ensures Value() == Next(old(Value()), Op.EnsureAlias(ip, a)) && ok == EnsureOk(old(Value()), ip, a)
    {
      AfterEnsure(Value(), ip);
      AfterTwo(Value(), Alias(ip), Track(ip, Live));
      if IsPod(base, ip) {
        if known { pods := pods + {ip}; }
        if !a.cleared { return false; }
        blackholes := blackholes - {ip};
      }
      if !a.aliased { return false; }
      lo0 := lo0 + {ip};
      aliased := aliased[ip := Live];
      if !IsPod(base, ip) { return true; }
      if meshUp {
        if !a.utunAliased { return false; }
        utun := utun + {ip};
      }
      ok := true;
    }

    /** The two -alias commands; whether the lo0 one found its alias. */
    method TakeDown(ip: nat, a: RemoveAnswers) returns (removed: bool)
      modifies this`utun, this`lo0
      ensures Value() == After(old(Value()), UnaliasCmds(old(Value()), ip, a))
      ensures removed == (!IsPending(old(Value()), ip) && a.found)
    {
      ghost var s := Value();
      ghost var first := if IsPod(base, ip) && meshUp && a.utunFound then [UtunUnalias(ip)] else [];
      AfterOne(s, UtunUnalias(ip));
      if IsPod(base, ip) && meshUp && a.utunFound {
        utun := utun - {ip};
      }
      ghost var t := Value();
      AfterOne(t, Unalias(ip));
      removed := false;
      if ip in aliased && aliased[ip].Pending? {
      } else if a.found {
        lo0, removed := lo0 - {ip}, true;
      }
      AfterAppend(s, first, if !IsPending(s, ip) && a.found then [Unalias(ip)] else []);
    }

    /** What follows the -alias commands for a pod address that was aliased. */
    method Depart(ip: nat, gone: bool, installed: bool)
      modifies this`pods, this`blackholes, this`aliased
      ensures Value() == After(old(Value()), DepartCmds(ip, gone, installed))
    {
      AfterDepart(Value(), ip, gone, installed);
      if gone { pods := pods - {ip}; }
      if !installed {
        aliased := aliased[ip := Pending];
        return;
      }
      blackholes := blackholes + {ip};
      aliased := aliased - {ip};
    }

    method RemoveAlias(ip: nat, a: RemoveAnswers) returns (ok: bool)
      modifies this
      ensures Value() == Next(old(Value()), Op.RemoveAlias(ip, a)) && ok == RemoveOk(old(Value()), ip, a)
    {
      ghost var s := Value();
      var tracked := ip in aliased;
      var pending := tracked && aliased[ip].Pending?;
      var removed := TakeDown(ip, a);
      AfterAppend(s, UnaliasCmds(s, ip, a), BlackholeCmds(s, ip, a));
      AfterUnalias(s, ip, a);
      if !IsPod(base, ip) {
        AfterOne(Value(), Untrack({ip}));
        aliased := aliased - {ip};
        return true;
      }
      if !tracked && !removed {
        assert BlackholeCmds(s, ip, a) == [];
        return true;
      }
      Depart(ip, removed || pending, a.installed);
      ok := a.installed;
    }

    /** SetNodePodCIDR; `swept` are the old /24's blackholes the sweep manages to clear. */
    method SetNodePodCIDR(to: nat, swept: set<nat>) returns (ok: bool)
      requires Inv(Value()) && NodeBase(svc, to)
      modifies this
      ensures Value() == Next(old(Value()), Op.SetNodePodCIDR(to, swept)) && ok == !old(meshUp)
    {
      ghost var s := Value();
      SetNodeState(s, to, swept);
      if meshUp { return false; }
      var was := base;
      base := to;
      if was == to { return true; }
      known, pods := false, {};
      var left := aliased.Keys;
      while left != {}
        invariant left <= s.aliased.Keys && aliased == s.aliased - (set ip <- s.aliased | ip !in left && IsPod(was, ip))
        invariant Value() == s.(base := to, known := false, pods := {}, aliased := aliased)
        decreases left
      {
        var ip: nat :| ip in left;
        if IsPod(was, ip) { aliased := aliased - {ip}; }
        left := left - {ip};
      }
      SweepBlackholes(was, swept);
      ok := true;
    }

    /** sweepBlackholes: clears the listed blackholes it can. */
    method SweepBlackholes(of: nat, swept: set<nat>)
      modifies this`blackholes
      ensures blackholes == old(blackholes) - (set ip <- old(blackholes) | IsPod(of, ip) && ip in swept)
    {
      ghost var was := blackholes;
      var ips := Listed(of, blackholes);
      for i := 0 to |ips|
        invariant blackholes == was - (set ip <- ips[..i] | ip in swept)
      {
        assert ips[..i + 1] == ips[..i] + [ips[i]];
        if ips[i] in swept { blackholes := blackholes - {ips[i]}; }
      }
      assert ips[..|ips|] == ips;
    }

    method RemoveMesh(down: bool) returns (ok: bool)
      modifies this
      ensures Value() == Next(old(Value()), Op.RemoveMesh(down)) && ok == (old(meshUp) ==> down)
    {
      AfterOne(Value(), DeviceDown);
      if !meshUp { return true; }
      if !down { return false; }
      meshUp, utun := false, {};
      ok := true;
    }

    method SeedPods(read: bool)
      modifies this`known, this`pods
      ensures known == read && pods == if read then PodsOnLo0(Value()) + LivePods(Value()) else {}
    {
      if !read {
        known, pods := false, {};
        return;
      }
      var ips := PodsOnLo0(Value());
      var left := aliased.Keys;
      while left != {}
        invariant left <= aliased.Keys
        invariant ips == PodsOnLo0(Value()) + set ip <- LivePods(Value()) | ip !in left
        decreases left
      {
        var ip: nat :| ip in left;
        if aliased[ip].Live? && IsPod(base, ip) { ips := ips + {ip}; }
        left := left - {ip};
      }
      known, pods := true, ips;
    }

    /** The first pass of the reconcile: unaliases what no pod on lo0 wants. */
    method DropStale(want: set<nat>)
      requires forall ip <- utun :: IsPod(base, ip)
      modifies this`utun
      ensures utun == old(utun) * want
    {
      ghost var have := utun;
      var stale := Listed(base, utun);
      for i := 0 to |stale|
        invariant utun == have - (set ip <- stale[..i] | ip !in want)
      {
        assert stale[..i + 1] == stale[..i] + [stale[i]];
        if stale[i] !in want { utun := utun - {stale[i]}; }
      }
      assert stale[..|stale|] == stale;
    }

    /** The second pass: aliases what `have` lacked, going on past a refusal. */
    method AddMissing(want: set<nat>, have: set<nat>, refused: set<nat>) returns (ok: bool)
      requires forall ip <- want :: IsPod(base, ip)
      modifies this`utun
      ensures utun == old(utun) + (want - have - refused)
      ensures ok <==> (want - have) !! refused
    {
      ghost var was := utun;
      ok := true;
      var order := Listed(base, want);
      for i := 0 to |order|
        invariant utun == was + (set ip <- order[..i] | ip !in have && ip !in refused)
        invariant ok <==> forall ip <- order[..i] :: ip in have || ip !in refused
      {
        assert order[..i + 1] == order[..i] + [order[i]];
        if order[i] !in have {
          if order[i] in refused { ok := false; } else { utun := utun + {order[i]}; }
        }
      }
      assert order[..|order|] == order;
    }

    method ReconcileUtun(refused: set<nat>) returns (ok: bool)
      requires forall ip <- utun :: IsPod(base, ip)
      modifies this`utun
      ensures utun == Reconciled(old(utun), PodsOnLo0(Value()), refused)
      ensures ok <==> (PodsOnLo0(Value()) - old(utun)) !! refused
    {
      var want, have := PodsOnLo0(Value()), utun;
      DropStale(want);
      ok := AddMissing(want, have, refused);
    }

    method ConfigureMesh(a: MeshAnswers) returns (ok: bool)
      requires Inv(Value())
      modifies this
      ensures Value() == Configured(old(Value()), a) && ok == ConfigureOk(old(Value()), a)
    {
      ghost var s := Value();
      assert UtunNow(s) == utun;
      SeedPods(a.readLo0);
      BringUpRuns(s, a);
      if !meshUp {
        if !a.up { return false; }
        meshUp, utun := true, {};
      }
      ok := a.applied;
      if !a.readBoth { return false; }
      assert PodsOnLo0(Value()) == PodsOnLo0(s);
      var aliasesOk := ReconcileUtun(a.refused);
      ok := ok && aliasesOk;
    }
  }

  lemma {:induction false} AfterUnalias(s: State, ip: nat, a: RemoveAnswers)
    ensures After(s, UnaliasCmds(s, ip, a)).base == s.base && After(s, UnaliasCmds(s, ip, a)).aliased == s.aliased
  {
    var first := if IsPod(s.base, ip) && s.meshUp && a.utunFound then [UtunUnalias(ip)] else [];
    AfterOne(s, UtunUnalias(ip));
    AfterAppend(s, first, if !IsPending(s, ip) && a.found then [Unalias(ip)] else []);
    AfterOne(After(s, first), Unalias(ip));
  }

  lemma {:induction false} AfterDepart(t: State, ip: nat, gone: bool, installed: bool)
    ensures After(t, DepartCmds(ip, gone, installed)) ==
            t.(pods := if gone then t.pods - {ip} else t.pods,
               blackholes := if installed then t.blackholes + {ip} else t.blackholes,
               aliased := if installed then t.aliased - {ip} else t.aliased[ip := Pending])
  {
    AfterOne(t, Uncount(ip));
    var u := if gone then Do(t, Uncount(ip)) else t;
    AfterTwo(u, Install(ip), Untrack({ip}));
    AfterOne(u, Track(ip, Pending));
    AfterAppend(t, if gone then [Uncount(ip)] else [],
                if installed then [Install(ip), Untrack({ip})] else [Track(ip, Pending)]);
  }
}
