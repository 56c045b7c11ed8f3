/** The root daemon's node identity (pkg/netd/server.go:265-429, 656-703, 789-873, 985-1001)
    and its interconnect aliases (pkg/netd/interconnect.go:143-428), over runs of atomic
    requests with restarts, failing commands and failing file writes. */
module NetdIdentity {
  import opened Text
  import opened Inet

  const SLOTS := 8

  /** `derive` gives the interconnect address of a node index and slot. */
  datatype Config = Config(aggregate: Prefix, service: Option<Prefix>, configured: Prefix, maxIndex: nat,
                           derive: map<(nat, nat), nat>)

  predicate WellFormed(c: Config) {
    && c.aggregate.Ok() && c.configured.Ok() && (c.service.Some? ==> c.service.value.Ok())
    && (forall i: nat, k: nat :: i <= c.maxIndex && k < SLOTS ==> (i, k) in c.derive)
    && (forall a, b :: a in c.derive && b in c.derive && c.derive[a] == c.derive[b] ==> a == b)
  }

  /** The daemon's memory (`node` to `execUp`), its files, and the kernel's aliases. The
      executor keeps its own record of a mesh that came up. */
  datatype State = State(
    node: Prefix, confirmed: bool, aliases: set<IPv4>, owned: map<nat, nat>,
    meshRoutes: nat, meshUp: bool, execUp: bool,
    idFile: Option<Prefix>, ledger: Option<map<nat, nat>>,
    lo0: set<IPv4>, bridge: map<nat, int>)

  // ---- policy ----

  predicate WithinAggregate(c: Config, p: Prefix)
    requires c.aggregate.Ok()
  {
    p.Ok() && c.aggregate.Contains(p.addr) && p.bits >= c.aggregate.bits
  }

  predicate AliasAdmitted(c: Config, node: Prefix, ip: IPv4)
    requires WellFormed(c)
  {
    (node.Ok() && c.aggregate.Contains(ip) && node.Contains(ip)) || (c.service.Some? && c.service.value.Contains(ip))
  }

  /** interconnectIndex: the cluster index of a confirmed /24 identity within reach. */
  function Index(c: Config, node: Prefix, confirmed: bool): Option<nat>
    requires WellFormed(c)
  {
    if !confirmed || !node.Ok() || node.bits != 24 || c.aggregate.bits > 24 || !c.aggregate.Contains(node.addr)
    then None
    else
      var base := c.aggregate.Masked().addr;
      if node.addr < base then None
      else
        var i := (node.addr - base) / 256;
        if i > c.maxIndex then None else Some(i)
  }

  function Target(c: Config, s: State, slot: int): Option<nat>
    requires WellFormed(c)
  {
    var i := Index(c, s.node, s.confirmed);
    if slot < 0 || slot >= SLOTS || i.None? then None else Some(c.derive[(i.value, slot as nat)])
  }

  /** The eight derived addresses of the identity in force. */
  function Derived(c: Config, s: State): set<nat>
    requires WellFormed(c)
  {
    var i := Index(c, s.node, s.confirmed);
    if i.None? then {} else set k: nat | k < SLOTS :: c.derive[(i.value, k)]
  }

  function BitsOf(slot: int): int { if slot == 0 then 24 else 32 }

  // ---- requests ----

  /** The kernel's answers to an ensure: the blackhole clear, the lo0 alias, the utun alias. */
  datatype Plumbing = Plumbing(cleared: bool, aliased: bool, utunAliased: bool)

  /** A removal, or a failed one that left the alias on lo0 or not. */
  datatype Removal = Removed | Failed(onLo0: bool)

  /** ConfigureMesh past the adoption: rejected before the executor ran, failed in it
      with the device up or not, or applied with so many routes. */
  datatype MeshOutcome = Rejected | ExecFailed(up: bool) | Applied(routes: nat)

  /** A removal's effect and report: a success always removed. */
  datatype Answers = Answers(read: bool, gone: bool, removeErr: bool, reread: bool, addOk: bool, persisted: bool)

  predicate Honest(a: Answers) { !a.removeErr ==> a.gone }

  datatype Event =
    | EnsureAlias(ip: IPv4, plumbing: Plumbing)
    | RemoveAlias(ip: IPv4, removal: Removal)
    | ConfigureMesh(cidr: Option<Prefix>, execOk: bool, persisted: bool, rest: MeshOutcome)
    | RemoveMesh(ok: bool)
    | EnsureInterconnect(slot: int, a: Answers)
    | RemoveInterconnect(slot: int, a: Answers)
    | Restart(read: bool, removed: set<nat>, persisted: bool)

  /** IsPodAddress. */
  predicate IsPod(node: Prefix, ip: IPv4) { node.Ok() && node.bits == 24 && node.Contains(ip) && 2 <= ip % 256 <= 254 }

  /** The executor's ensure reaches lo0 unless the clear or the alias fails. */
  predicate ReachesLo0(s: State, ip: IPv4, a: Plumbing) { a.aliased && (IsPod(s.node, ip) ==> a.cleared) }

  /** It then fails only at the utun of a mesh that is up. */
  predicate Plumbs(s: State, ip: IPv4, a: Plumbing) {
    ReachesLo0(s, ip, a) && (IsPod(s.node, ip) && s.execUp ==> a.utunAliased)
  }

  function EnsuredAlias(c: Config, s: State, ip: IPv4, a: Plumbing): State
    requires WellFormed(c)
  {
    if !AliasAdmitted(c, s.node, ip) || !ReachesLo0(s, ip, a) then s
    else s.(lo0 := s.lo0 + {ip}, aliases := if Plumbs(s, ip, a) then s.aliases + {ip} else s.aliases)
  }

  function RemovedAlias(c: Config, s: State, ip: IPv4, r: Removal): State
    requires WellFormed(c)
  {
    if !AliasAdmitted(c, s.node, ip) || r == Failed(true) then s
    else s.(lo0 := s.lo0 - {ip}, aliases := if r.Removed? then s.aliases - {ip} else s.aliases)
  }

  predicate Live(c: Config, s: State) {
    (s.node.Ok() && exists ip <- s.aliases :: s.node.Contains(ip)) || s.meshRoutes > 0 || s.meshUp || s.owned != map[]
  }

  /** restoreIdentity: the recorded identity, if it is usable. */
  function Restored(c: Config, s: State): Option<Prefix>
    requires WellFormed(c)
  {
    if s.idFile.Some? && s.idFile.value.Ok() && WithinAggregate(c, s.idFile.value.Masked())
    then Some(s.idFile.value.Masked())
    else None
  }

  /** The identity file after a confirmation: written only when it does not read back. */
  function Recorded(c: Config, s: State, want: Prefix, persisted: bool): Option<Prefix>
    requires WellFormed(c)
  {
    if Restored(c, s) == Some(want) || !persisted then s.idFile else Some(want)
  }

  /** adoptNodePodCIDR; false is a refusal. The executor refuses a mesh that is up on its
      side and anything but a /24. */
  function Adopt(c: Config, s: State, cidr: Option<Prefix>, execOk: bool, persisted: bool): (State, bool)
    requires WellFormed(c)
  {
    if cidr.None? then (s, true)
    else if !cidr.value.Ok() then (s, false)
    else
      var want := cidr.value.Masked();
      if !WithinAggregate(c, want) then (s, false)
      else if s.node == want then (s.(confirmed := true, idFile := Recorded(c, s, want, persisted)), true)
      else if Live(c, s) || s.execUp || want.bits != 24 || !execOk then (s, false)
      else (s.(node := want, confirmed := true, idFile := if persisted then Some(want) else s.idFile), true)
  }

  function Configured(c: Config, s: State, cidr: Option<Prefix>, execOk: bool, persisted: bool,
                      rest: MeshOutcome): State
    requires WellFormed(c)
  {
    var (t, ok) := Adopt(c, s, cidr, execOk, persisted);
    if !ok then t
    else
      match rest
      case Rejected => t
      case ExecFailed(up) => t.(execUp := t.execUp || up)
      case Applied(n) => t.(execUp := true, meshUp := true, meshRoutes := n)
  }

  function WithOwned(s: State, owned: map<nat, nat>, persisted: bool): State {
    s.(owned := owned, ledger := if persisted then Some(owned) else s.ledger)
  }

  /** A slot-0 address with another netmask than the /24. */
  predicate NeedsRepair(s: State, slot: int, addr: nat) {
    slot == 0 && addr in s.bridge && s.bridge[addr] != BitsOf(slot)
  }

  function EnsuredInterconnect(c: Config, s: State, slot: int, a: Answers): State
    requires WellFormed(c)
  {
    var addr := Target(c, s, slot);
    if addr.None? || !a.read then s
    else
      var repair := NeedsRepair(s, slot, addr.value);
      var t := if repair && a.gone then s.(bridge := s.bridge - {addr.value}) else s;
      if repair && a.removeErr then t
      else if addr.value in s.bridge && !repair then WithOwned(s, s.owned[slot as nat := addr.value], a.persisted)
      else if !a.addOk then t
      else WithOwned(t.(bridge := t.bridge[addr.value := BitsOf(slot)]), s.owned[slot as nat := addr.value],
                     a.persisted)
  }

  predicate HasRiders(s: State) { exists k <- s.owned :: k != 0 }

  function RemovedInterconnect(c: Config, s: State, slot: int, a: Answers): State
    requires WellFormed(c)
  {
    var addr := Target(c, s, slot);
    if addr.None? || slot as nat !in s.owned || s.owned[slot as nat] != addr.value then s
    else if slot == 0 && HasRiders(s) then s
    else if !a.read then s
    else
      var t := if addr.value in s.bridge && a.gone then s.(bridge := s.bridge - {addr.value}) else s;
      if addr.value in s.bridge && a.removeErr && (!a.reread || addr.value in t.bridge) then t
      else WithOwned(t, s.owned - {slot as nat}, a.persisted)
  }

  // ---- restart ----

  /** restoreInterconnect: the ledger entries that are exactly this node's. */
  function Kept(c: Config, i: nat, ledger: Option<map<nat, nat>>): map<nat, nat>
    requires WellFormed(c) && i <= c.maxIndex
  {
    if ledger.None? then map[]
    else map k | k in ledger.value && k < SLOTS && ledger.value[k] == c.derive[(i, k)] :: ledger.value[k]
  }

  predicate OwnsRider(owned: map<nat, nat>, bridge: map<nat, int>) {
    exists k <- owned :: k != 0 && owned[k] in bridge
  }

  /** The slots the start-up reconcile asks to remove. */
  predicate Stale(c: Config, i: nat, owned: map<nat, nat>, bridge: map<nat, int>, k: nat)
    requires WellFormed(c) && i <= c.maxIndex
  {
    k < SLOTS && c.derive[(i, k)] in bridge && k !in owned && !(k == 0 && OwnsRider(owned, bridge))
  }

  function Swept(c: Config, i: nat, owned: map<nat, nat>, bridge: map<nat, int>, removed: set<nat>): map<nat, int>
    requires WellFormed(c) && i <= c.maxIndex
  {
    bridge - set k | k in removed && Stale(c, i, owned, bridge, k) :: c.derive[(i, k)]
  }

  function Restarted(c: Config, s: State, read: bool, removed: set<nat>, persisted: bool): State
    requires WellFormed(c)
  {
    var restored := Restored(c, s);
    var t := s.(node := if restored.Some? then restored.value else c.configured.Masked(), confirmed := restored.Some?,
                aliases := {}, owned := map[], meshRoutes := 0, meshUp := false, execUp := false);
    var i := Index(c, t.node, t.confirmed);
    if i.None? then WithOwned(t, map[], persisted)
    else
      var owned := Kept(c, i.value, s.ledger);
      var u := WithOwned(t, owned, persisted);
      if read then u.(bridge := Swept(c, i.value, owned, s.bridge, removed)) else u
  }

  function Next(c: Config, s: State, e: Event): State
    requires WellFormed(c)
  {
    match e
    case EnsureAlias(ip, a) => EnsuredAlias(c, s, ip, a)
    case RemoveAlias(ip, r) => RemovedAlias(c, s, ip, r)
    case ConfigureMesh(cidr, execOk, persisted, rest) => Configured(c, s, cidr, execOk, persisted, rest)
    case RemoveMesh(ok) => if ok then s.(meshUp := false, meshRoutes := 0, execUp := false) else s
    case EnsureInterconnect(slot, a) => EnsuredInterconnect(c, s, slot, a)
    case RemoveInterconnect(slot, a) => RemovedInterconnect(c, s, slot, a)
    case Restart(read, removed, persisted) => Restarted(c, s, read, removed, persisted)
  }

  predicate LegalEvent(e: Event) {
    match e
    case EnsureInterconnect(_, a) => Honest(a)
    case RemoveInterconnect(_, a) => Honest(a)
    case _ => true
  }

  // ---- what every run keeps ----

  predicate AliasesInPolicy(c: Config, s: State)
    requires WellFormed(c)
  {
    forall ip <- s.aliases :: AliasAdmitted(c, s.node, ip)
  }

  /** Every owned alias is the confirmed identity's address of its slot. */
  predicate OwnedIsDerived(c: Config, s: State)
    requires WellFormed(c)
  {
    s.owned != map[] ==>
      var i := Index(c, s.node, s.confirmed);
      i.Some? && forall k <- s.owned :: k < SLOTS && s.owned[k] == c.derive[(i.value, k)]
  }

  predicate Inv(c: Config, s: State)
    requires WellFormed(c)
  {
    s.node.Ok() && AliasesInPolicy(c, s) && OwnedIsDerived(c, s)
  }

  lemma {:induction false} AliasKeeps(c: Config, s: State, ip: IPv4, a: Plumbing, r: Removal)
    requires WellFormed(c) && Inv(c, s)
    ensures Inv(c, EnsuredAlias(c, s, ip, a)) && Inv(c, RemovedAlias(c, s, ip, r))
  {
  }

  lemma {:induction false} AdoptKeeps(c: Config, s: State, cidr: Option<Prefix>, execOk: bool, persisted: bool)
    requires WellFormed(c) && Inv(c, s)
    ensures Inv(c, Adopt(c, s, cidr, execOk, persisted).0)
  {
  }

  lemma {:induction false} EnsureInterconnectKeeps(c: Config, s: State, slot: int, a: Answers)
    requires WellFormed(c) && Inv(c, s)
    ensures Inv(c, EnsuredInterconnect(c, s, slot, a))
  {
  }

  lemma {:induction false} RemoveInterconnectKeeps(c: Config, s: State, slot: int, a: Answers)
    requires WellFormed(c) && Inv(c, s)
    ensures Inv(c, RemovedInterconnect(c, s, slot, a))
  {
  }

  lemma {:induction false} RestartKeeps(c: Config, s: State, read: bool, removed: set<nat>, persisted: bool)
    requires WellFormed(c)
    ensures Inv(c, Restarted(c, s, read, removed, persisted))
  {
  }

  lemma {:induction false} MeshFieldsKeep(c: Config, t: State, up: bool, exec: bool, n: nat)
    requires WellFormed(c) && Inv(c, t)
    ensures Inv(c, t.(meshUp := up, execUp := exec, meshRoutes := n))
  {
  }

  lemma {:induction false} ConfigureKeeps(c: Config, s: State, cidr: Option<Prefix>, execOk: bool, persisted: bool,
                                          rest: MeshOutcome)
    requires WellFormed(c) && Inv(c, s)
    ensures Inv(c, Configured(c, s, cidr, execOk, persisted, rest))
  {
    AdoptKeeps(c, s, cidr, execOk, persisted);
    var t := Adopt(c, s, cidr, execOk, persisted).0;
    match rest
    case Rejected =>
    case ExecFailed(up) => MeshFieldsKeep(c, t, t.meshUp, t.execUp || up, t.meshRoutes);
    case Applied(n) => MeshFieldsKeep(c, t, true, true, n);
  }

  lemma {:induction false} StepKeeps(c: Config, s: State, e: Event)
    requires WellFormed(c) && Inv(c, s)
    ensures Inv(c, Next(c, s, e))
  {
    match e
    case EnsureAlias(ip, a) => AliasKeeps(c, s, ip, a, Removed);
    case RemoveAlias(ip, r) => AliasKeeps(c, s, ip, Plumbing(true, true, true), r);
    case ConfigureMesh(cidr, execOk, persisted, rest) => ConfigureKeeps(c, s, cidr, execOk, persisted, rest);
    case RemoveMesh(_) => MeshFieldsKeep(c, s, false, false, 0);
    case EnsureInterconnect(slot, a) => EnsureInterconnectKeeps(c, s, slot, a);
    case RemoveInterconnect(slot, a) => RemoveInterconnectKeeps(c, s, slot, a);
    case Restart(read, removed, persisted) => RestartKeeps(c, s, read, removed, persisted);
  }
}
