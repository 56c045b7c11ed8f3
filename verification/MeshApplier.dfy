/** The wireguard applier over whole runs (pkg/mesh/device_wireguard.go:243-302, 373-407,
    533-568): Up, Apply and Down on the peer table, the endpoint memory and the text last
    written, with wireguard roaming endpoints in between. Whenever Apply skips a write
    because the text is byte-identical to the last one, interpreting that text would have
    left the device as it is, exactly when the plans are settled. */
module MeshApplier {
  import opened Text
  import opened Inet
  import opened MeshUapi
  import opened MeshUapiEffect
  import opened MeshDevice

  /** `dev` is the peer table while the device is up. */
  datatype State = State(up: bool, dev: Device, applied: Memory, last: string)

  /** How IpcSet answers: it interprets the text, or fails leaving any table behind. */
  datatype IpcSet = Accepts | Fails(wreck: Device)

  datatype Event =
    | Up(works: bool)
    | Down
    | Apply(plan: seq<PeerConfig>, ipc: IpcSet)
    | Roam(key: string, endpoint: string)

  const START := State(false, map[], map[], "")

  function Applied(s: State, plan: seq<PeerConfig>, ipc: IpcSet): State {
    var text := UpdateText(plan, s.applied);
    if !s.up then s
    else if text == s.last then s.(applied := MemoryOf(plan))
    else if ipc.Fails? then State(true, ipc.wreck, map[], "")
    else
      var dev := Interpret(text, s.dev);
      if dev.None? then State(true, s.dev, map[], "") else State(true, dev.value, MemoryOf(plan), text)
  }

  function Roamed(s: State, k: string, ep: string): State {
    if s.up && k in s.dev then s.(dev := s.dev[k := s.dev[k].(endpoint := Some(ep))]) else s
  }

  function Next(s: State, e: Event): State {
    match e
    case Up(works) => if s.up || !works then s else State(true, map[], map[], "")
    case Down => State(false, map[], map[], "")
    case Apply(plan, ipc) => Applied(s, plan, ipc)
    case Roam(k, ep) => Roamed(s, k, ep)
  }

  function Run(events: seq<Event>): State {
    if events == [] then START else Next(Run(events[..|events| - 1]), events[|events| - 1])
  }

  /** The plans a run applies. */
  function PlansOf(events: seq<Event>): set<seq<PeerConfig>> {
    set e <- events | e.Apply? :: e.plan
  }

  predicate CleanRun(events: seq<Event>) {
    forall p <- PlansOf(events) :: CleanPeers(p)
  }

  /** The last text is the update that programmed `p`, one of `plans`, over the memory `m`. */
  predicate Wrote(s: State, plans: set<seq<PeerConfig>>, p: seq<PeerConfig>, m: Memory) {
    && p in plans && CleanPeers(p) && CleanMemory(m)
    && s.last == UpdateText(p, m) && s.applied == MemoryOf(p) && Erase(s.dev) == Image(p)
  }

  ghost predicate Inv(s: State, plans: set<seq<PeerConfig>>) {
    if s.last == "" then s.applied == map[] else s.up && exists p, m :: Wrote(s, plans, p, m)
  }

  lemma {:induction false} UpdateTextNotEmpty(peers: seq<PeerConfig>, prev: Memory)
    ensures UpdateText(peers, prev) != ""
  {
    if prev != map[] && peers == [] {
      var k :| k in prev;
      assert k in Sorted(prev.Keys - Keys(peers));
    }
    SectionsStartPlain(Update(peers, prev));
  }

  lemma {:induction false} WroteKeys(s: State, plans: set<seq<PeerConfig>>, p: seq<PeerConfig>, m: Memory)
    requires Wrote(s, plans, p, m)
    ensures CleanMemory(s.applied) && s.dev.Keys == s.applied.Keys
  {
    MemoryKeys(p);
    ImageKeys(p);
    assert s.dev.Keys == Erase(s.dev).Keys;
  }

  lemma {:induction false} InvKeys(s: State, plans: set<seq<PeerConfig>>)
    requires Inv(s, plans)
    ensures CleanMemory(s.applied) && (s.applied == map[] || s.dev.Keys == s.applied.Keys)
  {
    if s.last != "" {
      var p: seq<PeerConfig>, m: Memory :| Wrote(s, plans, p, m);
      WroteKeys(s, plans, p, m);
    }
  }

  // ---- a skipped write ----

  /** Apply finds the text byte-identical to the one it last wrote. */
  predicate Skips(s: State, plan: seq<PeerConfig>) { s.up && UpdateText(plan, s.applied) == s.last }

  /** The text Apply renders would leave the device as it is. */
  predicate NoOp(s: State, plan: seq<PeerConfig>) {
    Interpret(UpdateText(plan, s.applied), s.dev) == Some(s.dev)
  }

  /** Every key the text stamps already stands at its stamp. */
  predicate AtItsStamps(s: State, plan: seq<PeerConfig>) {
    forall k <- s.dev :: EndpointStamped(s.dev, plan, s.applied, k) == s.dev[k].endpoint
  }

  /** One skipped write, in any state the invariant allows. */
  lemma {:induction false} SkipExactly(s: State, plans: set<seq<PeerConfig>>, plan: seq<PeerConfig>)
    requires Inv(s, plans) && CleanPeers(plan) && Skips(s, plan)
    ensures NoOp(s, plan) <==> AtItsStamps(s, plan)
    ensures (forall p <- plans :: Settled(p)) ==> NoOp(s, plan)
    ensures Erase(s.dev) == Image(plan)
  {
    UpdateTextNotEmpty(plan, s.applied);
    var p: seq<PeerConfig>, m: Memory :| Wrote(s, plans, p, m);
    RepeatedTextEffect(p, m, plan, s.dev);
    MemoryKeys(p);
    SameTextSameUpdate(p, m, plan, MemoryOf(p));
    RepeatKeepsImage(p, m, plan);
    if Settled(p) {
      RepeatedTextIsNoOp(p, m, plan, s.dev);
    }
  }

  /** An accepted write in any state the invariant allows. */
  lemma {:induction false} WriteKeeps(s: State, plans: set<seq<PeerConfig>>, plan: seq<PeerConfig>)
    requires Inv(s, plans) && plan in plans && CleanPeers(plan) && s.up && !Skips(s, plan)
    ensures var t := Applied(s, plan, Accepts); Inv(t, plans) && Erase(t.dev) == Image(plan)
  {
    InvKeys(s, plans);
    AnyUpdateEffect(plan, s.applied, s.dev);
    UpdateTextNotEmpty(plan, s.applied);
    assert Wrote(Applied(s, plan, Accepts), plans, plan, s.applied);
  }

  lemma {:induction false} SkippedKeeps(s: State, plans: set<seq<PeerConfig>>, plan: seq<PeerConfig>, ipc: IpcSet)
    requires Inv(s, plans) && plan in plans && CleanPeers(plan) && Skips(s, plan)
    ensures var t := Applied(s, plan, ipc); Inv(t, plans) && Erase(t.dev) == Image(plan)
  {
    SkipExactly(s, plans, plan);
    InvKeys(s, plans);
    assert Wrote(Applied(s, plan, ipc), plans, plan, s.applied);
  }

  lemma {:induction false} ApplyKeeps(s: State, plans: set<seq<PeerConfig>>, plan: seq<PeerConfig>, ipc: IpcSet)
    requires Inv(s, plans) && plan in plans && CleanPeers(plan)
    ensures Inv(Applied(s, plan, ipc), plans)
    ensures s.up && ipc.Accepts? ==> Erase(Applied(s, plan, ipc).dev) == Image(plan)
  {
    if s.up {
      if Skips(s, plan) {
        SkippedKeeps(s, plans, plan, ipc);
      } else if ipc.Accepts? {
        WriteKeeps(s, plans, plan);
      }
    }
  }

  lemma {:induction false} RoamKeeps(s: State, plans: set<seq<PeerConfig>>, k: string, ep: string)
    requires Inv(s, plans)
    ensures Inv(Roamed(s, k, ep), plans)
  {
    if s.last != "" && k in s.dev {
      var p: seq<PeerConfig>, m: Memory :| Wrote(s, plans, p, m);
      RoamedErases(s, k, ep);
      assert Wrote(Roamed(s, k, ep), plans, p, m);
    }
  }

  lemma RoamedErases(s: State, k: string, ep: string)
    ensures Erase(Roamed(s, k, ep).dev) == Erase(s.dev)
  {
    assert Erase(Roamed(s, k, ep).dev).Keys == Erase(s.dev).Keys;
  }

  lemma {:induction false} RunKeeps(events: seq<Event>, plans: set<seq<PeerConfig>>)
    requires PlansOf(events) <= plans && forall p <- plans :: CleanPeers(p)
    ensures Inv(Run(events), plans)
    decreases |events|
  {
    if events != [] {
      var n := |events| - 1;
      var s, e := Run(events[..n]), events[n];
      assert events == events[..n] + [e] && e in events;
      RunKeeps(events[..n], plans);
      match e
      case Apply(plan, ipc) => ApplyKeeps(s, plans, plan, ipc);
      case Roam(k, ep) => RoamKeeps(s, plans, k, ep);
      case Up(_) =>
      case Down =>
    }
  }

  /** Over every run, whatever its plans, a write Apply skips would have been a no-op
      exactly when no key it stamps has roamed; it always is one when the run's plans are
      settled. */
  lemma {:induction false} SkippedWriteIsNoOp(events: seq<Event>, plan: seq<PeerConfig>)
    requires CleanRun(events) && CleanPeers(plan) && Skips(Run(events), plan)
    ensures NoOp(Run(events), plan) <==> AtItsStamps(Run(events), plan)
    ensures (forall p <- PlansOf(events) :: Settled(p)) ==> NoOp(Run(events), plan)
  {
    RunKeeps(events, PlansOf(events));
    SkipExactly(Run(events), PlansOf(events), plan);
  }

  /** Over every run, an Apply whose IpcSet does not fail leaves the device holding
      the plan, written or skipped, whatever failed before it: its image, which for
      distinct keys and ranges is exactly its peers. */
  lemma {:induction false} AppliedPlanIsProgrammed(events: seq<Event>, plan: seq<PeerConfig>)
    requires CleanRun(events) && CleanPeers(plan) && Run(events).up
    ensures var t := Next(Run(events), Apply(plan, Accepts));
            Erase(t.dev) == Image(plan) && (Good(plan) ==> Programmed(t.dev, plan))
  {
    var plans := PlansOf(events) + {plan};
    RunKeeps(events, plans);
    ApplyKeeps(Run(events), plans, plan, Accepts);
    if Good(plan) {
      ImageOfGood(Next(Run(events), Apply(plan, Accepts)).dev, plan);
    }
  }

  // ---- exactly when skipping is safe ----

  lemma {:induction false} RepeatDiffersFromFirst(p: seq<PeerConfig>)
    requires CleanPeers(p) && p != []
    ensures UpdateText(p, MemoryOf(p)) != UpdateText(p, map[])
  {
    MemoryKeys(p);
    assert p[0].key in MemoryOf(p);
    assert Update(p, map[])[0] == Wipe;
    HeaderRemovesStrangers(p, MemoryOf(p));
    assert Wipe !in Update(p, MemoryOf(p));
    if UpdateText(p, MemoryOf(p)) == UpdateText(p, map[]) {
      SameTextSameUpdate(p, MemoryOf(p), p, map[]);
      assert false;
    }
  }

  /** The plan applied twice to a new device. */
  function Twice(p: seq<PeerConfig>): seq<Event> { [Up(true), Apply(p, Accepts), Apply(p, Accepts)] }

  lemma {:induction false} RunSnoc(events: seq<Event>, e: Event)
    ensures Run(events + [e]) == Next(Run(events), e)
  {
    assert (events + [e])[..|events|] == events;
  }

  lemma {:induction false} TwiceApplied(p: seq<PeerConfig>)
    requires CleanPeers(p) && p != []
    ensures Repeating(Run(Twice(p)), p)
  {
    var up := [Up(true)];
    RunSnoc([], Up(true));
    assert [] + up == up && Twice(p) == up + [Apply(p, Accepts)] + [Apply(p, Accepts)];
    RunSnoc(up, Apply(p, Accepts));
    RunSnoc(up + [Apply(p, Accepts)], Apply(p, Accepts));
    UpdateTextNotEmpty(p, map[]);
    AnyUpdateEffect(p, map[], map[]);
    RepeatDiffersFromFirst(p);
    MemoryKeys(p);
    ImageKeys(p);
    var d := Run(up + [Apply(p, Accepts)]).dev;
    assert d.Keys == Erase(d).Keys;
    AnyUpdateEffect(p, MemoryOf(p), d);
  }

  lemma {:induction false} RepeatMoves(s: State, p: seq<PeerConfig>, k: string)
    requires CleanPeers(p) && Repeating(s, p) && k in s.dev
    requires LastStamp(p, MemoryOf(p), k).Some? && LastStamp(p, MemoryOf(p), k) != s.dev[k].endpoint
    ensures var r := Interpret(UpdateText(p, s.applied), s.dev);
            Skips(s, p) && !NoOp(s, p) && r.Some? && EndpointBefore(r.value, k) == LastStamp(p, MemoryOf(p), k)
  {
    MemoryKeys(p);
    RepeatedTextEffect(p, MemoryOf(p), p, s.dev);
    assert EndpointStamped(s.dev, p, MemoryOf(p), k) != s.dev[k].endpoint;
  }

  /** The plan applied twice to a new device, then `k` roaming. */
  function TwiceThenRoam(p: seq<PeerConfig>, k: string, roamed: string): seq<Event> { Twice(p) + [Roam(k, roamed)] }

  /** The last two writes were the same plan, and the text of the second stands. */
  predicate Repeating(s: State, p: seq<PeerConfig>) {
    && s.up && s.last == UpdateText(p, MemoryOf(p)) && s.applied == MemoryOf(p)
    && Erase(s.dev) == Image(p)
  }

  lemma {:induction false} RoamedRepeats(s: State, p: seq<PeerConfig>, k: string, roamed: string)
    requires Repeating(s, p) && k in Keys(p)
    ensures var t := Roamed(s, k, roamed); Repeating(t, p) && k in t.dev && t.dev[k].endpoint == Some(roamed)
  {
    ImageKeys(p);
    assert s.dev.Keys == Erase(s.dev).Keys;
    RoamedErases(s, k, roamed);
  }

  lemma {:induction false} TwiceRoamed(p: seq<PeerConfig>, k: string, roamed: string)
    requires CleanPeers(p) && k in Keys(p)
    ensures var s := Run(TwiceThenRoam(p, k, roamed));
            Repeating(s, p) && k in s.dev && s.dev[k].endpoint == Some(roamed)
    ensures PlansOf(TwiceThenRoam(p, k, roamed)) == {p}
  {
    TwiceApplied(p);
    RunSnoc(Twice(p), Roam(k, roamed));
    RoamedRepeats(Run(Twice(p)), p, k, roamed);
    TwicePlans(p, k, roamed);
  }

  lemma {:induction false} TwicePlans(p: seq<PeerConfig>, k: string, roamed: string)
    ensures PlansOf(TwiceThenRoam(p, k, roamed)) == {p}
  {
    assert Twice(p)[1] == Apply(p, Accepts) && Twice(p)[1] in TwiceThenRoam(p, k, roamed);
  }

  /** A plan that is not settled has a run whose skipped write would have moved a roamed
      endpoint: the plan applied twice, its stamped key roaming, the plan again. */
  lemma {:induction false} UnsettledSkipMoves(p: seq<PeerConfig>, k: string, roamed: string)
    requires CleanPeers(p) && k in Keys(p)
    requires LastStamp(p, MemoryOf(p), k).Some? && LastStamp(p, MemoryOf(p), k) != Some(roamed)
    ensures var s := Run(TwiceThenRoam(p, k, roamed));
            var r := Interpret(UpdateText(p, s.applied), s.dev);
            && Skips(s, p) && !NoOp(s, p) && EndpointBefore(s.dev, k) == Some(roamed)
            && r.Some? && EndpointBefore(r.value, k) == LastStamp(p, MemoryOf(p), k)
  {
    TwiceRoamed(p, k, roamed);
    RepeatMoves(Run(TwiceThenRoam(p, k, roamed)), p, k);
  }

  ghost predicate NeverHarms(events: seq<Event>, plan: seq<PeerConfig>) {
    Skips(Run(events), plan) ==> NoOp(Run(events), plan)
  }

  lemma {:induction false} SettledNeverHarm(plans: set<seq<PeerConfig>>, events: seq<Event>, plan: seq<PeerConfig>)
    requires (forall p <- plans :: CleanPeers(p) && Settled(p)) && PlansOf(events) <= plans && plan in plans
    ensures NeverHarms(events, plan)
  {
    if Skips(Run(events), plan) { SkippedWriteIsNoOp(events, plan); }
  }

  lemma {:induction false} UnsettledHarms(p: seq<PeerConfig>)
    requires CleanPeers(p) && !Settled(p)
    ensures exists events :: PlansOf(events) <= {p} && !NeverHarms(events, p)
  {
    var k := UnsettledStamps(p);
    var roamed := LastStamp(p, MemoryOf(p), k).value + "!";
    assert |roamed| != |LastStamp(p, MemoryOf(p), k).value|;
    UnsettledSkipMoves(p, k, roamed);
    TwiceRoamed(p, k, roamed);
    assert PlansOf(TwiceThenRoam(p, k, roamed)) <= {p} && !NeverHarms(TwiceThenRoam(p, k, roamed), p);
  }

  /** Skipping is safe over every run of a set of plans exactly when each is settled. */
  lemma {:induction false} SkipsAreNoOpsExactly(plans: set<seq<PeerConfig>>)
    requires forall p <- plans :: CleanPeers(p)
    ensures (forall events, plan :: PlansOf(events) <= plans && plan in plans ==> NeverHarms(events, plan))
            <==> forall p <- plans :: Settled(p)
  {
    if forall p <- plans :: Settled(p) {
      forall events, plan | PlansOf(events) <= plans && plan in plans ensures NeverHarms(events, plan) {
        SettledNeverHarm(plans, events, plan);
      }
    } else {
      var p :| p in plans && !Settled(p);
      UnsettledHarms(p);
    }
  }

  // ---- UAPIUpdate, statement by statement: the builder holds the lines written ----

  lemma {:induction false} CmdsLast(ss: seq<Section>, front: seq<Section>, last: Section)
    requires ss == front + [last]
    ensures Cmds(ss) == Cmds(front) + SectionCmds(last)
  {
    assert ss[..|ss| - 1] == front;
  }

  lemma {:induction false} MemoryStep(peers: seq<PeerConfig>, i: nat)
    requires i < |peers|
    ensures MemoryOf(peers[..i + 1]) == MemoryOf(peers[..i])[peers[i].key := peers[i].endpoint]
  {
    assert peers[..i + 1][..i] == peers[..i];
  }

  method WriteAllowed(b: seq<Cmd>, ps: seq<Prefix>) returns (r: seq<Cmd>)
    ensures r == b + AllowedCmds(ps)
  {
    r := b;
    for i := 0 to |ps|
      invariant |r| == |b| + i && r[..|b|] == b
      invariant forall j :: 0 <= j < i ==> r[|b| + j] == AllowedIP(ps[j])
    {
      r := r + [AllowedIP(ps[i])];
    }
  }

  /** One peer's lines. */
  method WritePeer(b: seq<Cmd>, pc: PeerConfig, prev: Memory) returns (r: seq<Cmd>)
    ensures r == b + SectionCmds(Program(pc.key, Stamp(pc, prev), pc.keepalive, pc.allowed))
  {
    r := [PublicKey(pc.key)];
    if pc.endpoint != "" && (pc.key !in prev || prev[pc.key] != pc.endpoint) {
      r := r + [Endpoint(pc.endpoint)];
    }
    r := r + [Keepalive(pc.keepalive), ReplaceAllowed];
    assert r == [PublicKey(pc.key)] + StampCmds(Stamp(pc, prev)) + [Keepalive(pc.keepalive), ReplaceAllowed];
    Associative(b, r, AllowedCmds(pc.allowed));
    r := WriteAllowed(b + r, pc.allowed);
  }

  /** The keys the applier remembers and the plan no longer carries. */
  method DepartedKeys(peers: seq<PeerConfig>, prev: Memory) returns (gone: set<string>)
    ensures gone == prev.Keys - Keys(peers)
  {
    var keep := {};
    for i := 0 to |peers|
      invariant keep == Keys(peers[..i])
    {
      keep := keep + {peers[i].key};
      assert peers[..i + 1] == peers[..i] + [peers[i]];
    }
    assert peers[..|peers|] == peers;
    gone := {};
    var left := prev.Keys;
    while left != {}
      invariant left <= prev.Keys && gone == prev.Keys - left - keep
      decreases left
    {
      var k :| k in left;
      if k !in keep { gone := gone + {k}; }
      left := left - {k};
    }
  }

  method WriteRemovals(order: seq<string>) returns (b: seq<Cmd>)
    ensures b == Cmds(Removals(order))
  {
    ghost var ss := Removals(order);
    b := [];
    for i := 0 to |order|
      invariant b == Cmds(ss[..i])
    {
      CmdsLast(ss[..i + 1], ss[..i], ss[i]);
      b := b + [PublicKey(order[i]), Remove];
    }
    assert ss[..|order|] == ss;
  }

  method WriteHeader(peers: seq<PeerConfig>, prev: Memory) returns (b: seq<Cmd>)
    ensures b == Cmds(Header(peers, prev))
  {
    if prev == map[] {
      b := [ReplacePeers];
      CmdsLast([Wipe], [], Wipe);
    } else {
      var gone := DepartedKeys(peers, prev);
      b := WriteRemovals(Sorted(gone));
    }
  }

  function WrittenUpTo(ss: seq<Section>, peers: seq<PeerConfig>, prev: Memory, i: nat): seq<Cmd>
    requires i <= |peers|
  {
    Cmds(ss + Programs(peers, prev)[..i])
  }

  lemma {:induction false} WrittenStep(ss: seq<Section>, peers: seq<PeerConfig>, prev: Memory, i: nat)
    requires i < |peers|
    ensures WrittenUpTo(ss, peers, prev, i + 1) == WrittenUpTo(ss, peers, prev, i)
              + SectionCmds(Program(peers[i].key, Stamp(peers[i], prev), peers[i].keepalive, peers[i].allowed))
  {
    var all := Programs(peers, prev);
    CmdsLast(ss + all[..i + 1], ss + all[..i], all[i]);
  }

  lemma {:induction false} WrittenEnds(ss: seq<Section>, peers: seq<PeerConfig>, prev: Memory)
    ensures WrittenUpTo(ss, peers, prev, 0) == Cmds(ss)
    ensures WrittenUpTo(ss, peers, prev, |peers|) == Cmds(ss + Programs(peers, prev))
    ensures MemoryOf(peers[..0]) == map[] && MemoryOf(peers[..|peers|]) == MemoryOf(peers)
  {
    assert ss + Programs(peers, prev)[..0] == ss && peers[..|peers|] == peers;
    assert Programs(peers, prev)[..|peers|] == Programs(peers, prev);
  }

  method WritePeers(b: seq<Cmd>, ghost ss: seq<Section>, peers: seq<PeerConfig>, prev: Memory)
    returns (r: seq<Cmd>, next: Memory)
    requires b == Cmds(ss)
    ensures r == Cmds(ss + Programs(peers, prev)) && next == MemoryOf(peers)
  {
    r, next := b, map[];
    WrittenEnds(ss, peers, prev);
    for i := 0 to |peers|
      invariant r == WrittenUpTo(ss, peers, prev, i) && next == MemoryOf(peers[..i])
    {
      WrittenStep(ss, peers, prev, i);
      MemoryStep(peers, i);
      r := WritePeer(r, peers[i], prev);
      next := next[peers[i].key := peers[i].endpoint];
    }
  }

  /** Plan.UAPIUpdate. */
  method UAPIUpdate(peers: seq<PeerConfig>, prev: Memory) returns (uapi: string, next: Memory)
    ensures uapi == UpdateText(peers, prev) && next == MemoryOf(peers)
  {
    var b := WriteHeader(peers, prev);
    b, next := WritePeers(b, Header(peers, prev), peers, prev);
    uapi := Render(b);
  }

  // ---- the device object ----

  class WGDevice {
    var dev: Option<Device>
    var applied: Memory
    var lastUAPI: string

    ghost function Value(): State
      reads this
    {
      State(dev.Some?, if dev.Some? then dev.value else map[], applied, lastUAPI)
    }

    constructor ()
      ensures Value() == START
    {
      dev, applied, lastUAPI := None, map[], "";
    }

    /** `works` says that every step before the fields are set succeeds. */
    method Up(works: bool) returns (ok: bool)
      modifies this
      ensures Value() == Next(old(Value()), Event.Up(works)) && ok == (old(dev).Some? || works)
    {
      ok := dev.Some? || works;
      if dev.Some? || !works { return; }
      dev, applied, lastUAPI := Some(map[]), map[], "";
    }

    method Down()
      modifies this
      ensures Value() == Next(old(Value()), Event.Down)
    {
      dev, applied, lastUAPI := None, map[], "";
    }

    /** The peer write of Apply; the route reconcile follows it. */
    method Apply(plan: seq<PeerConfig>, ipc: IpcSet) returns (ok: bool, written: bool)
      modifies this
      ensures Value() == Next(old(Value()), Event.Apply(plan, ipc))
      ensures written <==> old(dev).Some? && UpdateText(plan, old(applied)) != old(lastUAPI)
      ensures ok <==>
                && old(dev).Some?
                && (written ==> ipc.Accepts? && Interpret(UpdateText(plan, old(applied)), old(dev).value).Some?)
      ensures ok && !written ==> dev == old(dev) && lastUAPI == old(lastUAPI)
    {
      ok, written := false, false;
      if dev.None? { return; }
      var uapi, next := UAPIUpdate(plan, applied);
      written := uapi != lastUAPI;
      if written {
        if ipc.Fails? {
          dev, applied, lastUAPI := Some(ipc.wreck), map[], "";
          return;
        }
        var after := Interpret(uapi, dev.value);
        if after.None? {
          applied, lastUAPI := map[], "";
          return;
        }
        dev, lastUAPI := after, uapi;
      }
      applied := next;
      ok := true;
    }
  }
}
