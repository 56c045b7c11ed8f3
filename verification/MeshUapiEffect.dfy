/** What interpreting a rendered update does (pkg/mesh/plan.go:327-379). The text parses
    back to the commands it was rendered from, the commands run to the effect of their
    sections, and the sections of one update leave exactly the plan. */
module MeshUapiEffect {
  import opened Text
  import opened Inet
  import opened MeshUapi

  // ---- the text reads back as its commands ----

  /** A command whose text is one well-formed line. */
  predicate Clean(c: Cmd) {
    match c
    case PublicKey(k) => Lacks(k, '\n')
    case Endpoint(e) => Lacks(e, '\n')
    case Keepalive(n) => n < 0x1_0000
    case AllowedIP(p) => p.Ok()
    case _ => true
  }

  lemma Cut(key: string, v: string)
    requires Lacks(key, '=') && Lacks(key, '\n') && Lacks(v, '\n')
    ensures ParseLine(key + ['='] + v) == ParsePair(key, v)
    ensures Lacks(key + ['='] + v, '\n')
  {
    FindAppend(key, '=', v);
    var line := key + ['='] + v;
    assert line[..|key|] == key && line[|key| + 1..] == v;
  }

  lemma FlagLineParses(c: Cmd)
    requires c.ReplacePeers? || c.Remove? || c.ReplaceAllowed?
    ensures ParseLine(Line(c)) == Some(c) && Lacks(Line(c), '\n')
  {
    match c
    case ReplacePeers => Cut("replace_peers", "true");
    case Remove => Cut("remove", "true");
    case ReplaceAllowed => Cut("replace_allowed_ips", "true");
  }

  lemma KeepaliveLineParses(n: nat)
    requires n < 0x1_0000
    ensures ParseLine(Line(Keepalive(n))) == Some(Keepalive(n)) && Lacks(Line(Keepalive(n)), '\n')
  {
    DecimalLacks(n, '\n');
    Cut("persistent_keepalive_interval", Decimal(n));
    ValueOfDecimal(n);
  }

  lemma AllowedTextParses(v: string, p: Prefix)
    requires ParsePrefix(v) == Some(p) && Lacks(v, '\n')
    ensures ParseLine("allowed_ip" + ['='] + v) == Some(AllowedIP(p)) && Lacks("allowed_ip" + ['='] + v, '\n')
  {
    Cut("allowed_ip", v);
  }

  lemma AllowedLineParses(p: Prefix)
    requires p.Ok()
    ensures ParseLine(Line(AllowedIP(p))) == Some(AllowedIP(p)) && Lacks(Line(AllowedIP(p)), '\n')
  {
    PrefixLacks(p, '\n');
    PrefixParses(p);
    AllowedTextParses(p.ToString(), p);
  }

  lemma LineParses(c: Cmd)
    requires Clean(c)
    ensures ParseLine(Line(c)) == Some(c) && Lacks(Line(c), '\n')
  {
    match c
    case PublicKey(k) => Cut("public_key", k);
    case Endpoint(e) => Cut("endpoint", e);
    case Keepalive(n) => KeepaliveLineParses(n);
    case AllowedIP(p) => AllowedLineParses(p);
    case _ => FlagLineParses(c);
  }

  lemma ParseTextCons(line: string, rest: string, c: Cmd, cs: seq<Cmd>)
    requires Lacks(line, '\n') && ParseLine(line) == Some(c) && ParseText(rest) == Some(cs)
    ensures ParseText(line + ['\n'] + rest) == Some([c] + cs)
  {
    FindAppend(line, '\n', rest);
    var s := line + ['\n'] + rest;
    assert s[..|line|] == line && s[|line| + 1..] == rest;
  }

  /** A rendered text parses back to exactly the commands it was rendered from. */
  lemma {:induction false} RenderParses(cs: seq<Cmd>)
    requires forall c <- cs :: Clean(c)
    ensures ParseText(Render(cs)) == Some(cs)
  {
    if cs != [] {
      LineParses(cs[0]);
      RenderParses(cs[1..]);
      ParseTextCons(Line(cs[0]), Render(cs[1..]), cs[0], cs[1..]);
      assert [cs[0]] + cs[1..] == cs;
    }
  }

  // ---- the commands run to the effect of their sections ----

  lemma {:induction false} StepAllAppend(e: Exec, a: seq<Cmd>, b: seq<Cmd>)
    ensures StepAll(e, a + b) == if StepAll(e, a).Some? then StepAll(StepAll(e, a).value, b) else None
    decreases |a|
  {
    if a == [] {
      assert a + b == b;
    } else {
      assert (a + b)[1..] == a[1..] + b;
      var n := Step(e, a[0]);
      if n.Some? {
        StepAllAppend(n.value, a[1..], b);
      }
    }
  }

  function RangeOf(ps: seq<Prefix>): set<Prefix> {
    set p <- ps
  }

  /** `owner` takes every range of `ps` from whoever held it. */
  function Take(dev: Device, owner: string, ps: set<Prefix>): Device {
    map k | k in dev ::
      dev[k].(allowed := if k == owner then dev[k].allowed + ps else dev[k].allowed - ps)
  }

  lemma {:induction false} TakeTwice(dev: Device, k: string, a: set<Prefix>, b: set<Prefix>)
    ensures Take(Take(dev, k, a), k, b) == Take(dev, k, a + b)
  {
    forall j | j in dev ensures Take(Take(dev, k, a), k, b)[j] == Take(dev, k, a + b)[j] {
      assert dev[j].allowed + a + b == dev[j].allowed + (a + b);
      assert dev[j].allowed - a - b == dev[j].allowed - (a + b);
    }
  }

  lemma StealIsTake(dev: Device, k: string, p: Prefix)
    requires k in dev
    ensures Steal(dev, k, p)[k := dev[k].(allowed := dev[k].allowed + {p})] == Take(dev, k, {p})
  {
  }

  lemma {:induction false} AllowedRun(dev: Device, k: string, ps: seq<Prefix>)
    requires k in dev
    ensures StepAll(Exec(dev, Some(k)), AllowedCmds(ps)) == Some(Exec(Take(dev, k, RangeOf(ps)), Some(k)))
    decreases |ps|
  {
    if ps == [] {
      forall j | j in dev ensures Take(dev, k, {})[j] == dev[j] {
        assert dev[j].allowed + {} == dev[j].allowed == dev[j].allowed - {};
      }
      assert Take(dev, k, {}) == dev && RangeOf(ps) == {} && AllowedCmds(ps) == [];
    } else {
      assert AllowedCmds(ps)[1..] == AllowedCmds(ps[1..]);
      var one := Take(dev, k, {ps[0]});
      StealIsTake(dev, k, ps[0]);
      AllowedRun(one, k, ps[1..]);
      TakeTwice(dev, k, {ps[0]}, RangeOf(ps[1..]));
      assert RangeOf(ps) == {ps[0]} + RangeOf(ps[1..]);
    }
  }

  function EndpointBefore(dev: Device, k: string): Option<string> {
    if k in dev then dev[k].endpoint else None
  }

  /** The device after one section. */
  function After(dev: Device, s: Section): Device {
    match s
    case Wipe => map[]
    case Gone(k) => dev - {k}
    case Program(k, stamp, n, ps) =>
      var reset := Peer(if stamp.Some? then stamp else EndpointBefore(dev, k), n, {});
      Take(dev[k := reset], k, RangeOf(ps))
  }

  function AfterAll(dev: Device, ss: seq<Section>): Device {
    if ss == [] then dev else After(AfterAll(dev, ss[..|ss| - 1]), ss[|ss| - 1])
  }

  lemma {:induction false} ProgramRuns(e: Exec, s: Section)
    requires s.Program?
    ensures StepAll(e, SectionCmds(s)) == Some(Exec(After(e.dev, s), Some(s.key)))
  {
    var Program(k, stamp, n, ps) := s;
    var base := if k in e.dev then e.dev else e.dev[k := Peer(None, 0, {})];
    var head := [PublicKey(k)] + StampCmds(stamp) + [Keepalive(n), ReplaceAllowed];
    var reset := Peer(if stamp.Some? then stamp else EndpointBefore(e.dev, k), n, {});
    assert StepAll(e, head) == Some(Exec(e.dev[k := reset], Some(k))) by {
      HeadRuns(e, k, stamp, n);
    }
    StepAllAppend(e, head, AllowedCmds(ps));
    AllowedRun(e.dev[k := reset], k, ps);
  }

  lemma {:induction false} TwoSteps(e: Exec, a: Cmd, b: Cmd)
    requires Step(e, a).Some?
    ensures StepAll(e, [a, b]) == Step(Step(e, a).value, b)
  {
    assert [a, b][1..] == [b] && [b][1..] == [];
    assert StepAll(Step(e, a).value, [b]) == Step(Step(e, a).value, b);
  }

  lemma {:induction false} HeadRuns(e: Exec, k: string, stamp: Option<string>, n: nat)
    ensures StepAll(e, [PublicKey(k)] + StampCmds(stamp) + [Keepalive(n), ReplaceAllowed])
            == Some(Exec(e.dev[k := Peer(if stamp.Some? then stamp else EndpointBefore(e.dev, k), n, {})], Some(k)))
  {
    var base := Exec(if k in e.dev then e.dev else e.dev[k := Peer(None, 0, {})], Some(k));
    var first := [PublicKey(k)] + StampCmds(stamp);
    var stamped := if stamp.Some? then base.(dev := base.dev[k := base.dev[k].(endpoint := stamp)]) else base;
    assert StepAll(e, first) == Some(stamped) by {
      if stamp.Some? {
        assert first == [PublicKey(k), Endpoint(stamp.value)];
        TwoSteps(e, PublicKey(k), Endpoint(stamp.value));
      } else {
        assert first == [PublicKey(k)] && first[1..] == [];
      }
    }
    StepAllAppend(e, first, [Keepalive(n), ReplaceAllowed]);
    TwoSteps(stamped, Keepalive(n), ReplaceAllowed);
    assert stamped.dev[k := stamped.dev[k].(keepalive := n)][k := stamped.dev[k].(keepalive := n, allowed := {})]
        == e.dev[k := Peer(if stamp.Some? then stamp else EndpointBefore(e.dev, k), n, {})];
  }

  lemma {:induction false} SectionRuns(e: Exec, s: Section)
    requires s.Wipe? ==> e.cur.None?
    ensures StepAll(e, SectionCmds(s)).Some? && StepAll(e, SectionCmds(s)).value.dev == After(e.dev, s)
  {
    match s
    case Wipe =>
      assert [ReplacePeers][1..] == [];
    case Gone(k) =>
      TwoSteps(e, PublicKey(k), Remove);
      assert e.dev[k := Peer(None, 0, {})] - {k} == e.dev - {k};
    case Program(_, _, _, _) => ProgramRuns(e, s);
  }

  predicate WipesFirstOnly(ss: seq<Section>) {
    forall i :: 0 < i < |ss| ==> !ss[i].Wipe?
  }

  lemma {:induction false} SectionsRun(dev: Device, ss: seq<Section>)
    requires WipesFirstOnly(ss)
    ensures StepAll(Exec(dev, None), Cmds(ss)).Some?
            && StepAll(Exec(dev, None), Cmds(ss)).value.dev == AfterAll(dev, ss)
    decreases |ss|
  {
    if ss != [] {
      var front := ss[..|ss| - 1];
      SectionsRun(dev, front);
      StepAllAppend(Exec(dev, None), Cmds(front), SectionCmds(ss[|ss| - 1]));
      SectionRuns(StepAll(Exec(dev, None), Cmds(front)).value, ss[|ss| - 1]);
    }
  }

  // ---- one update leaves exactly the plan ----

  predicate CleanPeer(pc: PeerConfig) {
    Lacks(pc.key, '\n') && Lacks(pc.endpoint, '\n') && pc.keepalive < 0x1_0000 && forall p <- pc.allowed :: p.Ok()
  }

  /** A plan with distinct keys and pairwise disjoint allowed ranges. */
  predicate Good(peers: seq<PeerConfig>) {
    && (forall pc <- peers :: CleanPeer(pc))
    && (forall i, j :: 0 <= i < j < |peers| ==> peers[i].key != peers[j].key)
    && (forall i, j :: 0 <= i < j < |peers| ==> RangeOf(peers[i].allowed) !! RangeOf(peers[j].allowed))
  }

  predicate CleanMemory(m: Memory) { forall k <- m :: Lacks(k, '\n') }

  /** The device holds exactly the plan's keys, keepalives and allowed ranges. */
  predicate Programmed(dev: Device, peers: seq<PeerConfig>) {
    && dev.Keys == Keys(peers)
    && forall i :: 0 <= i < |peers| ==>
         dev[peers[i].key].keepalive == peers[i].keepalive && dev[peers[i].key].allowed == RangeOf(peers[i].allowed)
  }

  function EndpointAfter(dev: Device, pc: PeerConfig, prev: Memory): Option<string> {
    if Stamp(pc, prev).Some? then Stamp(pc, prev) else EndpointBefore(dev, pc.key)
  }

  lemma {:induction false} ProgramEffect(d0: Device, pc: PeerConfig, prev: Memory)
    ensures var d := After(d0, Program(pc.key, Stamp(pc, prev), pc.keepalive, pc.allowed));
            && d.Keys == d0.Keys + {pc.key}
            && d[pc.key] == Peer(EndpointAfter(d0, pc, prev), pc.keepalive, RangeOf(pc.allowed))
            && (forall k :: k in d0 && k != pc.key ==> d[k] == d0[k].(allowed := d0[k].allowed - RangeOf(pc.allowed)))
  {
    assert {} + RangeOf(pc.allowed) == RangeOf(pc.allowed);
  }

  /** What `Programs(peers, prev)` makes of `dev`. */
  predicate Configured(d: Device, dev: Device, peers: seq<PeerConfig>, prev: Memory) {
    && d.Keys == dev.Keys + Keys(peers)
    && (forall i :: 0 <= i < |peers| ==>
          d[peers[i].key] == Peer(EndpointAfter(dev, peers[i], prev), peers[i].keepalive, RangeOf(peers[i].allowed)))
    && (forall k :: k in dev && k !in Keys(peers) ==> d[k].endpoint == dev[k].endpoint)
  }

  lemma {:induction false} DisjointKept(a: set<Prefix>, b: set<Prefix>)
    requires a !! b
    ensures a - b == a
  {
  }

  lemma {:induction false} ConfiguredStep(d0: Device, dev: Device, peers: seq<PeerConfig>, prev: Memory)
    requires Good(peers) && peers != [] && Configured(d0, dev, peers[..|peers| - 1], prev)
    ensures var pc := peers[|peers| - 1];
            Configured(After(d0, Program(pc.key, Stamp(pc, prev), pc.keepalive, pc.allowed)), dev, peers, prev)
  {
    var n := |peers| - 1;
    var front, pc := peers[..n], peers[n];
    var d := After(d0, Program(pc.key, Stamp(pc, prev), pc.keepalive, pc.allowed));
    ProgramEffect(d0, pc, prev);
    assert Keys(peers) == Keys(front) + {pc.key};
    assert pc.key !in Keys(front);
    assert EndpointAfter(d0, pc, prev) == EndpointAfter(dev, pc, prev);
    forall i | 0 <= i < n
      ensures d[peers[i].key] == Peer(EndpointAfter(dev, peers[i], prev), peers[i].keepalive, RangeOf(peers[i].allowed))
    {
      assert front[i] == peers[i] && peers[i].key in Keys(front);
      DisjointKept(RangeOf(peers[i].allowed), RangeOf(pc.allowed));
    }
  }

  lemma {:induction false} ProgramsEffect(dev: Device, peers: seq<PeerConfig>, prev: Memory)
    requires Good(peers)
    ensures Configured(AfterAll(dev, Programs(peers, prev)), dev, peers, prev)
    decreases |peers|
  {
    if peers != [] {
      var front := peers[..|peers| - 1];
      ProgramsEffect(dev, front, prev);
      var ss := Programs(peers, prev);
      assert ss[..|ss| - 1] == Programs(front, prev);
      ConfiguredStep(AfterAll(dev, ss[..|ss| - 1]), dev, peers, prev);
    }
  }

  lemma {:induction false} GoneToo(dev: Device, ks: set<string>, k: string)
    ensures After(dev - ks, Gone(k)) == dev - (ks + {k})
  {
  }

  lemma {:induction false} RemovalsEffect(dev: Device, keys: seq<string>)
    ensures AfterAll(dev, Removals(keys)) == dev - (set k <- keys)
    decreases |keys|
  {
    if keys != [] {
      var n := |keys| - 1;
      RemovalsEffect(dev, keys[..n]);
      assert Removals(keys)[..n] == Removals(keys[..n]);
      assert keys == keys[..n] + [keys[n]];
      GoneToo(dev, (set k <- keys[..n]), keys[n]);
      assert (set k <- keys) == (set k <- keys[..n]) + {keys[n]};
    }
  }

  lemma {:induction false} AfterAllAppend(dev: Device, a: seq<Section>, b: seq<Section>)
    ensures AfterAll(dev, a + b) == AfterAll(AfterAll(dev, a), b)
    decreases |b|
  {
    if b == [] {
      assert a + b == a;
    } else {
      assert (a + b)[..|a + b| - 1] == a + b[..|b| - 1];
      AfterAllAppend(dev, a, b[..|b| - 1]);
    }
  }

  /** The device the programs of an update start from. */
  function Base(dev: Device, peers: seq<PeerConfig>, prev: Memory): Device {
    if prev == map[] then map[] else dev - (prev.Keys - Keys(peers))
  }

  lemma {:induction false} HeaderEffect(dev: Device, peers: seq<PeerConfig>, prev: Memory)
    ensures AfterAll(dev, Header(peers, prev)) == Base(dev, peers, prev)
  {
    if prev == map[] {
      assert AfterAll(dev, [Wipe]) == After(AfterAll(dev, [Wipe][..0]), Wipe);
    } else {
      var gone := Sorted(prev.Keys - Keys(peers));
      RemovalsEffect(dev, gone);
      assert (set k <- gone) == prev.Keys - Keys(peers);
    }
  }

  predicate CleanSection(s: Section) { forall c <- SectionCmds(s) :: Clean(c) }

  lemma ProgramIsClean(pc: PeerConfig, prev: Memory)
    requires CleanPeer(pc)
    ensures CleanSection(Program(pc.key, Stamp(pc, prev), pc.keepalive, pc.allowed))
  {
    var allowed := AllowedCmds(pc.allowed);
    forall c | c in allowed ensures Clean(c) {
      var i :| 0 <= i < |allowed| && allowed[i] == c;
    }
  }

  lemma {:induction false} RemovalsAreClean(keys: seq<string>)
    requires forall i :: 0 <= i < |keys| ==> Lacks(keys[i], '\n')
    ensures forall i :: 0 <= i < |keys| ==> CleanSection(Removals(keys)[i])
  {
    forall i | 0 <= i < |keys| ensures CleanSection(Gone(keys[i])) {
      assert SectionCmds(Gone(keys[i])) == [PublicKey(keys[i]), Remove];
    }
  }

  lemma {:induction false} HeaderIsClean(peers: seq<PeerConfig>, prev: Memory)
    requires CleanMemory(prev)
    ensures forall i :: 0 <= i < |Header(peers, prev)| ==> CleanSection(Header(peers, prev)[i])
    ensures forall i :: 0 < i < |Header(peers, prev)| ==> !Header(peers, prev)[i].Wipe?
    ensures Header(peers, prev) == [Wipe] || forall i :: 0 <= i < |Header(peers, prev)| ==> Header(peers, prev)[i].Gone?
  {
    if prev != map[] {
      var gone := Sorted(prev.Keys - Keys(peers));
      forall i | 0 <= i < |gone| ensures Lacks(gone[i], '\n') { assert gone[i] in gone; }
      RemovalsAreClean(gone);
    }
  }

  lemma {:induction false} ProgramsAreClean(peers: seq<PeerConfig>, prev: Memory)
    requires forall pc <- peers :: CleanPeer(pc)
    ensures forall i :: 0 <= i < |peers| ==> CleanSection(Programs(peers, prev)[i])
  {
    forall i | 0 <= i < |peers| ensures CleanSection(Programs(peers, prev)[i]) {
      ProgramIsClean(peers[i], prev);
    }
  }

  lemma {:induction false} UpdateIsClean(peers: seq<PeerConfig>, prev: Memory)
    requires (forall pc <- peers :: CleanPeer(pc)) && CleanMemory(prev)
    ensures forall c <- Cmds(Update(peers, prev)) :: Clean(c)
    ensures WipesFirstOnly(Update(peers, prev))
  {
    HeaderIsClean(peers, prev);
    ProgramsAreClean(peers, prev);
    CmdsAreClean(Update(peers, prev));
  }

  lemma {:induction false} CmdsAreClean(ss: seq<Section>)
    requires forall i :: 0 <= i < |ss| ==> CleanSection(ss[i])
    ensures forall c <- Cmds(ss) :: Clean(c)
    decreases |ss|
  {
    if ss != [] {
      CmdsAreClean(ss[..|ss| - 1]);
      assert CleanSection(ss[|ss| - 1]);
    }
  }

  /** Interpreting the rendered update is the effect of its sections. */
  lemma {:induction false} InterpretUpdate(peers: seq<PeerConfig>, prev: Memory, dev: Device)
    requires (forall pc <- peers :: CleanPeer(pc)) && CleanMemory(prev)
    ensures Interpret(UpdateText(peers, prev), dev) == Some(AfterAll(dev, Update(peers, prev)))
  {
    UpdateIsClean(peers, prev);
    RenderParses(Cmds(Update(peers, prev)));
    SectionsRun(dev, Update(peers, prev));
  }

  // ---- any clean plan, with keys and ranges free to repeat ----

  predicate CleanPeers(peers: seq<PeerConfig>) { forall pc <- peers :: CleanPeer(pc) }

  /** A device without its endpoints. */
  function Erase(d: Device): Device {
    map k | k in d :: d[k].(endpoint := None)
  }

  /** What a plan leaves on a device, endpoints apart: a repeated key is programmed by its
      last section, a repeated range belongs to the last key naming it. */
  function Image(peers: seq<PeerConfig>): Device {
    if peers == [] then map[]
    else
      var pc := peers[|peers| - 1];
      After(Image(peers[..|peers| - 1]), Program(pc.key, None, pc.keepalive, pc.allowed))
  }

  /** The endpoint the last stamping section of `k` carries. */
  function LastStamp(peers: seq<PeerConfig>, prev: Memory, k: string): Option<string> {
    if peers == [] then None
    else
      var pc := peers[|peers| - 1];
      if pc.key == k && Stamp(pc, prev).Some? then Stamp(pc, prev) else LastStamp(peers[..|peers| - 1], prev, k)
  }

  function EndpointStamped(dev: Device, peers: seq<PeerConfig>, prev: Memory, k: string): Option<string> {
    if LastStamp(peers, prev, k).Some? then LastStamp(peers, prev, k) else EndpointBefore(dev, k)
  }

  /** `d` holds the plan's image on the plan's keys. */
  predicate Imaged(d: Device, dev: Device, peers: seq<PeerConfig>) {
    && d.Keys == dev.Keys + Keys(peers) && Image(peers).Keys == Keys(peers)
    && forall k <- Keys(peers) :: d[k].(endpoint := None) == Image(peers)[k]
  }

  lemma {:induction false} ImageStep(peers: seq<PeerConfig>)
    requires peers != [] && Image(peers[..|peers| - 1]).Keys == Keys(peers[..|peers| - 1])
    ensures var front, pc := peers[..|peers| - 1], peers[|peers| - 1];
            && Image(peers).Keys == Keys(peers) == Keys(front) + {pc.key}
            && Image(peers)[pc.key] == Peer(None, pc.keepalive, RangeOf(pc.allowed))
            && forall k :: k in Keys(front) && k != pc.key ==>
                 Image(peers)[k] == Image(front)[k].(allowed := Image(front)[k].allowed - RangeOf(pc.allowed))
  {
    var front, pc := peers[..|peers| - 1], peers[|peers| - 1];
    assert Keys(peers) == Keys(front) + {pc.key};
    assert {} + RangeOf(pc.allowed) == RangeOf(pc.allowed);
    assert forall k <- Image(front) :: Image(front)[k].endpoint == None by { ImageHasNoEndpoints(front); }
  }

  lemma {:induction false} ImageHasNoEndpoints(peers: seq<PeerConfig>)
    ensures forall k <- Image(peers) :: Image(peers)[k].endpoint == None
  {
    if peers != [] { ImageHasNoEndpoints(peers[..|peers| - 1]); }
  }

  lemma {:induction false} ImagedStep(d0: Device, dev: Device, peers: seq<PeerConfig>, prev: Memory)
    requires peers != [] && Imaged(d0, dev, peers[..|peers| - 1])
    ensures var pc := peers[|peers| - 1];
            Imaged(After(d0, Program(pc.key, Stamp(pc, prev), pc.keepalive, pc.allowed)), dev, peers)
  {
    ImageStep(peers);
    ProgramEffect(d0, peers[|peers| - 1], prev);
  }

  lemma {:induction false} ImagedEffect(dev: Device, peers: seq<PeerConfig>, prev: Memory)
    ensures Imaged(AfterAll(dev, Programs(peers, prev)), dev, peers)
    decreases |peers|
  {
    if peers != [] {
      var front, ss := peers[..|peers| - 1], Programs(peers, prev);
      ImagedEffect(dev, front, prev);
      assert ss[..|ss| - 1] == Programs(front, prev);
      ImagedStep(AfterAll(dev, ss[..|ss| - 1]), dev, peers, prev);
    }
  }

  lemma {:induction false} StampedStep(d0: Device, dev: Device, peers: seq<PeerConfig>, prev: Memory, k: string)
    requires peers != [] && EndpointBefore(d0, k) == EndpointStamped(dev, peers[..|peers| - 1], prev, k)
    ensures var pc := peers[|peers| - 1];
            EndpointBefore(After(d0, Program(pc.key, Stamp(pc, prev), pc.keepalive, pc.allowed)), k)
            == EndpointStamped(dev, peers, prev, k)
  {
    ProgramEffect(d0, peers[|peers| - 1], prev);
  }

  lemma {:induction false} StampedEffect(dev: Device, peers: seq<PeerConfig>, prev: Memory, k: string)
    ensures EndpointBefore(AfterAll(dev, Programs(peers, prev)), k) == EndpointStamped(dev, peers, prev, k)
    decreases |peers|
  {
    if peers != [] {
      var front, ss := peers[..|peers| - 1], Programs(peers, prev);
      StampedEffect(dev, front, prev, k);
      assert ss[..|ss| - 1] == Programs(front, prev);
      StampedStep(AfterAll(dev, ss[..|ss| - 1]), dev, peers, prev, k);
    }
  }

  lemma {:induction false} ImagedErases(d: Device, dev: Device, peers: seq<PeerConfig>)
    requires Imaged(d, dev, peers) && dev.Keys <= Keys(peers)
    ensures Erase(d) == Image(peers)
  {
    assert Erase(d).Keys == Image(peers).Keys;
  }

  /** Interpreting an update of any clean plan leaves the plan's image; each endpoint is
      the last one stamped on its key, or else the one wireguard had. */
  lemma {:induction false} AnyUpdateEffect(peers: seq<PeerConfig>, prev: Memory, dev: Device)
    requires CleanPeers(peers) && CleanMemory(prev)
    requires prev == map[] || dev.Keys == prev.Keys
    ensures var r := Interpret(UpdateText(peers, prev), dev);
            && r.Some? && Erase(r.value) == Image(peers)
            && forall k <- r.value :: r.value[k].endpoint == EndpointStamped(Base(dev, peers, prev), peers, prev, k)
  {
    InterpretUpdate(peers, prev, dev);
    AfterAllAppend(dev, Header(peers, prev), Programs(peers, prev));
    HeaderEffect(dev, peers, prev);
    var b, d := Base(dev, peers, prev), AfterAll(dev, Update(peers, prev));
    ImagedEffect(b, peers, prev);
    ImagedErases(d, b, peers);
    forall k | k in d ensures d[k].endpoint == EndpointStamped(b, peers, prev, k) {
      StampedEffect(b, peers, prev, k);
    }
  }

  /** With distinct keys and disjoint ranges the image is the plan itself. */
  lemma {:induction false} ImageOfGood(dev: Device, peers: seq<PeerConfig>)
    requires Good(peers) && Erase(dev) == Image(peers)
    ensures Programmed(dev, peers)
  {
    ProgramsEffect(map[], peers, map[]);
    ImagedEffect(map[], peers, map[]);
    var d := AfterAll(map[], Programs(peers, map[]));
    assert dev.Keys == Erase(dev).Keys == Keys(peers);
    forall i | 0 <= i < |peers|
      ensures dev[peers[i].key].keepalive == peers[i].keepalive
              && dev[peers[i].key].allowed == RangeOf(peers[i].allowed)
    {
      var k := peers[i].key;
      assert peers[i] in peers && k in Keys(peers);
      assert Erase(dev)[k] == Image(peers)[k] == d[k].(endpoint := None);
    }
  }

  /** On any device whose keys are the ones the applier remembers, interpreting an
      update leaves exactly the plan's keys, keepalives and allowed ranges, and a peer's
      endpoint is the stamped one or else the one wireguard had. */
  lemma {:induction false} UpdateEffect(peers: seq<PeerConfig>, prev: Memory, dev: Device)
    requires Good(peers) && CleanMemory(prev)
    requires prev == map[] || dev.Keys == prev.Keys
    ensures var r := Interpret(UpdateText(peers, prev), dev);
            && r.Some? && Programmed(r.value, peers)
            && forall i :: 0 <= i < |peers| ==>
                 r.value[peers[i].key].endpoint == EndpointAfter(Base(dev, peers, prev), peers[i], prev)
  {
    InterpretUpdate(peers, prev, dev);
    AfterAllAppend(dev, Header(peers, prev), Programs(peers, prev));
    HeaderEffect(dev, peers, prev);
    ProgramsEffect(Base(dev, peers, prev), peers, prev);
    ConfiguredIsProgrammed(AfterAll(dev, Update(peers, prev)), Base(dev, peers, prev), peers, prev);
  }

  lemma {:induction false} ConfiguredIsProgrammed(d: Device, base: Device, peers: seq<PeerConfig>, prev: Memory)
    requires Configured(d, base, peers, prev) && base.Keys <= Keys(peers)
    ensures Programmed(d, peers)
    ensures forall i :: 0 <= i < |peers| ==> d[peers[i].key].endpoint == EndpointAfter(base, peers[i], prev)
  {
  }

  /** The incremental text has the effect of the full replacement on everything but the
      endpoints. */
  lemma {:induction false} UpdateMatchesReplacement(peers: seq<PeerConfig>, prev: Memory, dev: Device)
    requires Good(peers) && CleanMemory(prev)
    requires prev == map[] || dev.Keys == prev.Keys
    ensures var inc := Interpret(UpdateText(peers, prev), dev);
            var full := Interpret(UpdateText(peers, map[]), dev);
            && inc.Some? && full.Some? && inc.value.Keys == full.value.Keys
            && forall k <- inc.value ::
                 inc.value[k].keepalive == full.value[k].keepalive && inc.value[k].allowed == full.value[k].allowed
  {
    UpdateEffect(peers, prev, dev);
    UpdateEffect(peers, map[], dev);
    var inc := Interpret(UpdateText(peers, prev), dev).value;
    forall k | k in inc ensures exists i :: 0 <= i < |peers| && peers[i].key == k {
      assert k in Keys(peers);
      var pc :| pc in peers && pc.key == k;
    }
  }

  /** The roaming contract: an update changes the endpoint of a configured peer only when
      the plan carries a non-empty endpoint other than the one last written for it. */
  lemma {:induction false} RoamedEndpointKept(peers: seq<PeerConfig>, prev: Memory, dev: Device, i: nat)
    requires Good(peers) && CleanMemory(prev) && prev != map[] && dev.Keys == prev.Keys
    requires i < |peers| && peers[i].key in dev
    ensures var r := Interpret(UpdateText(peers, prev), dev);
            r.Some? && peers[i].key in r.value
            && r.value[peers[i].key].endpoint
               == if peers[i].endpoint != "" && prev[peers[i].key] != peers[i].endpoint then Some(peers[i].endpoint)
                  else dev[peers[i].key].endpoint
  {
    UpdateEffect(peers, prev, dev);
    assert peers[i].key in Keys(peers);
  }
}
