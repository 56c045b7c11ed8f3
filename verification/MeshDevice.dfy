/** Why Apply may skip a text it wrote last (pkg/mesh/device_wireguard.go:373-407): a text
    determines the sections of its update, and an update equal to the one that programmed
    the device changes nothing but the endpoints it stamps, which are none exactly for a
    settled plan. */
module MeshDevice {
  import opened Text
  import opened Inet
  import opened MeshUapi
  import opened MeshUapiEffect

  // ---- a text determines its sections ----

  lemma {:induction false} CmdsFront(ss: seq<Section>)
    requires ss != []
    ensures Cmds(ss) == SectionCmds(ss[0]) + Cmds(ss[1..])
    decreases |ss|
  {
    var n := |ss| - 1;
    if n == 0 {
      assert ss[..0] == [] && ss[1..] == [];
    } else {
      CmdsFront(ss[..n]);
      assert ss[..n][1..] == ss[1..n] && ss[1..][..n - 1] == ss[1..n];
      Associative(SectionCmds(ss[0]), Cmds(ss[1..n]), SectionCmds(ss[n]));
    }
  }

  predicate NotAllowedFirst(cs: seq<Cmd>) { cs != [] ==> !cs[0].AllowedIP? }

  function LeadingAllowed(cs: seq<Cmd>): seq<Prefix> {
    if cs == [] || !cs[0].AllowedIP? then [] else [cs[0].p] + LeadingAllowed(cs[1..])
  }

  lemma {:induction false} LeadingAllowedOf(ps: seq<Prefix>, x: seq<Cmd>)
    requires NotAllowedFirst(x)
    ensures LeadingAllowed(AllowedCmds(ps) + x) == ps
    decreases |ps|
  {
    var cs := AllowedCmds(ps) + x;
    if ps == [] {
      assert cs == x;
    } else {
      assert cs[0] == AllowedIP(ps[0]) && cs[1..] == AllowedCmds(ps[1..]) + x;
      LeadingAllowedOf(ps[1..], x);
    }
  }

  /** The first section of a command list. */
  function FirstSection(cs: seq<Cmd>): Section {
    if |cs| < 2 || !cs[0].PublicKey? then Wipe
    else if cs[1].Remove? then Gone(cs[0].key)
    else
      var stamp := if cs[1].Endpoint? then Some(cs[1].addr) else None;
      var i := if cs[1].Endpoint? then 2 else 1;
      if |cs| < i + 2 || !cs[i].Keepalive? then Wipe
      else Program(cs[0].key, stamp, cs[i].secs, LeadingAllowed(cs[i + 2..]))
  }

  /** Where the parts of a program section stand. */
  lemma {:induction false} ProgramParts(k: string, stamp: Option<string>, n: nat, ps: seq<Prefix>, x: seq<Cmd>)
    ensures var cs := SectionCmds(Program(k, stamp, n, ps)) + x;
            var i := 1 + |StampCmds(stamp)|;
            && |cs| >= i + 2 && cs[0] == PublicKey(k) && cs[i] == Keepalive(n) && cs[i + 2..] == AllowedCmds(ps) + x
            && (stamp.Some? ==> cs[1] == Endpoint(stamp.value))
  {
    var head := [PublicKey(k)] + StampCmds(stamp) + [Keepalive(n), ReplaceAllowed];
    Associative(head, AllowedCmds(ps), x);
    assert (head + (AllowedCmds(ps) + x))[|head|..] == AllowedCmds(ps) + x;
  }

  lemma {:induction false} FirstSectionOf(s: Section, x: seq<Cmd>)
    requires NotAllowedFirst(x)
    ensures FirstSection(SectionCmds(s) + x) == s
  {
    var cs := SectionCmds(s) + x;
    match s
    case Wipe =>
    case Gone(_) =>
    case Program(k, stamp, n, ps) =>
      LeadingAllowedOf(ps, x);
      ProgramParts(k, stamp, n, ps, x);
  }

  lemma {:induction false} SectionsStartPlain(ss: seq<Section>)
    ensures NotAllowedFirst(Cmds(ss)) && (ss != [] ==> Cmds(ss) != [])
  {
    if ss != [] {
      CmdsFront(ss);
    }
  }

  lemma {:induction false} FirstSectionSame(s: Section, x: seq<Cmd>, t: Section, y: seq<Cmd>)
    requires SectionCmds(s) + x == SectionCmds(t) + y && NotAllowedFirst(x) && NotAllowedFirst(y)
    ensures s == t && x == y
  {
    FirstSectionOf(s, x);
    FirstSectionOf(t, y);
    assert (SectionCmds(s) + x)[|SectionCmds(s)|..] == x;
    assert (SectionCmds(t) + y)[|SectionCmds(t)|..] == y;
  }

  lemma {:induction false} CmdsInjective(ss: seq<Section>, tt: seq<Section>)
    requires Cmds(ss) == Cmds(tt)
    ensures ss == tt
    decreases |ss|
  {
    SectionsStartPlain(ss);
    SectionsStartPlain(tt);
    if ss != [] {
      CmdsFront(ss);
      CmdsFront(tt);
      SectionsStartPlain(ss[1..]);
      SectionsStartPlain(tt[1..]);
      FirstSectionSame(ss[0], Cmds(ss[1..]), tt[0], Cmds(tt[1..]));
      CmdsInjective(ss[1..], tt[1..]);
      assert ss == [ss[0]] + ss[1..] && tt == [tt[0]] + tt[1..];
    }
  }

  /** Two updates with the same text consist of the same sections. */
  lemma {:induction false} SameTextSameUpdate(p: seq<PeerConfig>, m: Memory, q: seq<PeerConfig>, n: Memory)
    requires (forall pc <- p :: CleanPeer(pc)) && CleanMemory(m) && (forall pc <- q :: CleanPeer(pc)) && CleanMemory(n)
    requires UpdateText(p, m) == UpdateText(q, n)
    ensures Update(p, m) == Update(q, n)
  {
    UpdateIsClean(p, m);
    UpdateIsClean(q, n);
    RenderParses(Cmds(Update(p, m)));
    RenderParses(Cmds(Update(q, n)));
    CmdsInjective(Update(p, m), Update(q, n));
  }

  // ---- the memory after a plan ----

  lemma {:induction false} MemoryKeys(peers: seq<PeerConfig>)
    ensures MemoryOf(peers).Keys == Keys(peers)
    ensures (forall pc <- peers :: CleanPeer(pc)) ==> CleanMemory(MemoryOf(peers))
    decreases |peers|
  {
    if peers != [] {
      var n := |peers| - 1;
      MemoryKeys(peers[..n]);
      assert peers == peers[..n] + [peers[n]];
    }
  }

  lemma {:induction false} MemoryValues(peers: seq<PeerConfig>, i: nat)
    requires (forall i, j :: 0 <= i < j < |peers| ==> peers[i].key != peers[j].key) && i < |peers|
    ensures peers[i].key in MemoryOf(peers) && MemoryOf(peers)[peers[i].key] == peers[i].endpoint
    decreases |peers|
  {
    var n := |peers| - 1;
    if i < n {
      MemoryValues(peers[..n], i);
    }
  }

  /** No peer's endpoint is forgotten: what the plan names for a key is empty or what the
      last peer with that key names. */
  predicate Settled(p: seq<PeerConfig>) {
    forall pc <- p :: pc.endpoint == "" || (pc.key in MemoryOf(p) && MemoryOf(p)[pc.key] == pc.endpoint)
  }

  lemma {:induction false} GoodIsSettled(p: seq<PeerConfig>)
    requires Good(p)
    ensures Settled(p)
  {
    forall pc | pc in p ensures pc.key in MemoryOf(p) && MemoryOf(p)[pc.key] == pc.endpoint {
      var i :| 0 <= i < |p| && p[i] == pc;
      MemoryValues(p, i);
    }
  }

  // ---- an update equal to the last one is a no-op ----

  /** What a header consists of: a wipe over an empty memory, or removals of keys the plan
      does not carry. */
  predicate HeaderSection(s: Section, p: seq<PeerConfig>, m: Memory) {
    if m == map[] then s == Wipe else s.Gone? && s.key in m && s.key !in Keys(p)
  }

  lemma {:induction false} HeaderConsists(p: seq<PeerConfig>, m: Memory)
    ensures forall i :: 0 <= i < |Header(p, m)| ==> HeaderSection(Header(p, m)[i], p, m)
  {
    if m != map[] {
      var gone := Sorted(m.Keys - Keys(p));
      assert forall i :: 0 <= i < |gone| ==> gone[i] in gone;
    }
  }

  lemma {:induction false} HeaderRemovesStrangers(p: seq<PeerConfig>, m: Memory)
    ensures forall i :: 0 <= i < |Header(p, m)| ==> !Header(p, m)[i].Program?
    ensures forall s <- Update(p, m) :: s.Program? || HeaderSection(s, p, m)
  {
    HeaderConsists(p, m);
    var h, u := Header(p, m), Programs(p, m);
    forall s: Section | s in h + u ensures s.Program? || HeaderSection(s, p, m) {
      if s in h {
        var i :| 0 <= i < |h| && h[i] == s;
      }
    }
  }

  lemma HeaderIsPrefix(p: seq<PeerConfig>, m: Memory)
    ensures Header(p, m) != [] ==>
              Update(p, m) != [] && Update(p, m)[0] == Header(p, m)[0] && Update(p, m)[0] in Update(p, m)
  {
  }

  /** After programming p, an update that repeats the text of p's own removes nothing. */
  lemma {:induction false} RepeatedHeaderEmpty(p: seq<PeerConfig>, m: Memory, q: seq<PeerConfig>)
    requires p != [] && Update(p, m) == Update(q, MemoryOf(p))
    ensures Header(p, m) == [] && Header(q, MemoryOf(p)) == []
  {
    MemoryKeys(p);
    assert p[0].key in MemoryOf(p);
    HeaderRemovesStrangers(p, m);
    HeaderRemovesStrangers(q, MemoryOf(p));
    var u := Update(p, m);
    assert forall s <- u :: s.Program?;
    HeaderIsPrefix(p, m);
    HeaderIsPrefix(q, MemoryOf(p));
  }

  lemma {:induction false} RepeatedUpdateSame(p: seq<PeerConfig>, m: Memory, q: seq<PeerConfig>)
    requires p != [] && Update(p, m) == Update(q, MemoryOf(p))
    ensures |q| == |p|
    ensures forall i :: 0 <= i < |p| ==> SameSection(p[i], q[i]) && Stamp(q[i], MemoryOf(p)) == Stamp(p[i], m)
  {
    RepeatedHeaderEmpty(p, m, q);
    var l, r := Programs(p, m), Programs(q, MemoryOf(p));
    assert l == Update(p, m) && r == Update(q, MemoryOf(p));
    forall i | 0 <= i < |p| ensures SameSection(p[i], q[i]) && Stamp(q[i], MemoryOf(p)) == Stamp(p[i], m) {
      assert l[i] == r[i];
    }
  }

  predicate SameSection(a: PeerConfig, b: PeerConfig) {
    a.key == b.key && a.keepalive == b.keepalive && a.allowed == b.allowed
  }

  lemma {:induction false} SameImage(p: seq<PeerConfig>, q: seq<PeerConfig>)
    requires |q| == |p| && forall i :: 0 <= i < |p| ==> SameSection(p[i], q[i])
    ensures Image(p) == Image(q) && Keys(p) == Keys(q)
    decreases |p|
  {
    if p != [] {
      var n := |p| - 1;
      SameImage(p[..n], q[..n]);
      assert p == p[..n] + [p[n]] && q == q[..n] + [q[n]];
    }
  }

  lemma {:induction false} EmptyPlanRepeats(m: Memory, q: seq<PeerConfig>)
    requires Update([], m) == Update(q, map[])
    ensures q == []
  {
    HeaderRemovesStrangers([], m);
    var u := Update(q, map[]);
    assert u[0] == Wipe && u[0] in u && |u| == 1 + |q|;
    assert m == map[];
  }

  lemma {:induction false} SettledRepeatStampsNothing(p: seq<PeerConfig>, m: Memory, q: seq<PeerConfig>)
    requires Settled(p) && Update(p, m) == Update(q, MemoryOf(p))
    ensures forall pc <- q :: Stamp(pc, MemoryOf(p)).None?
  {
    if p == [] {
      EmptyPlanRepeats(m, q);
    } else {
      RepeatedUpdateSame(p, m, q);
      forall pc | pc in q ensures Stamp(pc, MemoryOf(p)).None? {
        var i :| 0 <= i < |q| && q[i] == pc;
        assert p[i] in p;
      }
    }
  }

  lemma {:induction false} StampsExactly(q: seq<PeerConfig>, prev: Memory, k: string)
    ensures LastStamp(q, prev, k).Some? <==> exists pc <- q :: pc.key == k && Stamp(pc, prev).Some?
    decreases |q|
  {
    if q != [] {
      var n := |q| - 1;
      StampsExactly(q[..n], prev, k);
      assert q == q[..n] + [q[n]];
    }
  }

  lemma {:induction false} ImageKeys(p: seq<PeerConfig>)
    ensures Image(p).Keys == Keys(p)
  {
    ImagedEffect(map[], p, map[]);
  }

  lemma {:induction false} RepeatKeepsImage(p: seq<PeerConfig>, m: Memory, q: seq<PeerConfig>)
    requires Update(p, m) == Update(q, MemoryOf(p))
    ensures Image(q) == Image(p) && Keys(q) == Keys(p)
  {
    if p == [] {
      EmptyPlanRepeats(m, q);
    } else {
      RepeatedUpdateSame(p, m, q);
      SameImage(p, q);
    }
  }

  lemma {:induction false} BaseUnchanged(p: seq<PeerConfig>, q: seq<PeerConfig>, dev: Device)
    requires Keys(p) == Keys(q) && dev.Keys == Keys(p)
    ensures Base(dev, q, MemoryOf(p)) == dev
  {
    MemoryKeys(p);
    assert MemoryOf(p).Keys - Keys(q) == {};
  }

  lemma {:induction false} SameExactly(d: Device, dev: Device)
    requires Erase(d) == Erase(dev)
    ensures d.Keys == dev.Keys
    ensures d == dev <==> forall k <- dev :: EndpointBefore(d, k) == dev[k].endpoint
  {
    assert d.Keys == Erase(d).Keys == Erase(dev).Keys == dev.Keys;
    if forall k <- dev :: EndpointBefore(d, k) == dev[k].endpoint {
      forall k | k in dev ensures d[k] == dev[k] {
        assert Erase(d)[k] == Erase(dev)[k];
      }
    }
  }

  lemma {:induction false} RepeatedUpdateEffect(p: seq<PeerConfig>, m: Memory, q: seq<PeerConfig>, dev: Device)
    requires CleanPeers(p) && CleanPeers(q)
    requires Erase(dev) == Image(p) && Update(p, m) == Update(q, MemoryOf(p))
    ensures var r := Interpret(UpdateText(q, MemoryOf(p)), dev);
            && r.Some? && Erase(r.value) == Erase(dev)
            && forall k <- r.value :: r.value[k].endpoint == EndpointStamped(dev, q, MemoryOf(p), k)
  {
    MemoryKeys(p);
    RepeatStartsFrom(p, m, q, dev);
    EffectOver(q, MemoryOf(p), dev);
  }

  /** Where the repeated update starts: at the device itself, which already is its image. */
  lemma {:induction false} RepeatStartsFrom(p: seq<PeerConfig>, m: Memory, q: seq<PeerConfig>, dev: Device)
    requires Erase(dev) == Image(p) && Update(p, m) == Update(q, MemoryOf(p))
    ensures Image(q) == Erase(dev) && Base(dev, q, MemoryOf(p)) == dev && dev.Keys == MemoryOf(p).Keys
  {
    MemoryKeys(p);
    RepeatKeepsImage(p, m, q);
    ImageKeys(p);
    assert dev.Keys == Erase(dev).Keys;
    BaseUnchanged(p, q, dev);
  }

  lemma {:induction false} EffectOver(q: seq<PeerConfig>, prev: Memory, dev: Device)
    requires CleanPeers(q) && CleanMemory(prev)
    requires Image(q) == Erase(dev) && Base(dev, q, prev) == dev && dev.Keys == prev.Keys
    ensures var r := Interpret(UpdateText(q, prev), dev);
            && r.Some? && Erase(r.value) == Erase(dev)
            && forall k <- r.value :: r.value[k].endpoint == EndpointStamped(dev, q, prev, k)
  {
    AnyUpdateEffect(q, prev, dev);
  }

  /** Repeating the text that programmed a device moves each endpoint to the last one
      stamped on its key and changes nothing else, so it is a no-op exactly when every
      stamped key is where its stamp says. */
  lemma {:induction false} RepeatedTextEffect(p: seq<PeerConfig>, m: Memory, q: seq<PeerConfig>, dev: Device)
    requires CleanPeers(p) && CleanPeers(q) && CleanMemory(m)
    requires Erase(dev) == Image(p) && UpdateText(p, m) == UpdateText(q, MemoryOf(p))
    ensures var r := Interpret(UpdateText(q, MemoryOf(p)), dev);
            && r.Some? && Erase(r.value) == Erase(dev)
            && (forall k <- dev :: EndpointBefore(r.value, k) == EndpointStamped(dev, q, MemoryOf(p), k))
            && (r == Some(dev) <==> forall k <- dev :: EndpointStamped(dev, q, MemoryOf(p), k) == dev[k].endpoint)
  {
    MemoryKeys(p);
    SameTextSameUpdate(p, m, q, MemoryOf(p));
    RepeatedUpdateEffect(p, m, q, dev);
    SameExactly(Interpret(UpdateText(q, MemoryOf(p)), dev).value, dev);
  }

  /** The write Apply skips would have changed nothing when the plan last written is
      settled: an update with the same text leaves every peer, endpoint included. */
  lemma {:induction false} RepeatedTextIsNoOp(p: seq<PeerConfig>, m: Memory, q: seq<PeerConfig>, dev: Device)
    requires CleanPeers(p) && CleanPeers(q) && CleanMemory(m) && Settled(p)
    requires Erase(dev) == Image(p) && UpdateText(p, m) == UpdateText(q, MemoryOf(p))
    ensures Interpret(UpdateText(q, MemoryOf(p)), dev) == Some(dev)
  {
    MemoryKeys(p);
    SameTextSameUpdate(p, m, q, MemoryOf(p));
    SettledRepeatStampsNothing(p, m, q);
    RepeatedTextEffect(p, m, q, dev);
    forall k | k in dev ensures EndpointStamped(dev, q, MemoryOf(p), k) == dev[k].endpoint {
      StampsExactly(q, MemoryOf(p), k);
    }
  }

  lemma {:induction false} UnsettledStamps(p: seq<PeerConfig>) returns (k: string)
    requires !Settled(p)
    ensures k in Keys(p) && LastStamp(p, MemoryOf(p), k).Some?
  {
    var pc :| pc in p && !(pc.endpoint == "" || (pc.key in MemoryOf(p) && MemoryOf(p)[pc.key] == pc.endpoint));
    k := pc.key;
    StampsExactly(p, MemoryOf(p), k);
  }

  /** A device programmed with `p` whose endpoints all stand at `e`. */
  function RoamedTo(p: seq<PeerConfig>, e: string): Device {
    map k | k in Image(p) :: Image(p)[k].(endpoint := Some(e))
  }

  lemma {:induction false} RoamedToErases(p: seq<PeerConfig>, e: string)
    ensures Erase(RoamedTo(p, e)) == Image(p) && RoamedTo(p, e).Keys == Keys(p)
  {
    ImageKeys(p);
    ImageHasNoEndpoints(p);
    var d := RoamedTo(p, e);
    assert Erase(d).Keys == d.Keys == Image(p).Keys;
    forall k | k in d ensures Erase(d)[k] == Image(p)[k] {
      assert Erase(d)[k] == Image(p)[k].(endpoint := None);
    }
  }

  /** A plan's repeated text is a no-op on every table its endpoints may have roamed to
      exactly when the plan is settled. */
  lemma {:induction false} RepeatIsNoOpExactly(p: seq<PeerConfig>)
    requires CleanPeers(p)
    ensures (forall dev :: Erase(dev) == Image(p) ==> Interpret(UpdateText(p, MemoryOf(p)), dev) == Some(dev))
            <==> Settled(p)
  {
    var m := MemoryOf(p);
    MemoryKeys(p);
    if Settled(p) {
      forall dev | Erase(dev) == Image(p) ensures Interpret(UpdateText(p, m), dev) == Some(dev) {
        RepeatedTextIsNoOp(p, m, p, dev);
      }
    } else {
      var k := UnsettledStamps(p);
      var e := LastStamp(p, m, k).value;
      var dev := RoamedTo(p, e + "!");
      RoamedToErases(p, e + "!");
      RepeatedTextEffect(p, m, p, dev);
      assert |e + "!"| != |e| && dev[k].endpoint != EndpointStamped(dev, p, m, k);
    }
  }
}
