/** When the two lookup engines agree (pkg/dns/resolver.go:187-281; pkg/dns/expand.go:41-95;
    shim/getaddrinfo_shim.c:394-495, 1381-1508): they send the same queries in the same
    order and reach the same verdict on every network exactly when they put the same names
    on the wire and class each of them alike. */
module DnsAgreement {
  import opened Text
  import opened DnsConfig
  import opened DnsLookup
  import D = DnsServers

  // ---- what each engine puts on the wire ----

  /** The candidates that can be sent at all. */
  function OnWire(names: seq<string>): (r: seq<string>)
    ensures forall x :: x in r <==> x in names && D.Encodable(x)
  {
    if names == [] then [] else (if D.Encodable(names[0]) then [names[0]] else []) + OnWire(names[1..])
  }

  function SlotsOnWire(slots: seq<Slot>): (r: seq<string>)
    ensures forall x <- r :: D.Encodable(x)
  {
    if slots == [] then []
    else (if !slots[0].bad && D.Encodable(slots[0].name) then [slots[0].name] else []) + SlotsOnWire(slots[1..])
  }

  function Good(names: seq<string>): (r: seq<Slot>)
    ensures |r| == |names| && forall i :: 0 <= i < |names| ==> r[i] == Slot(names[i], false)
  {
    if names == [] then [] else [Slot(names[0], false)] + Good(names[1..])
  }

  function GoWire(c: Config, name: string): seq<string> { OnWire(GoCandidates(c, name)) }
  function ShimWire(k: Shim, name: string): seq<string> { SlotsOnWire(ShimCandidates(k, name)) }

  /** Several servers only in exclusive mode, and then some server answers until a
      candidate has failed. */
  predicate Asking(exclusive: bool, s: D.State, temp: bool) {
    |s.dead| == 1 || (exclusive && (temp || D.SomeLive(s)))
  }

  lemma {:induction false} AskingAfter(net: nat -> D.Answer, exclusive: bool, s: D.State, temp: bool, name: string)
    requires Asking(exclusive, s, temp)
    ensures var (t, r) := D.QueryCandidate(net, s, name); Asking(exclusive, t, if r.Temp? then true else temp)
  {
    if |s.dead| != 1 && !D.QueryCandidate(net, s, name).1.Temp? { D.AnsweredLeavesLive(net, s, name); }
  }

  lemma {:induction false} GoDrops(net: nat -> D.Answer, c: Config, cands: seq<string>, s: D.State, temp: bool)
    requires Asking(c.policy.Exclusive?, s, temp) && cands != [] && !D.Encodable(cands[0])
    ensures GoWalk(net, c, cands, s, temp) == GoWalk(net, c, cands[1..], s, temp)
  {
    if !(temp && GoClosed(c, cands[0])) { D.UnencodableMisses(net, s, cands[0]); }
  }

  /** Two lists with the same head walk alike if what follows the head does. */
  lemma {:induction false} GoSameHead(net: nat -> D.Answer, c: Config, a: seq<string>, b: seq<string>, s: D.State,
                                      temp: bool)
    requires a != [] && b != [] && a[0] == b[0]
    requires GoWalk(net, c, a[1..], s, temp) == GoWalk(net, c, b[1..], s, temp) || !(temp && GoClosed(c, a[0]))
    requires var (t, r) := D.QueryCandidate(net, s, a[0]);
             var p := if r.Temp? then true else temp;
             (temp && GoClosed(c, a[0])) || GoWalk(net, c, a[1..], t, p) == GoWalk(net, c, b[1..], t, p)
    ensures GoWalk(net, c, a, s, temp) == GoWalk(net, c, b, s, temp)
  {
  }

  lemma {:induction false} GoKeeps(net: nat -> D.Answer, c: Config, cands: seq<string>, w: seq<string>, s: D.State,
                                   temp: bool)
    requires cands != [] && w == [cands[0]] + OnWire(cands[1..])
    requires GoWalk(net, c, cands[1..], s, temp) == GoWalk(net, c, OnWire(cands[1..]), s, temp)
    requires var (t, r) := D.QueryCandidate(net, s, cands[0]);
             var p := if r.Temp? then true else temp;
             GoWalk(net, c, cands[1..], t, p) == GoWalk(net, c, OnWire(cands[1..]), t, p)
    ensures GoWalk(net, c, cands, s, temp) == GoWalk(net, c, w, s, temp)
  {
    assert w[1..] == OnWire(cands[1..]);
    GoSameHead(net, c, cands, w, s, temp);
  }

  lemma {:induction false} GoSkips(net: nat -> D.Answer, c: Config, cands: seq<string>, s: D.State, temp: bool)
    requires Asking(c.policy.Exclusive?, s, temp)
    ensures GoWalk(net, c, cands, s, temp) == GoWalk(net, c, OnWire(cands), s, temp)
    decreases |cands|
  {
    if cands != [] {
      var rest := cands[1..];
      GoSkips(net, c, rest, s, temp);
      if D.Encodable(cands[0]) {
        AskingAfter(net, c.policy.Exclusive?, s, temp, cands[0]);
        var (t, r) := D.QueryCandidate(net, s, cands[0]);
        GoSkips(net, c, rest, t, if r.Temp? then true else temp);
        GoKeeps(net, c, cands, OnWire(cands), s, temp);
      } else {
        GoDrops(net, c, cands, s, temp);
        assert OnWire(cands) == OnWire(rest);
      }
    }
  }

  lemma {:induction false} ShimDrops(net: nat -> D.Answer, k: Shim, slots: seq<Slot>, s: D.State, temp: bool)
    requires Asking(k.exclusive, s, temp) && slots != [] && (slots[0].bad || !D.Encodable(slots[0].name))
    ensures ShimWalk(net, k, slots, s, temp) == ShimWalk(net, k, slots[1..], s, temp)
  {
    if !slots[0].bad && !(temp && ShimClosed(k, slots[0].name)) { D.UnencodableMisses(net, s, slots[0].name); }
  }

  lemma {:induction false} ShimSameHead(net: nat -> D.Answer, k: Shim, a: seq<Slot>, b: seq<Slot>, s: D.State,
                                        temp: bool)
    requires a != [] && b != [] && !a[0].bad && a[0] == b[0]
    requires ShimWalk(net, k, a[1..], s, temp) == ShimWalk(net, k, b[1..], s, temp)
             || !(temp && ShimClosed(k, a[0].name))
    requires var (t, r) := D.QueryCandidate(net, s, a[0].name);
             var p := if r.Temp? then true else temp;
             (temp && ShimClosed(k, a[0].name)) || ShimWalk(net, k, a[1..], t, p) == ShimWalk(net, k, b[1..], t, p)
    ensures ShimWalk(net, k, a, s, temp) == ShimWalk(net, k, b, s, temp)
  {
  }

  lemma {:induction false} ShimKeeps(net: nat -> D.Answer, k: Shim, slots: seq<Slot>, w: seq<Slot>, s: D.State,
                                     temp: bool)
    requires slots != [] && !slots[0].bad && w == [slots[0]] + Good(SlotsOnWire(slots[1..]))
    requires ShimWalk(net, k, slots[1..], s, temp) == ShimWalk(net, k, Good(SlotsOnWire(slots[1..])), s, temp)
    requires var (t, r) := D.QueryCandidate(net, s, slots[0].name);
             var p := if r.Temp? then true else temp;
             ShimWalk(net, k, slots[1..], t, p) == ShimWalk(net, k, Good(SlotsOnWire(slots[1..])), t, p)
    ensures ShimWalk(net, k, slots, s, temp) == ShimWalk(net, k, w, s, temp)
  {
    assert w[1..] == Good(SlotsOnWire(slots[1..]));
    ShimSameHead(net, k, slots, w, s, temp);
  }

  lemma {:induction false} ShimSkips(net: nat -> D.Answer, k: Shim, slots: seq<Slot>, s: D.State, temp: bool)
    requires Asking(k.exclusive, s, temp)
    ensures ShimWalk(net, k, slots, s, temp) == ShimWalk(net, k, Good(SlotsOnWire(slots)), s, temp)
    decreases |slots|
  {
    if slots != [] {
      var rest := slots[1..];
      ShimSkips(net, k, rest, s, temp);
      if slots[0].bad || !D.Encodable(slots[0].name) {
        ShimDrops(net, k, slots, s, temp);
        assert SlotsOnWire(slots) == SlotsOnWire(rest);
      } else {
        AskingAfter(net, k.exclusive, s, temp, slots[0].name);
        var (t, r) := D.QueryCandidate(net, s, slots[0].name);
        ShimSkips(net, k, rest, t, if r.Temp? then true else temp);
        ShimKeeps(net, k, slots, Good(SlotsOnWire(slots)), s, temp);
      }
    }
  }

  // ---- the same names in the same classes suffice ----

  predicate SameClasses(c: Config, k: Shim, names: seq<string>) {
    forall x <- names :: GoClosed(c, x) == ShimClosed(k, x)
  }

  lemma {:induction false} SameWalk(net: nat -> D.Answer, c: Config, k: Shim, names: seq<string>, s: D.State,
                                    temp: bool)
    requires SameClasses(c, k, names)
    ensures GoWalk(net, c, names, s, temp).0 == ShimWalk(net, k, Good(names), s, temp).0
    ensures Matching(GoWalk(net, c, names, s, temp).1, ShimWalk(net, k, Good(names), s, temp).1)
    decreases |names|
  {
    if names != [] {
      var x, rest := names[0], names[1..];
      assert x in names && Good(names)[1..] == Good(rest);
      var (t, r) := D.QueryCandidate(net, s, x);
      if temp && GoClosed(c, x) {
        SameWalk(net, c, k, rest, s, temp);
      } else if r.Missed? {
        SameWalk(net, c, k, rest, t, temp);
      } else if r.Temp? && GoClosed(c, x) {
        SameWalk(net, c, k, rest, t, true);
      }
    }
  }

  // ---- and are needed: a network on which every name misses ----

  function Asks(names: seq<string>): (r: seq<D.Query>)
    ensures |r| == |names| && forall i :: 0 <= i < |names| ==> r[i] == D.Query(0, names[i])
  {
    seq(|names|, i requires 0 <= i < |names| => D.Query(0, names[i]))
  }

  function Sent(s: D.State, names: seq<string>): D.State { s.(sent := s.sent + Asks(names)) }

  lemma {:induction false} SentCons(s: D.State, names: seq<string>)
    requires names != []
    ensures Sent(s, names) == Sent(s.(sent := s.sent + [D.Query(0, names[0])]), names[1..])
  {
    assert Asks(names) == [D.Query(0, names[0])] + Asks(names[1..]);
    Associative(s.sent, [D.Query(0, names[0])], Asks(names[1..]));
  }

  lemma {:induction false} MissOne(net: nat -> D.Answer, s: D.State, name: string)
    requires D.Encodable(name) && s.dead != [] && !s.dead[0] && net(|s.sent|) == D.Miss
    ensures D.QueryCandidate(net, s, name) == (s.(sent := s.sent + [D.Query(0, name)]), D.Missed)
  {
    if |s.dead| != 1 {
      assert D.SweepFrom(net, s, name, 0, false).outcome == Some(D.Missed);
    }
  }

  /** The first |names| answers from state s on are misses. */
  predicate MissesFor(net: nat -> D.Answer, s: D.State, names: seq<string>) {
    s.dead != [] && !s.dead[0] && forall q: nat :: |s.sent| <= q < |s.sent| + |names| ==> net(q) == D.Miss
  }

  lemma {:induction false} GoMisses(net: nat -> D.Answer, c: Config, all: seq<string>, n: nat, s: D.State)
    requires n <= |all| && MissesFor(net, s, all[..n]) && forall x <- all[..n] :: D.Encodable(x)
    ensures GoWalk(net, c, all, s, false) == GoWalk(net, c, all[n..], Sent(s, all[..n]), false)
    decreases n
  {
    if n == 0 {
      assert all[n..] == all && Sent(s, all[..n]) == s;
    } else {
      var rest := all[1..];
      assert all[..n][0] == all[0] && all[..n][1..] == rest[..n - 1] && rest[n - 1..] == all[n..];
      MissOne(net, s, all[0]);
      SentCons(s, all[..n]);
      GoMisses(net, c, rest, n - 1, s.(sent := s.sent + [D.Query(0, all[0])]));
    }
  }

  lemma {:induction false} ShimMisses(net: nat -> D.Answer, k: Shim, all: seq<string>, n: nat, s: D.State)
    requires n <= |all| && MissesFor(net, s, all[..n]) && forall x <- all[..n] :: D.Encodable(x)
    ensures ShimWalk(net, k, Good(all), s, false) == ShimWalk(net, k, Good(all[n..]), Sent(s, all[..n]), false)
    decreases n
  {
    if n == 0 {
      assert all[n..] == all && Sent(s, all[..n]) == s;
    } else {
      var rest := all[1..];
      assert all[..n][0] == all[0] && all[..n][1..] == rest[..n - 1] && rest[n - 1..] == all[n..];
      assert Good(all)[1..] == Good(rest);
      MissOne(net, s, all[0]);
      SentCons(s, all[..n]);
      ShimMisses(net, k, rest, n - 1, s.(sent := s.sent + [D.Query(0, all[0])]));
    }
  }

  /** The servers and the mode survive the environment. */
  predicate Served(c: Config, k: Shim) {
    && k.exclusive == c.policy.Exclusive? && k.servers == Servers(c) && k.servers != []
    && (!k.exclusive ==> |k.servers| == 1)
  }

  /** Different queries, or verdicts that do not match. */
  predicate Parted(g: (D.State, GoVerdict), w: (D.State, ShimVerdict)) {
    g.0.sent != w.0.sent || !Matching(g.1, w.1)
  }

  predicate Agree(net: nat -> D.Answer, c: Config, k: Shim, name: string) {
    !Parted(GoLookup(net, c, name), ShimLookup(net, k, name))
  }

  lemma {:induction false} LookupsOnWire(net: nat -> D.Answer, c: Config, k: Shim, name: string)
    requires Served(c, k)
    ensures var s := Fresh(|k.servers|);
            && GoLookup(net, c, name) == GoWalk(net, c, GoWire(c, name), s, false)
            && ShimLookup(net, k, name) == ShimWalk(net, k, Good(ShimWire(k, name)), s, false)
  {
    var s := Fresh(|k.servers|);
    assert !s.dead[0];
    GoSkips(net, c, GoCandidates(c, name), s, false);
    ShimSkips(net, k, ShimCandidates(k, name), s, false);
  }

  const NOBODY: nat -> D.Answer := (q: nat) => D.Miss

  /** A network on which nothing exists gets each engine's whole list. */
  lemma {:induction false} NobodySeesAll(c: Config, k: Shim, name: string)
    requires Served(c, k)
    ensures GoLookup(NOBODY, c, name) == (Sent(Fresh(|k.servers|), GoWire(c, name)), ErrNotFound)
    ensures ShimLookup(NOBODY, k, name).0 == Sent(Fresh(|k.servers|), ShimWire(k, name))
    ensures GoLookup(NOBODY, c, name).0.sent == Asks(GoWire(c, name))
    ensures ShimLookup(NOBODY, k, name).0.sent == Asks(ShimWire(k, name))
  {
    var s, g, w := Fresh(|k.servers|), GoWire(c, name), ShimWire(k, name);
    LookupsOnWire(NOBODY, c, k, name);
    assert !s.dead[0];
    assert g[..|g|] == g && w[..|w|] == w;
    GoMisses(NOBODY, c, g, |g|, s);
    ShimMisses(NOBODY, k, w, |w|, s);
    assert [] + Asks(g) == Asks(g) && [] + Asks(w) == Asks(w);
  }

  lemma {:induction false} AsksInjective(g: seq<string>, w: seq<string>)
    ensures Asks(g) == Asks(w) ==> g == w
  {
    if Asks(g) == Asks(w) {
      forall i | 0 <= i < |g| ensures g[i] == w[i] { assert Asks(g)[i] == Asks(w)[i]; }
    }
  }

  lemma {:induction false} SameNamesNeeded(c: Config, k: Shim, name: string)
    requires Served(c, k)
    ensures Agree(NOBODY, c, k, name) ==> GoWire(c, name) == ShimWire(k, name)
  {
    NobodySeesAll(c, k, name);
    AsksInjective(GoWire(c, name), ShimWire(k, name));
  }

  // ---- and a network that goes silent at one name ----

  function SilentFrom(n: nat): nat -> D.Answer { (q: nat) => if q < n then D.Miss else D.Soft }

  lemma {:induction false} SoftOne(net: nat -> D.Answer, s: D.State, name: string)
    requires D.Encodable(name) && |s.dead| == 1 && net(|s.sent|) == D.Soft && net(|s.sent| + 1) == D.Soft
    ensures var (t, r) := D.QueryCandidate(net, s, name);
            r == D.Temp && |t.dead| == 1 && |t.sent| == |s.sent| + 2
  {
    var t := D.Ask(net, s, 0, name).0;
    var u := D.Ask(net, t, 0, name).0;
    assert D.Single(net, u, name, 2) == (u, D.Temp);
    assert D.Single(net, t, name, 1) == D.Single(net, u, name, 2);
  }

  ghost predicate SoftAfter(net: nat -> D.Answer, s: D.State) {
    |s.dead| == 1 && forall q: nat :: |s.sent| <= q ==> net(q) == D.Soft
  }

  /** Once a candidate failed closed, a silent server leaves a temporary failure, or one
      more external candidate is asked. */
  lemma {:induction false} GoSilent(net: nat -> D.Answer, c: Config, names: seq<string>, s: D.State)
    requires SoftAfter(net, s) && forall x <- names :: D.Encodable(x)
    ensures var (t, v) := GoWalk(net, c, names, s, true); v == ErrTempFail || |t.sent| > |s.sent|
    decreases |names|
  {
    if names != [] {
      assert names[0] in names;
      if GoClosed(c, names[0]) { GoSilent(net, c, names[1..], s); } else { SoftOne(net, s, names[0]); }
    }
  }

  lemma {:induction false} ShimSilent(net: nat -> D.Answer, k: Shim, names: seq<string>, s: D.State)
    requires SoftAfter(net, s) && forall x <- names :: D.Encodable(x)
    ensures var (t, v) := ShimWalk(net, k, Good(names), s, true); v == Again || |t.sent| > |s.sent|
    decreases |names|
  {
    if names != [] {
      assert names[0] in names && Good(names)[1..] == Good(names[1..]);
      if ShimClosed(k, names[0]) { ShimSilent(net, k, names[1..], s); } else { SoftOne(net, s, names[0]); }
    }
  }

  /** Each engine past a head that stays undecided: on, or out. */
  lemma {:induction false} GoPastHead(net: nat -> D.Answer, c: Config, names: seq<string>, s: D.State)
    requires names != [] && D.QueryCandidate(net, s, names[0]).1 == D.Temp
    ensures var t := D.QueryCandidate(net, s, names[0]).0;
            GoWalk(net, c, names, s, false)
            == if GoClosed(c, names[0]) then GoWalk(net, c, names[1..], t, true) else (t, ErrNotFound)
  {
  }

  lemma {:induction false} ShimPastHead(net: nat -> D.Answer, k: Shim, names: seq<string>, s: D.State)
    requires names != [] && D.QueryCandidate(net, s, names[0]).1 == D.Temp
    ensures var t := D.QueryCandidate(net, s, names[0]).0;
            ShimWalk(net, k, Good(names), s, false)
            == if ShimClosed(k, names[0]) then ShimWalk(net, k, Good(names[1..]), t, true) else (t, Host)
  {
    assert Good(names)[1..] == Good(names[1..]);
  }

  /** One engine fails closed on the head and the other falls through. */
  lemma {:induction false} HeadPartsGo(g: (D.State, GoVerdict), t: D.State)
    requires g.1 == ErrTempFail || |g.0.sent| > |t.sent|
    ensures Parted(g, (t, Host))
  {
  }

  lemma {:induction false} HeadPartsShim(w: (D.State, ShimVerdict), t: D.State)
    requires w.1 == Again || |w.0.sent| > |t.sent|
    ensures Parted((t, ErrNotFound), w)
  {
  }

  lemma {:induction false} HeadParts(net: nat -> D.Answer, c: Config, k: Shim, names: seq<string>, s: D.State)
    requires SoftAfter(net, s) && names != [] && (forall x <- names :: D.Encodable(x))
    requires GoClosed(c, names[0]) != ShimClosed(k, names[0])
    ensures Parted(GoWalk(net, c, names, s, false), ShimWalk(net, k, Good(names), s, false))
  {
    assert names[0] in names;
    SoftOne(net, s, names[0]);
    var t := D.QueryCandidate(net, s, names[0]).0;
    GoPastHead(net, c, names, s);
    ShimPastHead(net, k, names, s);
    if GoClosed(c, names[0]) {
      GoSilent(net, c, names[1..], t);
      HeadPartsGo(GoWalk(net, c, names[1..], t, true), t);
    } else {
      ShimSilent(net, k, names[1..], t);
      HeadPartsShim(ShimWalk(net, k, Good(names[1..]), t, true), t);
    }
  }

  lemma {:induction false} MissedUpTo(names: seq<string>, i: nat)
    requires i <= |names|
    ensures MissesFor(SilentFrom(i), Fresh(1), names[..i]) && SoftAfter(SilentFrom(i), Sent(Fresh(1), names[..i]))
  {
    assert Fresh(1).dead == [false];
  }

  /** Both lookups come to the i-th name with everything before it missed. */
  lemma {:induction false} ReachesSilence(c: Config, k: Shim, name: string, i: nat)
    requires Served(c, k) && |k.servers| == 1 && GoWire(c, name) == ShimWire(k, name) && i <= |GoWire(c, name)|
    ensures var net, g := SilentFrom(i), GoWire(c, name);
            var s := Sent(Fresh(1), g[..i]);
            && GoLookup(net, c, name) == GoWalk(net, c, g[i..], s, false)
            && ShimLookup(net, k, name) == ShimWalk(net, k, Good(g[i..]), s, false)
  {
    var g := GoWire(c, name);
    LookupsOnWire(SilentFrom(i), c, k, name);
    MissedUpTo(g, i);
    assert forall x <- g[..i] :: x in g;
    GoMisses(SilentFrom(i), c, g, i, Fresh(1));
    ShimMisses(SilentFrom(i), k, g, i, Fresh(1));
  }

  lemma {:induction false} SameClassesNeeded(c: Config, k: Shim, name: string, i: nat)
    requires Served(c, k) && GoWire(c, name) == ShimWire(k, name) && i < |GoWire(c, name)|
    requires GoClosed(c, GoWire(c, name)[i]) != ShimClosed(k, GoWire(c, name)[i])
    ensures !Agree(SilentFrom(i), c, k, name)
  {
    var g := GoWire(c, name);
    ReachesSilence(c, k, name, i);
    MissedUpTo(g, i);
    assert forall x <- g[i..] :: x in g;
    HeadParts(SilentFrom(i), c, k, g[i..], Sent(Fresh(1), g[..i]));
  }

  // ---- exactly ----

  /** On every network the engines send the same queries in the same order and reach
      matching verdicts, exactly when they put the same names on the wire in the same
      order and class each alike. */
  lemma {:induction false} AgreeExactly(c: Config, k: Shim, name: string)
    requires Served(c, k)
    ensures (forall net :: Agree(net, c, k, name))
            <==> GoWire(c, name) == ShimWire(k, name) && SameClasses(c, k, GoWire(c, name))
  {
    if GoWire(c, name) == ShimWire(k, name) && SameClasses(c, k, GoWire(c, name)) {
      forall net ensures Agree(net, c, k, name) {
        LookupsOnWire(net, c, k, name);
        SameWalk(net, c, k, GoWire(c, name), Fresh(|k.servers|), false);
      }
    } else if forall net :: Agree(net, c, k, name) {
      assert Agree(NOBODY, c, k, name);
      SameNamesNeeded(c, k, name);
      var x :| x in GoWire(c, name) && GoClosed(c, x) != ShimClosed(k, x);
      var i :| 0 <= i < |GoWire(c, name)| && GoWire(c, name)[i] == x;
      SameClassesNeeded(c, k, name, i);
      assert false;
    }
  }
}
