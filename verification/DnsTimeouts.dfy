/** What an unreachable nameserver costs one lookup (pkg/dns/resolver.go:293-325;
    shim/getaddrinfo_shim.c:1140-1174): with several servers each is waited for at most
    once, however many candidates the name expands to. */
module DnsTimeouts {
  import opened DnsConfig
  import opened DnsLookup
  import D = DnsServers

  /** How often server j failed to answer a query sent to it. */
  function Timeouts(net: nat -> D.Answer, sent: seq<D.Query>, j: nat): nat {
    if sent == [] then 0
    else
      var n := |sent| - 1;
      Timeouts(net, sent[..n], j) + if sent[n].server == j && net(n).Transport? then 1 else 0
  }

  /** The memo counts them: one for a dead server, none for a live one. */
  predicate Counted(net: nat -> D.Answer, s: D.State, j: nat) {
    j < |s.dead| && Timeouts(net, s.sent, j) == if s.dead[j] then 1 else 0
  }

  lemma {:induction false} TimeoutsSnoc(net: nat -> D.Answer, sent: seq<D.Query>, q: D.Query, j: nat)
    ensures Timeouts(net, sent + [q], j)
            == Timeouts(net, sent, j) + if q.server == j && net(|sent|).Transport? then 1 else 0
  {
    assert (sent + [q])[..|sent|] == sent;
  }

  lemma {:induction false} SentCounts(net: nat -> D.Answer, s: D.State, q: D.Query, j: nat)
    requires q.server < |s.dead| && !s.dead[q.server] && Counted(net, s, j)
    ensures var t := s.(sent := s.sent + [q]);
            && Counted(net, D.Mark(t, q.server, net(|s.sent|)), j)
            && (D.Decided(net(|s.sent|)).Some? ==> Counted(net, t, j))
  {
    TimeoutsSnoc(net, s.sent, q, j);
  }

  lemma {:induction false} AskCounts(net: nat -> D.Answer, s: D.State, i: nat, name: string, j: nat)
    requires i < |s.dead| && !s.dead[i] && Counted(net, s, j)
    ensures var (t, a) := D.Ask(net, s, i, name);
            if D.Decided(a).Some? then Counted(net, t, j) else Counted(net, D.Mark(t, i, a), j)
  {
    if D.Encodable(name) { SentCounts(net, s, D.Query(i, name), j); }
  }

  lemma {:induction false} SweepCounts(net: nat -> D.Answer, s: D.State, name: string, i: nat, live: bool, j: nat)
    requires i <= |s.dead| && Counted(net, s, j)
    ensures Counted(net, D.SweepFrom(net, s, name, i, live).s, j)
    decreases |s.dead| - i
  {
    if i < |s.dead| {
      if s.dead[i] {
        SweepCounts(net, s, name, i + 1, live, j);
      } else {
        AskCounts(net, s, i, name, j);
        var (t, a) := D.Ask(net, s, i, name);
        if D.Decided(a).None? { SweepCounts(net, D.Mark(t, i, a), name, i + 1, true, j); }
      }
    }
  }

  lemma {:induction false} RoundsCount(net: nat -> D.Answer, s: D.State, name: string, attempt: nat, j: nat)
    requires attempt <= D.ATTEMPTS && Counted(net, s, j)
    ensures Counted(net, D.Rounds(net, s, name, attempt).0, j)
    decreases D.ATTEMPTS - attempt
  {
    if attempt < D.ATTEMPTS {
      SweepCounts(net, s, name, 0, false, j);
      var w := D.SweepFrom(net, s, name, 0, false);
      if w.outcome.None? && w.live { RoundsCount(net, w.s, name, attempt + 1, j); }
    }
  }

  lemma {:induction false} GoWalkCounts(net: nat -> D.Answer, c: Config, cands: seq<string>, s: D.State, temp: bool,
                                        j: nat)
    requires |s.dead| != 1 && Counted(net, s, j)
    ensures Counted(net, GoWalk(net, c, cands, s, temp).0, j)
    decreases |cands|
  {
    if cands != [] {
      if temp && GoClosed(c, cands[0]) {
        GoWalkCounts(net, c, cands[1..], s, temp, j);
      } else {
        RoundsCount(net, s, cands[0], 0, j);
        var (t, r) := D.QueryCandidate(net, s, cands[0]);
        if r.Missed? { GoWalkCounts(net, c, cands[1..], t, temp, j); }
        if r.Temp? { GoWalkCounts(net, c, cands[1..], t, true, j); }
      }
    }
  }

  lemma {:induction false} ShimWalkCounts(net: nat -> D.Answer, c: Shim, slots: seq<Slot>, s: D.State, temp: bool,
                                          j: nat)
    requires |s.dead| != 1 && Counted(net, s, j)
    ensures Counted(net, ShimWalk(net, c, slots, s, temp).0, j)
    decreases |slots|
  {
    if slots != [] {
      if slots[0].bad || (temp && ShimClosed(c, slots[0].name)) {
        ShimWalkCounts(net, c, slots[1..], s, temp, j);
      } else {
        RoundsCount(net, s, slots[0].name, 0, j);
        var (t, r) := D.QueryCandidate(net, s, slots[0].name);
        if r.Missed? { ShimWalkCounts(net, c, slots[1..], t, temp, j); }
        if r.Temp? { ShimWalkCounts(net, c, slots[1..], t, true, j); }
      }
    }
  }

  /** Either engine, any name, any stream of answers: with several servers, no server is
      waited for twice in one lookup. */
  lemma {:induction false} EachServerTimesOutOnce(net: nat -> D.Answer, c: Config, k: Shim, name: string, j: nat)
    requires |Servers(c)| > 1 && |k.servers| > 1 && j < |Servers(c)| && j < |k.servers|
    ensures Timeouts(net, GoLookup(net, c, name).0.sent, j) <= 1
    ensures Timeouts(net, ShimLookup(net, k, name).0.sent, j) <= 1
  {
    GoWalkCounts(net, c, GoCandidates(c, name), Fresh(|Servers(c)|), false, j);
    ShimWalkCounts(net, k, ShimCandidates(k, name), Fresh(|k.servers|), false, j);
  }
}
