/** The daemon's view of the executor (pkg/netd/server.go:658-703, pkg/netd/applier.go:
    292-319, 429-469): each alias request, as the identity runs take it, does to lo0 and
    reports what the executor's commands do. */
module NetdExecutor {
  import opened Text
  import opened Inet
  import I = NetdIdentity
  import C = NetdCommands
  import A = NetdApplier

  /** The daemon and the executor serve the same /24, agree whether the mesh is up, and
      see the same lo0. */
  ghost predicate Matches(t: I.State, s: C.State) {
    && t.node.Ok() && t.node.bits == 24 && t.node.addr == s.base && s.base % 256 == 0
    && t.execUp == s.meshUp && forall ip: IPv4 :: ip in t.lo0 <==> ip in s.lo0
  }

  lemma {:induction false} SpanOf24(p: Prefix)
    requires p.bits == 24
    ensures p.Span() == 256
  {
    assert Pow2(8) == 2 * Pow2(7) == 4 * Pow2(6) == 8 * Pow2(5) == 16 * Pow2(4);
  }

  lemma {:induction false} SamePods(t: I.State, s: C.State, ip: IPv4)
    requires Matches(t, s)
    ensures I.IsPod(t.node, ip) <==> C.IsPod(s.base, ip)
  {
    SpanOf24(t.node);
  }

  function Answered(a: I.Plumbing): A.EnsureAnswers { A.EnsureAnswers(a.cleared, a.aliased, a.utunAliased) }

  lemma {:induction false} EnsureOnLo0(s: C.State, ip: nat, a: A.EnsureAnswers)
    ensures var u := A.Next(s, A.EnsureAlias(ip, a));
            && u.base == s.base && u.meshUp == s.meshUp
            && u.lo0 == if a.aliased && (C.IsPod(s.base, ip) ==> a.cleared) then s.lo0 + {ip} else s.lo0
  {
    A.AfterEnsure(s, ip);
    A.AfterTwo(s, C.Alias(ip), C.Track(ip, C.Live));
  }

  /** An admitted ensure reports and leaves on lo0 what the executor's commands do: it gets
      past lo0 and still fails only at the utun of a mesh that is up. */
  lemma {:induction false} EnsureIsTheExecutors(c: I.Config, t: I.State, s: C.State, ip: IPv4, a: I.Plumbing)
    requires I.WellFormed(c) && Matches(t, s) && I.AliasAdmitted(c, t.node, ip)
    ensures Matches(I.EnsuredAlias(c, t, ip, a), A.Next(s, A.EnsureAlias(ip, Answered(a))))
    ensures I.Plumbs(t, ip, a) <==> A.EnsureOk(s, ip, Answered(a))
  {
    SamePods(t, s, ip);
    EnsureOnLo0(s, ip, Answered(a));
  }

  lemma {:induction false} RemoveOnLo0(s: C.State, ip: nat, a: A.RemoveAnswers)
    requires C.Inv(s) && A.Legal(s, A.RemoveAlias(ip, a))
    ensures var u := A.Next(s, A.RemoveAlias(ip, a));
            u.base == s.base && u.meshUp == s.meshUp && u.lo0 == s.lo0 - {ip}
  {
    var first, second := A.UnaliasCmds(s, ip, a), A.BlackholeCmds(s, ip, a);
    UnaliasOnLo0(s, ip, a);
    A.AfterAppend(s, first, second);
    BlackholeSpares(s, ip, a);
    KeepsLo0(C.After(s, first), second);
  }

  lemma {:induction false} BlackholeSpares(s: C.State, ip: nat, a: A.RemoveAnswers)
    ensures forall d <- A.BlackholeCmds(s, ip, a) :: Spares(d)
  {
  }

  lemma {:induction false} UnaliasOnLo0(s: C.State, ip: nat, a: A.RemoveAnswers)
    requires C.Inv(s) && A.Legal(s, A.RemoveAlias(ip, a))
    ensures var u := C.After(s, A.UnaliasCmds(s, ip, a));
            u.base == s.base && u.meshUp == s.meshUp && u.lo0 == s.lo0 - {ip}
  {
    var first := if C.IsPod(s.base, ip) && s.meshUp && a.utunFound then [C.UtunUnalias(ip)] else [];
    A.AfterOne(s, C.UtunUnalias(ip));
    A.AfterAppend(s, first, if !A.IsPending(s, ip) && a.found then [C.Unalias(ip)] else []);
    A.AfterOne(C.After(s, first), C.Unalias(ip));
    assert ip !in s.lo0 ==> s.lo0 - {ip} == s.lo0;
  }

  predicate Spares(d: C.Cmd) { d.Count? || d.Uncount? || d.Clear? || d.Install? || d.Track? || d.Untrack? }

  lemma {:induction false} KeepsLo0(s: C.State, cs: seq<C.Cmd>)
    requires forall d <- cs :: Spares(d)
    ensures C.After(s, cs).lo0 == s.lo0 && C.After(s, cs).base == s.base && C.After(s, cs).meshUp == s.meshUp
    decreases |cs|
  {
    if cs != [] {
      var n := |cs| - 1;
      assert cs[n] in cs && Spares(cs[n]);
      KeepsLo0(s, cs[..n]);
    }
  }

  /** An admitted removal likewise: whatever it reports, the address is off lo0. */
  lemma {:induction false} RemoveIsTheExecutors(c: I.Config, t: I.State, s: C.State, ip: IPv4, a: A.RemoveAnswers)
    requires I.WellFormed(c) && Matches(t, s) && I.AliasAdmitted(c, t.node, ip)
    requires C.Inv(s) && A.Legal(s, A.RemoveAlias(ip, a))
    ensures var r := if A.RemoveOk(s, ip, a) then I.Removed else I.Failed(false);
            Matches(I.RemovedAlias(c, t, ip, r), A.Next(s, A.RemoveAlias(ip, a)))
  {
    RemoveOnLo0(s, ip, a);
  }
}
