/** The two engines' own loops (pkg/dns/expand.go:41-95; pkg/dns/resolver.go:187-241;
    shim/getaddrinfo_shim.c:394-431, 1381-1508), each proved to be its lookup. */
module DnsEngines {
  import opened Text
  import opened DnsConfig
  import opened DnsLookup
  import D = DnsServers

  // ---- Go ----

  lemma {:induction false} DedupeStep(s: seq<string>, i: nat)
    requires i < |s|
    ensures Dedupe(s[..i + 1]) == if s[i] in s[..i] then Dedupe(s[..i]) else Dedupe(s[..i]) + [s[i]]
  {
    assert s[..i + 1][..i] == s[..i];
  }

  /** dedupe compacts its slice in place: the result is the first `n` elements. */
  method DedupeInPlace(a: array<string>) returns (n: nat)
    modifies a
    ensures n <= a.Length && a[..n] == Dedupe(old(a[..]))
  {
    var seen: set<string> := {};
    ghost var was := a[..];
    n := 0;
    for i := 0 to a.Length
      invariant n <= i && a[..n] == Dedupe(was[..i]) && a[i..] == was[i..]
      invariant forall x :: x in seen <==> x in was[..i]
    {
      DedupeStep(was, i);
      assert a[i] == was[i] && was[..i + 1] == was[..i] + [was[i]];
      assert a[i + 1..] == was[i + 1..];
      if a[i] !in seen {
        seen := seen + {a[i]};
        ghost var front := a[..n];
        a[n] := a[i];
        assert a[..n] == front && a[..n + 1] == front + [was[i]];
        n := n + 1;
      }
    }
    assert was[..a.Length] == was;
  }

  method StripAll(search: seq<string>) returns (ds: seq<string>)
    ensures ds == Suffixes(search)
  {
    ds := [];
    var i := 0;
    while i < |search|
      invariant 0 <= i <= |search| && ds + Suffixes(search[i..]) == Suffixes(search)
    {
      var d := StripDot(search[i]);
      assert search[i..][1..] == search[i + 1..];
      if d != "" { ds := ds + [d]; }
      i := i + 1;
    }
    assert search[|search|..] == [];
  }

  method SuffixAll(name: string, ds: seq<string>) returns (searched: seq<string>)
    ensures searched == Suffixed(name, ds)
  {
    searched := [];
    for i := 0 to |ds|
      invariant |searched| == i && forall j :: 0 <= j < i ==> searched[j] == name + "." + ds[j]
    {
      searched := searched + [name + "." + ds[i]];
    }
  }

  method DedupeList(s: seq<string>) returns (r: seq<string>)
    ensures r == Dedupe(s)
  {
    var a := new string[|s|](i requires 0 <= i < |s| => s[i]);
    assert a[..] == s;
    var n := DedupeInPlace(a);
    r := a[..n];
  }

  /** candidateNames. */
  method CandidateNames(c: Config, query: string) returns (r: seq<string>)
    ensures r == GoCandidates(c, query)
  {
    var name := Trim(query);
    if name == "" { return []; }
    if Absolute(name) { return [StripDot(name)]; }
    var ds := StripAll(Normalize(c.search));
    var searched := SuffixAll(name, ds);
    r := DedupeList(if Dots(name) >= c.ndots then [name] + searched else searched + [name]);
  }

  /** LookupHost. */
  method LookupHost(net: nat -> D.Answer, c: Config, name: string) returns (sent: seq<D.Query>, v: GoVerdict)
    ensures (sent, v) == (GoLookup(net, c, name).0.sent, GoLookup(net, c, name).1)
  {
    var cands := CandidateNames(c, name);
    var dead := new bool[|Servers(c)|](_ => false);
    var temp := false;
    sent := [];
    assert dead[..] == Fresh(|Servers(c)|).dead;
    for i := 0 to |cands|
      invariant GoLookup(net, c, name) == GoWalk(net, c, cands[i..], D.State(sent, dead[..]), temp)
    {
      assert cands[i..][1..] == cands[i + 1..];
      if temp && GoClosed(c, cands[i]) { continue; }
      var r;
      sent, r := D.GoQueryCandidate(net, sent, cands[i], dead);
      if r.Temp? {
        if GoClosed(c, cands[i]) {
          temp := true;
          continue;
        }
        return sent, ErrNotFound;
      }
      if r.Found? { return sent, Addrs(r.first, r.rest); }
    }
    v := if temp then ErrTempFail else ErrNotFound;
  }

  // ---- the shim ----

  /** Fills slot n from the full name: the length is judged before the bytes are cut. */
  method Put(out: array<string>, bad: array<bool>, n: nat, full: string)
    requires n < out.Length == bad.Length
    modifies out, bad
    ensures Slot(out[n], bad[n]) == Stored(full)
    ensures forall j :: 0 <= j < out.Length && j != n ==> out[j] == old(out[j]) && bad[j] == old(bad[j])
  {
    bad[n] := |full| > D.MAX_NAME_LEN;
    out[n] := Cap(full, NAME_CAP);
  }

  method PutSearch(c: Shim, name: string, out: array<string>, bad: array<bool>, from: nat) returns (n: nat)
    requires out.Length == bad.Length && from + |c.search| <= out.Length
    modifies out, bad
    ensures n == from + |c.search|
    ensures forall j :: 0 <= j < |c.search| ==>
              Slot(out[from + j], bad[from + j]) == StoredAll(Suffixed(name, c.search))[j]
    ensures forall j :: 0 <= j < from ==> out[j] == old(out[j]) && bad[j] == old(bad[j])
  {
    ghost var searched := StoredAll(Suffixed(name, c.search));
    n := from;
    for i := 0 to |c.search|
      invariant n == from + i
      invariant forall j :: 0 <= j < i ==> Slot(out[from + j], bad[from + j]) == searched[j]
      invariant forall j :: 0 <= j < from ==> out[j] == old(out[j]) && bad[j] == old(bad[j])
    {
      Put(out, bad, n, name + "." + c.search[i]);
      n := n + 1;
    }
  }

  /** The tables hold these slots. */
  predicate Tables(out: seq<string>, bad: seq<bool>, slots: seq<Slot>) {
    |slots| <= |out| == |bad| && forall i :: 0 <= i < |slots| ==> out[i] == slots[i].name && bad[i] == slots[i].bad
  }

  lemma {:induction false} TablesCons(out: seq<string>, bad: seq<bool>, first: Slot, rest: seq<Slot>)
    requires |out| == |bad| == 1 + |rest| && Slot(out[0], bad[0]) == first
    requires forall j :: 0 <= j < |rest| ==> Slot(out[1 + j], bad[1 + j]) == rest[j]
    ensures Tables(out, bad, [first] + rest)
  {
    forall i | 1 <= i <= |rest| ensures Slot(out[i], bad[i]) == ([first] + rest)[i] {
      assert Slot(out[1 + (i - 1)], bad[1 + (i - 1)]) == rest[i - 1];
    }
  }

  method AbsoluteFirst(c: Shim, name: string, out: array<string>, bad: array<bool>) returns (n: nat)
    requires out.Length == bad.Length == |c.search| + 1
    modifies out, bad
    ensures n == |c.search| + 1 && Tables(out[..], bad[..], [Stored(name)] + StoredAll(Suffixed(name, c.search)))
  {
    ghost var searched := StoredAll(Suffixed(name, c.search));
    Put(out, bad, 0, name);
    n := PutSearch(c, name, out, bad, 1);
    TablesCons(out[..], bad[..], Stored(name), searched);
  }

  method SearchFirst(c: Shim, name: string, out: array<string>, bad: array<bool>) returns (n: nat)
    requires out.Length == bad.Length == |c.search| + 1
    modifies out, bad
    ensures n == |c.search| + 1 && Tables(out[..], bad[..], StoredAll(Suffixed(name, c.search)) + [Stored(name)])
  {
    ghost var searched := StoredAll(Suffixed(name, c.search));
    n := PutSearch(c, name, out, bad, 0);
    forall i | 0 <= i < n ensures Slot(out[i], bad[i]) == searched[i] {
      assert Slot(out[0 + i], bad[0 + i]) == searched[i];
    }
    Put(out, bad, n, name);
    n := n + 1;
  }

  /** k3sm_candidates, writing into its fixed tables. */
  method Candidates(c: Shim, name: string, out: array<string>, bad: array<bool>) returns (n: nat)
    requires out.Length == bad.Length == |c.search| + 1
    modifies out, bad
    ensures n == |ShimCandidates(c, name)| && Tables(out[..], bad[..], ShimCandidates(c, name))
  {
    if Absolute(name) {
      Put(out, bad, 0, name[..|name| - 1]);
      n := 1;
    } else if CountDots(name) >= c.ndots {
      n := AbsoluteFirst(c, name, out, bad);
    } else {
      n := SearchFirst(c, name, out, bad);
    }
  }

  /** The candidate walk of k3sm_getaddrinfo. */
  method Resolve(net: nat -> D.Answer, c: Shim, name: string) returns (sent: seq<D.Query>, v: ShimVerdict)
    ensures (sent, v) == (ShimLookup(net, c, name).0.sent, ShimLookup(net, c, name).1)
  {
    var out, bad := new string[|c.search| + 1], new bool[|c.search| + 1];
    var n := Candidates(c, name, out, bad);
    ghost var slots := ShimCandidates(c, name);
    var dead := new bool[|c.servers|](_ => false);
    var temp := false;
    sent := [];
    assert dead[..] == Fresh(|c.servers|).dead;
    for i := 0 to n
      invariant n == |slots| && Tables(out[..], bad[..], slots)
      invariant ShimLookup(net, c, name) == ShimWalk(net, c, slots[i..], D.State(sent, dead[..]), temp)
    {
      assert slots[i..][1..] == slots[i + 1..] && slots[i] == Slot(out[i], bad[i]);
      if bad[i] { continue; }
      if temp && ShimClosed(c, out[i]) { continue; }
      var rc;
      sent, rc := D.ShimQueryCandidate(net, sent, out[i], dead);
      if rc.Found? { return sent, Result(rc.first); }
      if rc.Temp? {
        if ShimClosed(c, out[i]) {
          temp := true;
          continue;
        }
        return sent, Host;
      }
    }
    v := if temp then Again else if c.exclusive then NoName else Host;
  }
}
