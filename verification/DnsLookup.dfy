/** One name looked up by both engines (pkg/dns/resolver.go:187-281; pkg/dns/expand.go:
    41-95; shim/getaddrinfo_shim.c:394-495, 1381-1508): candidate expansion, the
    fail-closed decision and the candidate walk, in Go and in C. */
module DnsLookup {
  import opened Text
  import opened DnsConfig
  import D = DnsServers

  // ---- candidates ----

  function Dots(s: string): nat { if s == [] then 0 else (if s[0] == '.' then 1 else 0) + Dots(s[1..]) }

  function Suffixed(name: string, ds: seq<string>): (r: seq<string>)
    ensures |r| == |ds| && forall i :: 0 <= i < |ds| ==> r[i] == name + "." + ds[i]
  {
    if ds == [] then [] else [name + "." + ds[0]] + Suffixed(name, ds[1..])
  }

  /** dedupe: first occurrences, in order. */
  function Dedupe(s: seq<string>): (r: seq<string>)
    ensures forall x :: x in r <==> x in s
  {
    if s == [] then []
    else
      var front, last := Dedupe(s[..|s| - 1]), s[|s| - 1];
      assert s == s[..|s| - 1] + [last];
      if last in front then front else front + [last]
  }

  /** candidateNames of the Go resolver. */
  function GoCandidates(c: Config, query: string): seq<string> {
    var name := Trim(query);
    if name == "" then []
    else if Absolute(name) then [StripDot(name)]
    else
      var searched := Suffixed(name, Suffixes(Normalize(c.search)));
      Dedupe(if Dots(name) >= c.ndots then [name] + searched else searched + [name])
  }

  /** One slot of the shim's list: the stored bytes, and whether the name is over-long. */
  datatype Slot = Slot(name: string, bad: bool)

  function Stored(full: string): Slot { Slot(Cap(full, NAME_CAP), |full| > D.MAX_NAME_LEN) }

  function StoredAll(names: seq<string>): (r: seq<Slot>)
    ensures |r| == |names| && forall i :: 0 <= i < |names| ==> r[i] == Stored(names[i])
  {
    if names == [] then [] else [Stored(names[0])] + StoredAll(names[1..])
  }

  /** k3sm_count_dots. */
  function CountDots(name: string): nat { Dots(StripDot(name)) }

  /** k3sm_candidates. */
  function ShimCandidates(c: Shim, name: string): seq<Slot> {
    if Absolute(name) then [Stored(StripDot(name))]
    else
      var searched := StoredAll(Suffixed(name, c.search));
      if CountDots(name) >= c.ndots then [Stored(name)] + searched else searched + [Stored(name)]
  }

  // ---- fail closed or fall through ----

  predicate HasDot(s: string) { exists i :: 0 <= i < |s| && s[i] == '.' }

  predicate EndsWith(name: string, suffix: string) { |suffix| <= |name| && name[|name| - |suffix|..] == suffix }

  /** isClusterCandidate's test of one domain. */
  predicate GoUnder(name: string, domain: string) {
    var d := StripDot(domain);
    d != "" && (name == d || EndsWith(name, "." + d))
  }

  predicate GoClosed(c: Config, fqdn: string) {
    var name := StripDot(fqdn);
    c.policy.Exclusive? || !HasDot(name) || exists d <- [c.domain] + c.search :: GoUnder(name, d)
  }

  /** k3sm_has_suffix_domain. */
  predicate ShimUnder(name: string, suffix: string) {
    var n, s := StripDot(name), StripDot(suffix);
    && s != [] && |n| >= |s|
    && if |n| == |s| then n == s else n[|n| - |s| - 1] == '.' && n[|n| - |s|..] == s
  }

  /** k3sm_candidate_fail_closed. */
  predicate ShimClosed(c: Shim, cand: string) {
    || c.exclusive || !HasDot(cand) || (c.domain != "" && ShimUnder(cand, c.domain))
    || exists d <- c.search :: ShimUnder(cand, d)
  }

  // ---- the walks ----

  datatype GoVerdict = Addrs(first: nat, rest: seq<nat>) | ErrTempFail | ErrNotFound
  datatype ShimVerdict = Result(addr: nat) | Again | NoName | Host

  /** LookupHost from candidate i on. */
  function GoWalk(net: nat -> D.Answer, c: Config, cands: seq<string>, s: D.State, temp: bool): (D.State, GoVerdict)
    decreases |cands|
  {
    if cands == [] then (s, if temp then ErrTempFail else ErrNotFound)
    else if temp && GoClosed(c, cands[0]) then GoWalk(net, c, cands[1..], s, temp)
    else
      var (t, r) := D.QueryCandidate(net, s, cands[0]);
      match r
      case Found(first, rest) => (t, Addrs(first, rest))
      case Missed => GoWalk(net, c, cands[1..], t, temp)
      case Temp => if GoClosed(c, cands[0]) then GoWalk(net, c, cands[1..], t, true) else (t, ErrNotFound)
  }

  /** The shim's walk over its slots. */
  function ShimWalk(net: nat -> D.Answer, c: Shim, slots: seq<Slot>, s: D.State, temp: bool): (D.State, ShimVerdict)
    decreases |slots|
  {
    if slots == [] then (s, if temp then Again else if c.exclusive then NoName else Host)
    else if slots[0].bad then ShimWalk(net, c, slots[1..], s, temp)
    else if temp && ShimClosed(c, slots[0].name) then ShimWalk(net, c, slots[1..], s, temp)
    else
      var (t, r) := D.QueryCandidate(net, s, slots[0].name);
      match r
      case Found(first, _) => (t, Result(first))
      case Missed => ShimWalk(net, c, slots[1..], t, temp)
      case Temp => if ShimClosed(c, slots[0].name) then ShimWalk(net, c, slots[1..], t, true) else (t, Host)
  }

  function Fresh(n: nat): D.State { D.State([], seq(n, _ => false)) }

  /** LookupHost. */
  function GoLookup(net: nat -> D.Answer, c: Config, name: string): (D.State, GoVerdict) {
    GoWalk(net, c, GoCandidates(c, name), Fresh(|Servers(c)|), false)
  }

  /** The shim's resolution of a name it does not hand to the host up front. */
  function ShimLookup(net: nat -> D.Answer, c: Shim, name: string): (D.State, ShimVerdict) {
    ShimWalk(net, c, ShimCandidates(c, name), Fresh(|c.servers|), false)
  }

  /** A temporary failure on both sides, the same first address, or no such name here:
      what the Go resolver leaves to its caller's host fallthrough. */
  predicate Matching(g: GoVerdict, s: ShimVerdict) {
    match g
    case Addrs(first, _) => s == Result(first)
    case ErrTempFail => s == Again
    case ErrNotFound => s == NoName || s == Host
  }

  // ---- the candidates agree ----

  predicate Distinct(s: seq<string>) { forall i, j :: 0 <= i < j < |s| ==> s[i] != s[j] }

  lemma {:induction false} DedupeDistinct(s: seq<string>)
    requires Distinct(s)
    ensures Dedupe(s) == s
    decreases |s|
  {
    if s != [] {
      var n := |s| - 1;
      DedupeDistinct(s[..n]);
      assert s == s[..n] + [s[n]];
    }
  }

  lemma SuffixedDistinct(name: string, ds: seq<string>)
    requires Distinct(ds)
    ensures Distinct(Suffixed(name, ds)) && forall x <- Suffixed(name, ds) :: x != name
  {
    var r := Suffixed(name, ds);
    forall i, j | 0 <= i < j < |r| ensures r[i] != r[j] {
      assert r[i][|name| + 1..] == ds[i] && r[j][|name| + 1..] == ds[j];
    }
    forall x | x in r ensures x != name {
      var i :| 0 <= i < |r| && r[i] == x;
      assert |r[i]| > |name|;
    }
  }

  /** A name without surrounding blanks or a second trailing dot. */
  predicate PlainName(name: string) { name != "" && Trim(name) == name && !Absolute(StripDot(name)) }

  /** A search list without duplicates and without a domain that ends in two dots. */
  predicate PlainSearch(search: seq<string>) {
    Distinct(Suffixes(search)) && forall d <- search :: !Absolute(StripDot(d))
  }

  function Ordered(name: string, ds: seq<string>, ndots: int): seq<string> {
    if Absolute(name) then [StripDot(name)]
    else if Dots(name) >= ndots then [name] + Suffixed(name, ds) else Suffixed(name, ds) + [name]
  }

  lemma {:induction false} OneMoreDistinct(x: string, s: seq<string>)
    requires Distinct(s) && x !in s
    ensures Distinct([x] + s) && Distinct(s + [x])
  {
    assert forall i :: 0 <= i < |s| ==> s[i] in s;
  }

  lemma {:induction false} DedupeOrdered(name: string, ds: seq<string>, ndots: int)
    requires Distinct(ds) && !Absolute(name)
    ensures Dedupe(Ordered(name, ds, ndots)) == Ordered(name, ds, ndots)
  {
    SuffixedDistinct(name, ds);
    OneMoreDistinct(name, Suffixed(name, ds));
    DedupeDistinct(Ordered(name, ds, ndots));
  }

  lemma {:induction false} GoOrdered(c: Config, name: string)
    requires Plain(c) && PlainName(name) && PlainSearch(c.search)
    ensures GoCandidates(c, name) == Ordered(name, Suffixes(c.search), c.ndots)
  {
    if !Absolute(name) { DedupeOrdered(name, Suffixes(c.search), c.ndots); }
  }

  /** The slot holds the candidate, or both are over-long. */
  predicate Agrees(slot: Slot, cand: string) {
    slot.bad == (|cand| > D.MAX_NAME_LEN) && (!slot.bad ==> slot.name == cand)
  }

  predicate AllAgree(slots: seq<Slot>, cands: seq<string>) {
    |slots| == |cands| && forall i :: 0 <= i < |slots| ==> Agrees(slots[i], cands[i])
  }

  lemma {:induction false} CappedAgrees(name: string, d: string)
    ensures Agrees(Stored(name + "." + Cap(d, NAME_CAP)), name + "." + d)
  {
  }

  lemma {:induction false} SuffixedAgree(name: string, ds: seq<string>)
    ensures AllAgree(StoredAll(Suffixed(name, Capped(ds))), Suffixed(name, ds))
  {
    var shim, go := StoredAll(Suffixed(name, Capped(ds))), Suffixed(name, ds);
    forall i | 0 <= i < |ds| ensures Agrees(shim[i], go[i]) {
      CappedAgrees(name, ds[i]);
    }
  }

  lemma {:induction false} ShimOrdered(k: Shim, ds: seq<string>, name: string)
    requires k.search == Capped(ds) && PlainName(name)
    ensures AllAgree(ShimCandidates(k, name), Ordered(name, ds, k.ndots))
  {
    if !Absolute(name) {
      SuffixedAgree(name, ds);
      assert StripDot(name) == name && Agrees(Stored(name), name);
    }
  }
}
