/** The engines' agreement read off the configuration (pkg/dns/expand.go:41-95;
    pkg/dns/resolver.go:262-281; pkg/dns/env.go:130-202; shim/getaddrinfo_shim.c:307-328,
    394-495): for an encoded configuration and a plain name they agree on every network
    exactly when no domain that can be asked repeats and none that ends in two dots
    matters. */
module DnsPlain {
  import opened Text
  import opened DnsConfig
  import opened DnsLookup
  import opened DnsAgreement
  import D = DnsServers

  // ---- the names on the wire ----

  /** What the shim sends of a list: its length limit counts a trailing dot. */
  function OnShimWire(names: seq<string>): (r: seq<string>)
    ensures forall x :: x in r <==> x in names && D.Encodable(x) && |x| <= D.MAX_NAME_LEN
  {
    if names == [] then []
    else (if D.Encodable(names[0]) && |names[0]| <= D.MAX_NAME_LEN then [names[0]] else []) + OnShimWire(names[1..])
  }

  lemma {:induction false} AgreedSlots(slots: seq<Slot>, names: seq<string>)
    requires AllAgree(slots, names)
    ensures SlotsOnWire(slots) == OnShimWire(names)
    decreases |names|
  {
    if names != [] {
      assert Agrees(slots[0], names[0]);
      AgreedSlots(slots[1..], names[1..]);
    }
  }

  lemma {:induction false} OnWireAppend(a: seq<string>, b: seq<string>)
    ensures OnWire(a + b) == OnWire(a) + OnWire(b)
    decreases |a|
  {
    if a == [] {
      assert a + b == b;
    } else {
      assert (a + b)[1..] == a[1..] + b;
      OnWireAppend(a[1..], b);
    }
  }

  lemma {:induction false} OnWireOne(x: string)
    ensures OnWire([x]) == if D.Encodable(x) then [x] else []
  {
    assert [x][1..] == [];
  }

  predicate NoneOver(names: seq<string>) { forall x <- names :: D.Encodable(x) ==> |x| <= D.MAX_NAME_LEN }

  lemma {:induction false} NoneOverSame(names: seq<string>)
    requires NoneOver(names)
    ensures OnShimWire(names) == OnWire(names)
    decreases |names|
  {
    if names != [] {
      assert names[0] in names;
      NoneOverSame(names[1..]);
    }
  }

  /** No name that can be asked occurs twice. */
  predicate RepeatFree(names: seq<string>) {
    forall i, j :: 0 <= i < j < |names| && names[i] == names[j] ==> !D.Encodable(names[i])
  }

  lemma {:induction false} DedupeKeepsWire(names: seq<string>)
    requires RepeatFree(names)
    ensures OnWire(Dedupe(names)) == OnWire(names)
    decreases |names|
  {
    if names != [] {
      var n := |names| - 1;
      var front, last := names[..n], names[n];
      assert names == front + [last];
      DedupeKeepsWire(front);
      OnWireAppend(front, [last]);
      OnWireAppend(Dedupe(front), [last]);
      OnWireOne(last);
      if last in front {
        var i :| 0 <= i < n && names[i] == last;
        assert !D.Encodable(names[i]);
      }
    }
  }

  lemma {:induction false} DedupeIsDistinct(names: seq<string>)
    ensures Distinct(Dedupe(names))
    decreases |names|
  {
    if names != [] {
      var n := |names| - 1;
      DedupeIsDistinct(names[..n]);
      var front := Dedupe(names[..n]);
      if names[n] !in front { OneMoreDistinct(names[n], front); }
    }
  }

  lemma {:induction false} OnWireDistinct(names: seq<string>)
    requires Distinct(names)
    ensures Distinct(OnWire(names))
    decreases |names|
  {
    if names != [] {
      var rest := names[1..];
      forall i, j | 0 <= i < j < |rest| ensures rest[i] != rest[j] { assert names[i + 1] != names[j + 1]; }
      OnWireDistinct(rest);
      assert names[0] !in rest;
      if D.Encodable(names[0]) { OneMoreDistinct(names[0], OnWire(rest)); }
    }
  }

  lemma {:induction false} RepeatShows(names: seq<string>, i: nat, j: nat)
    requires i < j < |names| && names[i] == names[j] && D.Encodable(names[i])
    ensures !Distinct(OnWire(names))
  {
    var a, b := OnWire(names[..j]), OnWire(names[j..]);
    assert names == names[..j] + names[j..] && names[i] in names[..j] && names[j] in names[j..];
    OnWireAppend(names[..j], names[j..]);
    var p :| 0 <= p < |a| && a[p] == names[i];
    var q :| 0 <= q < |b| && b[q] == names[i];
    assert (a + b)[p] == (a + b)[|a| + q];
  }

  lemma {:induction false} SameWireExactly(names: seq<string>)
    ensures OnWire(Dedupe(names)) == OnShimWire(names) <==> RepeatFree(names) && NoneOver(names)
  {
    if RepeatFree(names) && NoneOver(names) {
      DedupeKeepsWire(names);
      NoneOverSame(names);
    } else if OnWire(Dedupe(names)) == OnShimWire(names) {
      assert forall x <- names :: D.Encodable(x) ==> x in OnWire(Dedupe(names));
      NoneOverSame(names);
      var i, j :| 0 <= i < j < |names| && names[i] == names[j] && D.Encodable(names[i]);
      RepeatShows(names, i, j);
      DedupeIsDistinct(names);
      OnWireDistinct(Dedupe(names));
      assert false;
    }
  }

  /** In terms of the search domains. */
  predicate DomainsRepeatFree(name: string, ds: seq<string>) {
    forall i, j :: 0 <= i < j < |ds| && ds[i] == ds[j] ==> !D.Encodable(name + "." + ds[i])
  }

  lemma {:induction false} RepeatsAreDomains(name: string, ds: seq<string>, ndots: int)
    ensures RepeatFree(Ordered(name, ds, ndots)) <==> Absolute(name) || DomainsRepeatFree(name, ds)
  {
    if !Absolute(name) {
      SuffixedRepeats(name, ds);
      var r := Suffixed(name, ds);
      if Dots(name) >= ndots { ShiftedRepeats([name], r); } else { AppendedRepeats(name, r); }
    }
  }

  lemma {:induction false} SuffixedRepeats(name: string, ds: seq<string>)
    ensures RepeatFree(Suffixed(name, ds)) <==> DomainsRepeatFree(name, ds)
    ensures name !in Suffixed(name, ds)
  {
    var r := Suffixed(name, ds);
    forall i, j | 0 <= i < j < |ds| ensures r[i] == r[j] <==> ds[i] == ds[j] {
      assert r[i][|name| + 1..] == ds[i] && r[j][|name| + 1..] == ds[j];
    }
    forall i | 0 <= i < |ds| ensures r[i] != name { assert |r[i]| > |name|; }
    if RepeatFree(r) {
      forall i, j | 0 <= i < j < |ds| && ds[i] == ds[j] ensures !D.Encodable(name + "." + ds[i]) {
        assert r[i] == r[j];
      }
    }
  }

  lemma {:induction false} ShiftedRepeats(a: seq<string>, r: seq<string>)
    requires |a| == 1 && a[0] !in r
    ensures RepeatFree(a + r) <==> RepeatFree(r)
  {
    var s := a + r;
    assert forall i :: 0 <= i < |r| ==> s[i + 1] == r[i];
    if RepeatFree(s) {
      forall i, j | 0 <= i < j < |r| && r[i] == r[j] ensures !D.Encodable(r[i]) { assert s[i + 1] == s[j + 1]; }
    }
    if RepeatFree(r) {
      forall i, j | 0 <= i < j < |s| && s[i] == s[j] ensures !D.Encodable(s[i]) {
        assert s[j] == r[j - 1];
        if i > 0 { assert s[i] == r[i - 1]; }
      }
    }
  }

  lemma {:induction false} AppendedRepeats(x: string, r: seq<string>)
    requires x !in r
    ensures RepeatFree(r + [x]) <==> RepeatFree(r)
  {
    var s := r + [x];
    assert forall i :: 0 <= i < |r| ==> s[i] == r[i];
    if RepeatFree(s) {
      forall i, j | 0 <= i < j < |r| && r[i] == r[j] ensures !D.Encodable(r[i]) { assert s[i] == s[j]; }
    }
  }

  // ---- the classes ----

  /** The shim strips a search domain once when it loads it and once more when it compares;
      Go strips it once. So one that ends in two dots matches only in the shim. */
  predicate Misread(c: Config, x: string) {
    !GoClosed(c, x) && exists d <- c.search :: Absolute(StripDot(d)) && ShimUnder(x, StripDot(d))
  }

  /** A name that can be asked does not end in two dots. */
  lemma {:induction false} EncodableEnds(x: string)
    requires D.Encodable(x)
    ensures !Absolute(StripDot(x)) && StripDot(x) != ""
  {
    var n := StripDot(x);
    if Absolute(n) {
      LastLabelEmpty(n);
      assert "" in Split(n, '.');
    }
  }

  lemma {:induction false} LastLabelEmpty(s: string)
    requires Absolute(s)
    ensures "" in Split(s, '.')
    decreases |s|
  {
    var i := Find(s, '.');
    assert i < |s| && Split(s, '.') == [s[..i]] + Split(s[i + 1..], '.');
    if i == |s| - 1 {
      assert s[i + 1..] == "" && Split("", '.') == [""];
    } else {
      LastLabelEmpty(s[i + 1..]);
    }
  }

  /** One domain, stripped once by Go and once by the shim. */
  lemma {:induction false} UnderAgree(x: string, d: string)
    requires !Absolute(StripDot(x))
    ensures GoUnder(StripDot(x), d) == ShimUnder(x, d)
  {
    var n, s := StripDot(x), StripDot(d);
    if s != "" && |n| > |s| {
      var t := n[|n| - |s| - 1..];
      assert t[0] == n[|n| - |s| - 1] && t[1..] == n[|n| - |s|..];
      assert t == "." + s <==> t[0] == '.' && t[1..] == s;
    }
  }

  /** A domain cut at its buffer is too long to match a legal candidate, cut or not. */
  lemma {:induction false} CapUnder(x: string, d: string)
    requires |x| <= D.MAX_NAME_LEN
    ensures ShimUnder(x, Cap(d, NAME_CAP)) == ShimUnder(x, d)
  {
  }

  /** One search domain as the shim loads it. */
  lemma {:induction false} EntryUnder(x: string, d: string)
    requires D.Encodable(x) && |x| <= D.MAX_NAME_LEN
    ensures ShimUnder(x, Cap(StripDot(d), NAME_CAP)) == ShimUnder(x, StripDot(d))
    ensures GoUnder(StripDot(x), d) <==> !Absolute(StripDot(d)) && ShimUnder(x, StripDot(d))
  {
    EncodableEnds(x);
    CapUnder(x, StripDot(d));
    UnderAgree(x, d);
    if Absolute(StripDot(d)) { EndsDiffer(StripDot(x), StripDot(d)); }
  }

  lemma {:induction false} EndsDiffer(n: string, s: string)
    requires Absolute(s) && !Absolute(n) && n != ""
    ensures n != s && !EndsWith(n, "." + s)
  {
    assert ("." + s)[|s|] == '.';
    if |s| < |n| { assert n[|n| - |s| - 1..][|s|] == n[|n| - 1]; }
  }

  lemma {:induction false} SuffixMembers(search: seq<string>)
    ensures forall d <- Suffixes(search) :: exists e <- search :: d == StripDot(e)
    ensures forall e <- search :: StripDot(e) != "" ==> StripDot(e) in Suffixes(search)
    decreases |search|
  {
    if search != [] {
      SuffixMembers(search[1..]);
      assert search == [search[0]] + search[1..];
    }
  }

  lemma {:induction false} LoadedUnder(search: seq<string>, x: string)
    requires D.Encodable(x) && |x| <= D.MAX_NAME_LEN
    ensures (exists d <- Capped(Suffixes(search)) :: ShimUnder(x, d))
            <==> exists d <- search :: ShimUnder(x, StripDot(d))
  {
    SuffixMembers(search);
    var ds := Suffixes(search);
    if y :| y in Capped(ds) && ShimUnder(x, y) {
      var i :| 0 <= i < |ds| && Capped(ds)[i] == y;
      assert ds[i] in ds;
      var e :| e in search && ds[i] == StripDot(e);
      EntryUnder(x, e);
    }
    if d :| d in search && ShimUnder(x, StripDot(d)) {
      EntryUnder(x, d);
      var i :| 0 <= i < |ds| && ds[i] == StripDot(d);
      assert Capped(ds)[i] in Capped(ds);
    }
  }

  lemma {:induction false} GoSearchUnder(search: seq<string>, x: string)
    requires D.Encodable(x) && |x| <= D.MAX_NAME_LEN
    ensures (exists d <- search :: GoUnder(StripDot(x), d))
            <==> exists d <- search :: !Absolute(StripDot(d)) && ShimUnder(x, StripDot(d))
  {
    forall d | d in search ensures GoUnder(StripDot(x), d) <==> !Absolute(StripDot(d)) && ShimUnder(x, StripDot(d)) {
      EntryUnder(x, d);
    }
  }

  lemma {:induction false} DomainUnder(x: string, domain: string)
    requires D.Encodable(x) && |x| <= D.MAX_NAME_LEN
    ensures GoUnder(StripDot(x), domain) == ShimUnder(x, Cap(domain, NAME_CAP))
  {
    EncodableEnds(x);
    UnderAgree(x, domain);
    CapUnder(x, domain);
  }

  /** Whether a candidate that can be asked is classed differently. */
  lemma {:induction false} ClassesDifferExactly(c: Config, k: Shim, x: string)
    requires k.exclusive == c.policy.Exclusive? && k.domain == Cap(c.domain, NAME_CAP)
             && k.search == Capped(Suffixes(c.search))
    requires D.Encodable(x) && |x| <= D.MAX_NAME_LEN && HasDot(x) == HasDot(StripDot(x))
    ensures GoClosed(c, x) != ShimClosed(k, x) <==> Misread(c, x)
  {
    DomainUnder(x, c.domain);
    LoadedUnder(c.search, x);
    GoSearchUnder(c.search, x);
    assert forall d :: d in [c.domain] + c.search <==> d == c.domain || d in c.search;
  }

  /** A name that is tried is the name itself or the name under one domain. */
  lemma {:induction false} TriedShape(name: string, ds: seq<string>, ndots: int, x: string)
    requires x in Ordered(name, ds, ndots)
    ensures x == StripDot(name) || (!Absolute(name) && exists i :: 0 <= i < |ds| && x == name + "." + ds[i])
  {
    if !Absolute(name) && x != name {
      var r := Suffixed(name, ds);
      var i :| 0 <= i < |r| && r[i] == x;
    }
  }

  lemma {:induction false} SuffixKeepsDot(name: string, d: string)
    requires d != ""
    ensures HasDot(name + "." + d) && HasDot(StripDot(name + "." + d))
  {
    var x := name + "." + d;
    assert x[|name|] == '.' && StripDot(x)[|name|] == '.';
  }

  lemma {:induction false} DotsKept(name: string, ds: seq<string>, ndots: int, x: string)
    requires PlainName(name) && (forall d <- ds :: d != "") && x in Ordered(name, ds, ndots)
    ensures HasDot(x) == HasDot(StripDot(x))
  {
    TriedShape(name, ds, ndots, x);
    if x != StripDot(name) {
      var i :| 0 <= i < |ds| && x == name + "." + ds[i];
      assert ds[i] in ds;
      SuffixKeepsDot(name, ds[i]);
    }
  }

  // ---- exactly ----

  /** The names a lookup tries, duplicates included. */
  function Tried(c: Config, name: string): seq<string> { Ordered(name, Suffixes(c.search), c.ndots) }

  /** No search domain repeats among the names that can be asked, none of them exceeds the
      shim's length limit by a trailing dot, and none lies under a domain only the shim
      recognises. */
  predicate ConfigurationAgrees(c: Config, name: string) {
    && (Absolute(name) || DomainsRepeatFree(name, Suffixes(c.search)))
    && (forall x <- Tried(c, name) :: D.Encodable(x) ==> |x| <= D.MAX_NAME_LEN && !Misread(c, x))
  }

  lemma {:induction false} GoTries(c: Config, name: string)
    requires Plain(c) && PlainName(name)
    ensures GoCandidates(c, name) == Dedupe(Tried(c, name))
  {
    if Absolute(name) {
      DedupeDistinct([StripDot(name)]);
    }
  }

  lemma {:induction false} ShimTries(c: Config, k: Shim, name: string)
    requires Plain(c) && PlainName(name) && k == Load(Encode(c).value)
    ensures ShimWire(k, name) == OnShimWire(Tried(c, name))
  {
    ShimReadsConfig(c);
    ShimOrdered(k, Suffixes(c.search), name);
    AgreedSlots(ShimCandidates(k, name), Tried(c, name));
  }

  lemma {:induction false} ClassesByConfiguration(c: Config, k: Shim, name: string)
    requires Plain(c) && PlainName(name) && k == Load(Encode(c).value) && NoneOver(Tried(c, name))
    ensures SameClasses(c, k, OnWire(Dedupe(Tried(c, name))))
            <==> forall x <- Tried(c, name) :: D.Encodable(x) ==> !Misread(c, x)
  {
    ShimReadsConfig(c);
    forall x | x in Tried(c, name) && D.Encodable(x) ensures GoClosed(c, x) != ShimClosed(k, x) <==> Misread(c, x) {
      DotsKept(name, Suffixes(c.search), c.ndots, x);
      ClassesDifferExactly(c, k, x);
    }
    var w := OnWire(Dedupe(Tried(c, name)));
    assert forall x :: x in w <==> x in Tried(c, name) && D.Encodable(x);
  }

  /** The two conditions of the agreement, read off the configuration. */
  lemma {:induction false} WireByConfiguration(c: Config, k: Shim, name: string)
    requires Plain(c) && PlainName(name) && k == Load(Encode(c).value)
    ensures GoWire(c, name) == OnWire(Dedupe(Tried(c, name)))
    ensures GoWire(c, name) == ShimWire(k, name)
            <==> (Absolute(name) || DomainsRepeatFree(name, Suffixes(c.search))) && NoneOver(Tried(c, name))
  {
    GoTries(c, name);
    ShimTries(c, k, name);
    SameWireExactly(Tried(c, name));
    RepeatsAreDomains(name, Suffixes(c.search), c.ndots);
  }

  lemma {:induction false} SameByConfiguration(c: Config, k: Shim, name: string)
    requires Plain(c) && PlainName(name) && k == Load(Encode(c).value)
    ensures GoWire(c, name) == ShimWire(k, name) && SameClasses(c, k, GoWire(c, name)) <==> ConfigurationAgrees(c, name)
  {
    WireByConfiguration(c, k, name);
    if NoneOver(Tried(c, name)) { ClassesByConfiguration(c, k, name); }
  }

  lemma {:induction false} PlainIsServed(c: Config)
    requires Plain(c)
    ensures Encode(c).Some? && Served(c, Load(Encode(c).value))
  {
    ShimReadsConfig(c);
  }

  /** For every encoded configuration and every plain name: the shim and the Go resolver
      send the same queries to the same servers in the same order and reach matching
      verdicts on every network, exactly when the configuration agrees. */
  lemma {:induction false} EnginesAgreeExactly(c: Config, name: string)
    requires Plain(c) && PlainName(name)
    ensures Encode(c).Some? && Load(Encode(c).value).servers == Servers(c)
    ensures (forall net :: Agree(net, c, Load(Encode(c).value), name)) <==> ConfigurationAgrees(c, name)
  {
    PlainIsServed(c);
    AgreeExactly(c, Load(Encode(c).value), name);
    SameByConfiguration(c, Load(Encode(c).value), name);
  }

  /** A search list without duplicates and without a domain that ends in two dots agrees,
      whatever the name and the network. */
  lemma {:induction false} EnginesAgree(net: nat -> D.Answer, c: Config, name: string)
    requires Plain(c) && PlainSearch(c.search) && PlainName(name)
    ensures Encode(c).Some? && Agree(net, c, Load(Encode(c).value), name)
  {
    EnginesAgreeExactly(c, name);
    forall x | x in Tried(c, name) && D.Encodable(x) ensures |x| <= D.MAX_NAME_LEN && !Misread(c, x) {
      PlainTried(c, name, x);
    }
  }

  lemma {:induction false} PlainTried(c: Config, name: string, x: string)
    requires PlainSearch(c.search) && PlainName(name) && x in Tried(c, name) && D.Encodable(x)
    ensures |x| <= D.MAX_NAME_LEN
  {
    SuffixMembers(c.search);
    var ds := Suffixes(c.search);
    TriedShape(name, ds, c.ndots, x);
    if x != StripDot(name) {
      var i :| 0 <= i < |ds| && x == name + "." + ds[i];
      assert ds[i] in ds && x[|x| - 1] == ds[i][|ds[i]| - 1];
    }
    assert !Absolute(x);
  }
}
