/** Where the two lookup engines part (pkg/dns/expand.go:71-95; pkg/dns/resolver.go:262-281;
    shim/getaddrinfo_shim.c:307-328, 436-495): each condition of their agreement is needed,
    with a configuration, a name and a network that part them. */
module DnsLimits {
  import opened Text
  import opened DnsConfig
  import opened DnsLookup
  import opened DnsAgreement
  import opened DnsPlain
  import D = DnsServers

  // ---- duplicates: Go removes them, the shim does not ----

  lemma {:induction false} DedupeLength(s: seq<string>)
    ensures |Dedupe(s)| <= |s| && (|Dedupe(s)| == |s| ==> Distinct(s))
    decreases |s|
  {
    if s != [] {
      var n := |s| - 1;
      DedupeLength(s[..n]);
      assert s == s[..n] + [s[n]];
      if |Dedupe(s)| == |s| {
        assert s[n] !in s[..n];
        forall i, j | 0 <= i < j < |s| ensures s[i] != s[j] {
          assert s[..n][i] == s[i] && s[i] in s[..n];
          if j < n { assert s[..n][j] == s[j]; }
        }
      }
    }
  }

  lemma {:induction false} SuffixedReflects(name: string, ds: seq<string>, i: nat, j: nat)
    requires i < j < |ds| && ds[i] == ds[j]
    ensures !Distinct([name] + Suffixed(name, ds)) && !Distinct(Suffixed(name, ds) + [name])
  {
    var r := Suffixed(name, ds);
    assert r[i] == r[j];
    assert ([name] + r)[i + 1] == ([name] + r)[j + 1];
    assert (r + [name])[i] == (r + [name])[j];
  }

  lemma {:induction false} DuplicatesGo(name: string, ds: seq<string>, ndots: int)
    requires !Absolute(name) && !Distinct(ds)
    ensures |Dedupe(Ordered(name, ds, ndots))| < |Ordered(name, ds, ndots)|
  {
    var i, j :| 0 <= i < j < |ds| && ds[i] == ds[j];
    SuffixedReflects(name, ds, i, j);
    DedupeLength(Ordered(name, ds, ndots));
  }

  lemma {:induction false} GoDedupes(c: Config, name: string)
    requires Plain(c) && PlainName(name)
    ensures GoCandidates(c, name)
            == if Absolute(name) then [StripDot(name)] else Dedupe(Ordered(name, Suffixes(c.search), c.ndots))
  {
  }

  /** The candidate lists are the same exactly when the name is absolute or the search
      list has no duplicate once its trailing dots are stripped. */
  lemma {:induction false} CandidatesAgreeExactly(c: Config, name: string)
    requires Plain(c) && PlainName(name)
    ensures Encode(c).Some?
    ensures AllAgree(ShimCandidates(Load(Encode(c).value), name), GoCandidates(c, name))
            <==> Absolute(name) || Distinct(Suffixes(c.search))
  {
    ShimReadsConfig(c);
    var ds := Suffixes(c.search);
    ShimOrdered(Load(Encode(c).value), ds, name);
    GoDedupes(c, name);
    if !Absolute(name) {
      if Distinct(ds) { DedupeOrdered(name, ds, c.ndots); } else { DuplicatesGo(name, ds, c.ndots); }
    }
  }

  // ---- short names ----

  lemma {:induction false} OneLabel(a: string)
    requires Lacks(a, '.') && 1 <= |a| <= 63
    ensures D.Encodable(a)
  {
    FindNone(a, '.');
    assert !Absolute(a) && Split(a, '.') == [a];
  }

  lemma {:induction false} TwoLabels(a: string, b: string)
    requires Lacks(a, '.') && Lacks(b, '.') && 1 <= |a| <= 63 && 1 <= |b| <= 63
    ensures D.Encodable(a + "." + b) && !Absolute(a + "." + b)
  {
    SplitFirst(a, '.', b);
    FindNone(b, '.');
    var x := a + "." + b;
    assert x == a + ['.'] + b && x[|x| - 1] == b[|b| - 1];
    assert Split(b, '.') == [b] && Split(x, '.') == [a] + [b];
  }

  lemma {:induction false} DomainTrims(d: string)
    requires Domain(d)
    ensures Trim(d) == d
  {
    assert d[0] in d && d[|d| - 1] in d;
  }

  lemma {:induction false} TwoDomains(a: string, b: string)
    requires Domain(a) && Domain(b)
    ensures Sanitize([a, b]) == [a, b] && Normalize([a, b]) == [a, b]
  {
    DomainTrims(a);
    DomainTrims(b);
    assert [a, b][..1] == [a] && [a][..0] == [];
    assert Sanitize([a]) == [a];
  }

  lemma {:induction false} SuffixesOfTwo(a: string, b: string)
    requires a != "" && b != "" && !Absolute(a) && !Absolute(b)
    ensures Suffixes([a, b]) == [a, b]
  {
    assert [a, b][1..] == [b] && [b][1..] == [];
    assert Suffixes([b]) == [b];
  }

  lemma {:induction false} SuffixedTwo(name: string, a: string, b: string)
    ensures Suffixed(name, [a, b]) == [name + "." + a, name + "." + b]
  {
  }

  /** A configuration both engines accept, with these search domains and ndots. */
  predicate IsCluster(c: Config, search: seq<string>, ndots: int) {
    && c.policy.ClusterFirst? && c.domain == "cluster.local" && c.search == search && c.ndots == ndots
    && Servable(c) && Encode(c).Some? && Served(c, Load(Encode(c).value))
  }

  /** One with a real server address. */
  function Cluster(ip: IPv4, search: seq<string>, ndots: int): Config {
    Config(ClusterFirst(Quad(ip)), "cluster.local", search, ndots)
  }

  lemma {:induction false} ClusterIsServed(ip: IPv4, search: seq<string>, ndots: int)
    ensures IsCluster(Cluster(ip, search, ndots), search, ndots)
  {
    QuadIsSolid(ip);
    ServersSurvive(Cluster(ip, search, ndots));
  }

  // ---- a duplicate search domain ----

  /** Whatever the configuration, a repeated domain under which the name can be asked is
      asked once by Go and twice by the shim: a network that knows nothing tells them
      apart. */
  lemma {:induction false} RepeatParts(c: Config, name: string, i: nat, j: nat)
    requires Plain(c) && PlainName(name) && !Absolute(name) && i < j < |Suffixes(c.search)|
    requires Suffixes(c.search)[i] == Suffixes(c.search)[j] && D.Encodable(name + "." + Suffixes(c.search)[i])
    ensures Encode(c).Some? && !Agree(NOBODY, c, Load(Encode(c).value), name)
  {
    ShimReadsConfig(c);
    var k := Load(Encode(c).value);
    GoTries(c, name);
    ShimTries(c, k, name);
    SameWireExactly(Tried(c, name));
    RepeatsAreDomains(name, Suffixes(c.search), c.ndots);
    assert !DomainsRepeatFree(name, Suffixes(c.search));
    if Agree(NOBODY, c, k, name) {
      SameNamesNeeded(c, k, name);
      assert false;
    }
  }

  lemma {:induction false} BareName()
    ensures PlainName("x") && !Absolute("x") && Dots("x") == 0 && StripDot("x") == "x" && D.Encodable("x")
  {
    assert TrimLeft("x") == "x" && TrimRight("x") == "x" && "x"[1..] == "";
    OneLabel("x");
  }

  lemma {:induction false} DuplicatedSearch()
    ensures Fits(["a", "a"]) && Suffixes(["a", "a"]) == ["a", "a"] && D.Encodable("x" + "." + "a")
  {
    TwoDomains("a", "a");
    ShortDomainsFit(["a", "a"]);
    SuffixesOfTwo("a", "a");
    TwoLabels("x", "a");
  }

  lemma {:induction false} DuplicatedParts(c: Config)
    requires IsCluster(c, ["a", "a"], 5)
    ensures Plain(c) && !Agree(NOBODY, c, Load(Encode(c).value), "x")
  {
    DuplicatedSearch();
    BareName();
    RepeatParts(c, "x", 0, 1);
  }

  /** The search list "a a" and the name "x". */
  lemma {:induction false} DuplicateParts(ip: IPv4)
    ensures var c := Cluster(ip, ["a", "a"], 5);
            Plain(c) && Encode(c).Some? && !Agree(NOBODY, c, Load(Encode(c).value), "x")
  {
    ClusterIsServed(ip, ["a", "a"], 5);
    DuplicatedParts(Cluster(ip, ["a", "a"], 5));
  }

  // ---- a search domain that ends in two dots ----

  lemma {:induction false} DottedSearch()
    ensures Fits(["a.."]) && Suffixes(["a.."]) == ["a."]
  {
    var s := ["a.."];
    DomainTrims("a..");
    assert s[..0] == [] && Sanitize(s) == Sanitize([]) + ["a.."];
    ShortDomainsFit(s);
    assert s[1..] == [] && StripDot(s[0]) == "a.";
    assert Suffixes(s) == [StripDot(s[0])] + Suffixes(s[1..]);
  }

  lemma {:induction false} NameIsEncodable()
    ensures D.Encodable("x.a")
  {
    TwoLabels("x", "a");
    assert "x" + "." + "a" == "x.a";
  }

  lemma {:induction false} NameFacts()
    ensures Trim("x.a") == "x.a" && Dots("x.a") == 1 && PlainName("x.a")
  {
    assert TrimLeft("x.a") == "x.a" && TrimRight("x.a") == "x.a";
    assert "x.a"[1..] == ".a" && ".a"[1..] == "a" && "a"[1..] == "";
    assert StripDot("x.a") == "x.a";
  }

  lemma {:induction false} DottedUnder()
    ensures StripDot("x.a") == "x.a" && StripDot("a..") == "a." && HasDot("x.a")
    ensures !GoUnder("x.a", "cluster.local") && !GoUnder("x.a", "a..") && ShimUnder("x.a", "a.")
  {
    assert "x.a"[1] == '.' && "x.a"[2..] == "a";
    assert StripDot("a..") == "a." && StripDot("a.") == "a" && StripDot("x.a") == "x.a";
    assert StripDot("cluster.local") == "cluster.local";
  }

  lemma {:induction false} DottedIsMisread(c: Config)
    requires c.policy.ClusterFirst? && c.domain == "cluster.local" && c.search == ["a.."]
    ensures Misread(c, "x.a")
  {
    DottedUnder();
    assert forall d :: d in [c.domain] + c.search <==> d == "cluster.local" || d == "a..";
    assert "a.." in c.search;
  }

  lemma {:induction false} DottedComesFirst(c: Config)
    requires IsCluster(c, ["a.."], 1)
    ensures GoCandidates(c, "x.a") != [] && GoCandidates(c, "x.a")[0] == "x.a"
  {
    DottedSearch();
    NameFacts();
    GoTries(c, "x.a");
    DedupeOrdered("x.a", ["a."], 1);
  }

  lemma {:induction false} FirstExternal(net: nat -> D.Answer, c: Config, cands: seq<string>, s: D.State)
    requires cands != [] && !GoClosed(c, cands[0]) && D.QueryCandidate(net, s, cands[0]).1 == D.Temp
    ensures GoWalk(net, c, cands, s, false).1 == ErrNotFound
  {
  }

  lemma {:induction false} DottedSlots(k: Shim)
    requires k.search == ["a."] && k.ndots == 1 && Dots("x.a") == 1
    ensures ShimCandidates(k, "x.a") == [Slot("x.a", false), Slot("x.a.a.", false)]
    ensures ShimUnder("x.a", "a.") && ShimUnder("x.a.a.", "a.")
  {
    assert "x.a" + "." + "a." == "x.a.a.";
    assert Suffixed("x.a", ["a."]) == ["x.a.a."];
    DottedUnder();
    assert StripDot("a.") == "a" && StripDot("x.a.a.") == "x.a.a" && "x.a.a"[4..] == "a";
  }

  lemma {:induction false} TwoClosed(net: nat -> D.Answer, k: Shim, a: string, b: string, s: D.State)
    requires ShimClosed(k, a) && ShimClosed(k, b) && D.QueryCandidate(net, s, a).1 == D.Temp
    ensures ShimWalk(net, k, [Slot(a, false), Slot(b, false)], s, false).1 == Again
  {
    var slots := [Slot(a, false), Slot(b, false)];
    var t := D.QueryCandidate(net, s, a).0;
    assert slots[1..] == [Slot(b, false)] && slots[1..][1..] == [];
    assert ShimWalk(net, k, slots[1..], t, true) == ShimWalk(net, k, [], t, true);
  }

  lemma {:induction false} ShimSide(net: nat -> D.Answer, k: Shim)
    requires k.search == ["a."] && k.ndots == 1 && |k.servers| == 1 && Dots("x.a") == 1
    requires D.QueryCandidate(net, Fresh(1), "x.a").1 == D.Temp
    ensures ShimLookup(net, k, "x.a").1 == Again
  {
    DottedSlots(k);
    assert "a." in k.search;
    TwoClosed(net, k, "x.a", "x.a.a.", Fresh(1));
  }

  lemma {:induction false} DottedParts(c: Config)
    requires IsCluster(c, ["a.."], 1)
    ensures Plain(c) && GoLookup(SilentFrom(0), c, "x.a").1 == ErrNotFound
    ensures ShimLookup(SilentFrom(0), Load(Encode(c).value), "x.a").1 == Again
  {
    var net := SilentFrom(0);
    DottedSearch();
    ShimReadsConfig(c);
    NameFacts();
    NameIsEncodable();
    DottedIsMisread(c);
    DottedComesFirst(c);
    SoftOne(net, Fresh(1), "x.a");
    FirstExternal(net, c, GoCandidates(c, "x.a"), Fresh(1));
    ShimSide(net, Load(Encode(c).value));
  }

  /** The search list "a..", ndots 1 and the name "x.a": the shim takes the name for a
      cluster one, Go does not, so a server that never answers is a temporary failure to
      the shim and a missing name to Go. */
  lemma {:induction false} DoubleDotParts(ip: IPv4)
    ensures var c := Cluster(ip, ["a.."], 1);
            && Plain(c) && Encode(c).Some?
            && GoLookup(SilentFrom(0), c, "x.a").1 == ErrNotFound
            && ShimLookup(SilentFrom(0), Load(Encode(c).value), "x.a").1 == Again
  {
    ClusterIsServed(ip, ["a.."], 1);
    DottedParts(Cluster(ip, ["a.."], 1));
  }

  /** Such a domain also leaves its dot on the candidate, and the shim's length limit counts
      it: Go asks for a name of 253 bytes and the dot, the shim does not. */
  lemma {:induction false} DotOverLimitParts(c: Config, name: string, x: string)
    requires Plain(c) && PlainName(name) && x in Tried(c, name) && D.Encodable(x) && |x| > D.MAX_NAME_LEN
    ensures Encode(c).Some? && !Agree(NOBODY, c, Load(Encode(c).value), name)
  {
    ShimReadsConfig(c);
    var k := Load(Encode(c).value);
    GoTries(c, name);
    ShimTries(c, k, name);
    SameWireExactly(Tried(c, name));
    assert !NoneOver(Tried(c, name));
    if Agree(NOBODY, c, k, name) {
      SameNamesNeeded(c, k, name);
      assert false;
    }
  }

  function Xs(n: nat): (s: string)
    ensures |s| == n && forall i :: 0 <= i < n ==> s[i] == 'x'
  {
    seq(n, _ => 'x')
  }

  const LONG: string := Xs(63) + "." + (Xs(63) + "." + (Xs(63) + "." + Xs(59)))

  lemma {:induction false} ConsLabel(a: string, rest: string)
    requires Lacks(a, '.') && 1 <= |a| <= 63 && D.LabelsFit(rest)
    ensures D.LabelsFit(a + "." + rest)
  {
    SplitFirst(a, '.', rest);
    assert a + "." + rest == a + ['.'] + rest;
  }

  lemma {:induction false} LongIsEncodable()
    ensures D.Encodable(LONG + "." + "a.") && |LONG + "." + "a."| == 254
  {
    TwoLabels(Xs(59), "a");
    var one := Xs(59) + "." + "a";
    assert D.LabelsFit(one);
    var two := Xs(63) + "." + one;
    ConsLabel(Xs(63), one);
    var three := Xs(63) + "." + two;
    ConsLabel(Xs(63), two);
    var four := Xs(63) + "." + three;
    ConsLabel(Xs(63), three);
    var x := LONG + "." + "a.";
    assert |x| == 254 && Absolute(x) && StripDot(x) == four;
  }

  lemma {:induction false} LongIsPlain()
    ensures PlainName(LONG) && !Absolute(LONG)
  {
    assert LONG[0] == 'x' && LONG[|LONG| - 1] == 'x';
  }

  lemma {:induction false} LongIsTried(ndots: int)
    ensures LONG + "." + "a." in Ordered(LONG, ["a."], ndots)
  {
    LongIsPlain();
    assert Suffixed(LONG, ["a."])[0] == LONG + "." + "a.";
  }

  lemma {:induction false} LongParts(c: Config)
    requires IsCluster(c, ["a.."], 1)
    ensures Plain(c) && !Agree(NOBODY, c, Load(Encode(c).value), LONG)
  {
    DottedSearch();
    LongIsPlain();
    LongIsEncodable();
    LongIsTried(1);
    DotOverLimitParts(c, LONG, LONG + "." + "a.");
  }

  /** The search list "a..", ndots 1 and a name of 251 bytes. */
  lemma {:induction false} LongNameParts(ip: IPv4)
    ensures var c := Cluster(ip, ["a.."], 1);
            Plain(c) && Encode(c).Some? && !Agree(NOBODY, c, Load(Encode(c).value), LONG)
  {
    ClusterIsServed(ip, ["a.."], 1);
    LongParts(Cluster(ip, ["a.."], 1));
  }

  // ---- a search list longer than the shim's buffer ----

  /** The copy cuts the list inside a domain, and the shim searches a domain nobody named. */
  lemma {:induction false} LongSearchIsCut(d: string, tail: string)
    requires Solid(d) && Solid(tail) && |tail| >= 2 && |d| == SEARCH_CAP - 2
    requires !Absolute(d) && tail[0] != '.'
    ensures LoadSearch(Join([d, tail], ' ')) == [Cap(d, NAME_CAP), tail[..1]]
  {
    var v := Join([d, tail], ' ');
    assert [d, tail][1..] == [tail] && Join([tail], ' ') == tail;
    assert v == d + [' '] + tail;
    var cut := [d, tail[..1]];
    assert cut[1..] == [tail[..1]] && Join([tail[..1]], ' ') == tail[..1];
    assert Cap(v, SEARCH_CAP) == d + [' '] + tail[..1] == Join(cut, ' ');
    TokensJoin(cut);
    assert StripDot(tail[..1]) == tail[..1] && cut[1..][1..] == [];
    assert Entries(cut[1..], 7) == [tail[..1]] + Entries([], 6);
  }

  lemma {:induction false} ThreeDistinct(far: string, a: string, b: string)
    requires |far| > |a| > |b|
    ensures Dedupe([far, a] + [b]) == [far, a, b]
  {
    DedupeDistinct([far, a, b]);
    assert [far, a] + [b] == [far, a, b];
  }

  lemma {:induction false} GoTriesWhole(c: Config, d: string)
    requires IsCluster(c, [d, "bc"], 5) && Domain(d) && |d| == SEARCH_CAP - 2 && !Absolute(d)
    ensures GoCandidates(c, "x") == ["x" + "." + d, "x.bc", "x"]
  {
    TwoDomains(d, "bc");
    SuffixesOfTwo(d, "bc");
    SuffixedTwo("x", d, "bc");
    BareName();
    assert "x" + "." + "bc" == "x.bc";
    ThreeDistinct("x" + "." + d, "x.bc", "x");
  }

  lemma {:induction false} WireOfThree(far: string, a: string, b: string)
    requires !D.Encodable(far) && D.Encodable(a) && D.Encodable(b)
    ensures OnWire([far, a, b]) == [a, b]
  {
    assert [far, a, b][1..] == [a, b] && [a, b][1..] == [b];
    OnWireOne(b);
  }

  lemma {:induction false} GoSendsWhole(c: Config, d: string)
    requires IsCluster(c, [d, "bc"], 5) && Domain(d) && |d| == SEARCH_CAP - 2 && !Absolute(d)
    ensures GoWire(c, "x") == ["x.bc", "x"]
  {
    GoTriesWhole(c, d);
    WholeOnWire(d);
  }

  lemma {:induction false} WholeOnWire(d: string)
    requires |d| == SEARCH_CAP - 2
    ensures OnWire(["x" + "." + d, "x.bc", "x"]) == ["x.bc", "x"]
  {
    BareName();
    TwoLabels("x", "bc");
    assert "x" + "." + "bc" == "x.bc";
    WireOfThree("x" + "." + d, "x.bc", "x");
  }

  lemma {:induction false} CutSlots(k: Shim, d: string)
    requires k.search == [d, "b"] && k.ndots == 5 && |d| == NAME_CAP
    ensures ShimCandidates(k, "x") == [Stored("x" + "." + d), Slot("x.b", false), Slot("x", false)]
  {
    BareName();
    assert "x" + "." + "b" == "x.b";
    SuffixedTwo("x", d, "b");
    assert StoredAll(Suffixed("x", k.search)) == [Stored("x" + "." + d), Slot("x.b", false)];
  }

  lemma {:induction false} WireOfSlots(far: Slot, a: string, b: string)
    requires far.bad && D.Encodable(a) && D.Encodable(b)
    ensures SlotsOnWire([far, Slot(a, false), Slot(b, false)]) == [a, b]
  {
    var s := [far, Slot(a, false), Slot(b, false)];
    assert s[1..] == [Slot(a, false), Slot(b, false)] && s[1..][1..] == [Slot(b, false)] && s[1..][1..][1..] == [];
    assert SlotsOnWire([Slot(b, false)]) == [b];
  }

  lemma {:induction false} CutIsLoaded(c: Config, d: string)
    requires IsCluster(c, [d, "bc"], 5) && Domain(d) && |d| == SEARCH_CAP - 2 && !Absolute(d)
    ensures var k := Load(Encode(c).value); k.search == [Cap(d, NAME_CAP), "b"] && k.ndots == 5
  {
    TwoDomains(d, "bc");
    DomainIsSolid(d);
    LongSearchIsCut(d, "bc");
    NdotsReadBack(5);
    assert "bc"[..1] == "b";
  }

  lemma {:induction false} CutOnWire(k: Shim, d: string)
    requires k.search == [d, "b"] && k.ndots == 5 && |d| == NAME_CAP
    ensures ShimWire(k, "x") == ["x.b", "x"]
  {
    CutSlots(k, d);
    BareName();
    TwoLabels("x", "b");
    assert "x" + "." + "b" == "x.b";
    WireOfSlots(Stored("x" + "." + d), "x.b", "x");
  }

  lemma {:induction false} ShimSendsCut(c: Config, d: string)
    requires IsCluster(c, [d, "bc"], 5) && Domain(d) && |d| == SEARCH_CAP - 2 && !Absolute(d)
    ensures ShimWire(Load(Encode(c).value), "x") == ["x.b", "x"]
  {
    CutIsLoaded(c, d);
    CutOnWire(Load(Encode(c).value), Cap(d, NAME_CAP));
  }

  lemma {:induction false} AsksDiffer()
    ensures Asks(["x.bc", "x"]) != Asks(["x.b", "x"])
  {
    assert Asks(["x.bc", "x"])[0].name != Asks(["x.b", "x"])[0].name by { assert |"x.bc"| == 4 && |"x.b"| == 3; }
  }

  /** On a network that knows nothing, Go asks for the name under the domain it was given,
      the shim under the piece of it that fitted. */
  lemma {:induction false} CutParts(c: Config, d: string)
    requires IsCluster(c, [d, "bc"], 5) && Domain(d) && |d| == SEARCH_CAP - 2 && !Absolute(d)
    ensures GoLookup(NOBODY, c, "x").0.sent == Asks(["x.bc", "x"])
    ensures ShimLookup(NOBODY, Load(Encode(c).value), "x").0.sent == Asks(["x.b", "x"])
    ensures !Agree(NOBODY, c, Load(Encode(c).value), "x")
  {
    GoSendsWhole(c, d);
    ShimSendsCut(c, d);
    NobodySeesAll(c, Load(Encode(c).value), "x");
    AsksDiffer();
  }

  /** The search list of a 2045-byte domain and "bc", and the name "x". */
  lemma {:induction false} LongSearchParts(ip: IPv4, d: string)
    requires Domain(d) && |d| == SEARCH_CAP - 2 && !Absolute(d)
    ensures var c := Cluster(ip, [d, "bc"], 5);
            && Encode(c).Some? && Normalize(c.search) == c.search
            && GoLookup(NOBODY, c, "x").0.sent == Asks(["x.bc", "x"])
            && ShimLookup(NOBODY, Load(Encode(c).value), "x").0.sent == Asks(["x.b", "x"])
            && !Agree(NOBODY, c, Load(Encode(c).value), "x")
  {
    TwoDomains(d, "bc");
    ClusterIsServed(ip, [d, "bc"], 5);
    CutParts(Cluster(ip, [d, "bc"], 5), d);
  }
}
