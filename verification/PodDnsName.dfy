/** The dashed pod names (pkg/dns/synth.go:293-400): <a-b-c-d>.<namespace>.pod.<domain>,
    encoded and decoded without any state. */
module PodDnsName {
  import opened Text

  // ---- case and labels ----

  /** The lower-case form of a character. The Kelvin sign and the dotted capital I are the
      two characters outside ASCII whose lower case is inside it. */
  function LowerChar(c: char): char {
    if 'A' <= c <= 'Z' then (c as int + 32) as char
    else if c == 0x212A as char then 'k'
    else if c == 0x130 as char then 'i'
    else c
  }

  function Lower(s: string): (r: string)
    ensures |r| == |s| && forall i :: 0 <= i < |s| ==> r[i] == LowerChar(s[i])
  {
    seq(|s|, i requires 0 <= i < |s| => LowerChar(s[i]))
  }

  predicate LabelChar(c: char) { 'a' <= c <= 'z' || IsDigit(c) || c == '-' }

  /** isDNSLabel. */
  predicate IsLabel(s: string) {
    1 <= |s| <= 63 && (forall i :: 0 <= i < |s| ==> LabelChar(s[i])) && s[0] != '-' && s[|s| - 1] != '-'
  }

  /** normalizeDomain. */
  function Normalize(domain: string): Option<string> {
    var d := Lower(StripDot(domain));
    if d == "" || exists l <- Split(d, '.') :: !IsLabel(l) then None else Some(d)
  }

  // ---- the two directions ----

  function DashedIP(ip: IPv4): string { Join(OctetTexts(ip), '-') }

  function Suffix(domain: string): string { ".pod." + domain }

  /** PodDNSName; `ip` is None for an address that is not IPv4. */
  function Encode(ip: Option<IPv4>, namespace: string, clusterDomain: string): Option<string> {
    var d, ns := Normalize(clusterDomain), Lower(namespace);
    if d.None? || !IsLabel(ns) || ip.None? then None
    else Some(DashedIP(ip.value) + "." + ns + Suffix(d.value))
  }

  function Undash(s: string): (r: string)
    ensures |r| == |s| && forall i :: 0 <= i < |s| ==> r[i] == if s[i] == '-' then '.' else s[i]
  {
    seq(|s|, i requires 0 <= i < |s| => if s[i] == '-' then '.' else s[i])
  }

  function Dashes(s: string): nat { if s == [] then 0 else (if s[0] == '-' then 1 else 0) + Dashes(s[1..]) }

  datatype Decoded = Decoded(ip: IPv4, namespace: string)

  /** What stands before the suffix: <dashed>.<namespace>. */
  function DecodeRest(rest: string): Option<Decoded> {
    var i := Find(rest, '.');
    if i == |rest| then None
    else
      var dashed, ns := rest[..i], rest[i + 1..];
      if dashed == "" || ns == "" || !Lacks(ns, '.') || !IsLabel(ns) || Dashes(dashed) != 3 then None
      else
        var ip := ParseQuad(Undash(dashed));
        if ip.None? then None else Some(Decoded(ip.value, ns))
  }

  /** PodAddrFromName. */
  function Decode(name: string, clusterDomain: string): Option<Decoded> {
    var d := Normalize(clusterDomain);
    if d.None? then None
    else
      var q, suffix := Lower(StripDot(name)), Suffix(d.value);
      if |q| < |suffix| || q[|q| - |suffix|..] != suffix then None else DecodeRest(q[..|q| - |suffix|])
  }

  // ---- the dashed address ----

  lemma {:induction false} DashesAppend(a: string, b: string)
    ensures Dashes(a + b) == Dashes(a) + Dashes(b)
    decreases |a|
  {
    if a == [] {
      assert a + b == b;
    } else {
      assert (a + b)[1..] == a[1..] + b;
      DashesAppend(a[1..], b);
    }
  }

  lemma {:induction false} NoDashes(s: string)
    requires Lacks(s, '-')
    ensures Dashes(s) == 0
    decreases |s|
  {
    if s != [] { NoDashes(s[1..]); }
  }

  lemma {:induction false} UndashAppend(a: string, b: string)
    ensures Undash(a + b) == Undash(a) + Undash(b)
  {
  }

  lemma {:induction false} UndashPlain(s: string)
    requires Lacks(s, '-')
    ensures Undash(s) == s
  {
  }

  lemma {:induction false} DashStep(a: string, rest: string)
    requires Lacks(a, '-')
    ensures Dashes(a + ['-'] + rest) == 1 + Dashes(rest)
    ensures Undash(a + ['-'] + rest) == a + ['.'] + Undash(rest)
  {
    DashesAppend(a + ['-'], rest);
    DashesAppend(a, ['-']);
    NoDashes(a);
    assert Dashes(['-']) == 1 by { assert ['-'][1..] == []; }
    UndashAppend(a + ['-'], rest);
    UndashAppend(a, ['-']);
    UndashPlain(a);
    assert Undash(['-']) == ['.'];
  }

  lemma OctetTextPlain(ip: IPv4, i: nat)
    requires i < 4
    ensures Lacks(OctetTexts(ip)[i], '-') && Lacks(OctetTexts(ip)[i], '.') && OctetTexts(ip)[i] != ""
  {
    DecimalLacks(Octet(ip, i), '-');
    DecimalLacks(Octet(ip, i), '.');
  }

  lemma {:induction false} DashedFour(a: string, b: string, c: string, d: string)
    requires Lacks(a, '-') && Lacks(b, '-') && Lacks(c, '-') && Lacks(d, '-')
    ensures Dashes(Join([a, b, c, d], '-')) == 3
    ensures Undash(Join([a, b, c, d], '-')) == Join([a, b, c, d], '.')
  {
    JoinFour(a, b, c, d, '-');
    JoinFour(a, b, c, d, '.');
    NoDashes(d);
    UndashPlain(d);
    DashStep(c, d);
    DashStep(b, c + ['-'] + d);
    DashStep(a, b + ['-'] + (c + ['-'] + d));
  }

  lemma {:induction false} DashedReads(ip: IPv4)
    ensures Dashes(DashedIP(ip)) == 3 && Undash(DashedIP(ip)) == Quad(ip)
    ensures Lacks(DashedIP(ip), '.') && DashedIP(ip) != ""
  {
    var t := OctetTexts(ip);
    forall i | 0 <= i < 4 ensures Lacks(t[i], '-') && Lacks(t[i], '.') && t[i] != "" { OctetTextPlain(ip, i); }
    assert t == [t[0], t[1], t[2], t[3]];
    DashedFour(t[0], t[1], t[2], t[3]);
    JoinFour(t[0], t[1], t[2], t[3], '-');
  }

  /** A dotless text is the only one that undashes to a given quad. */
  lemma {:induction false} UndashInjective(a: string, b: string)
    requires Lacks(a, '.') && Lacks(b, '.') && Undash(a) == Undash(b)
    ensures a == b
  {
    assert |a| == |b|;
    forall i | 0 <= i < |a| ensures a[i] == b[i] {
      assert Undash(a)[i] == Undash(b)[i];
    }
  }

  // ---- round trips ----

  lemma {:induction false} RestReads(ip: IPv4, ns: string)
    requires IsLabel(ns)
    ensures DecodeRest(DashedIP(ip) + "." + ns) == Some(Decoded(ip, ns))
  {
    DashedReads(ip);
    QuadParses(ip);
    var rest := DashedIP(ip) + "." + ns;
    FindAppend(DashedIP(ip), '.', ns);
    assert rest[..|DashedIP(ip)|] == DashedIP(ip) && rest[|DashedIP(ip)| + 1..] == ns;
  }

  /** Decoding an encoded name, in any case and with one trailing dot or none, gives back
      the address and the lower-cased namespace. */
  lemma {:induction false} DecodeOfEncode(ip: IPv4, namespace: string, clusterDomain: string, name: string)
    requires Encode(Some(ip), namespace, clusterDomain).Some?
    requires Lower(StripDot(name)) == Encode(Some(ip), namespace, clusterDomain).value
    ensures Decode(name, clusterDomain) == Some(Decoded(ip, Lower(namespace)))
  {
    var d, ns := Normalize(clusterDomain).value, Lower(namespace);
    var head, suffix := DashedIP(ip) + "." + ns, Suffix(d);
    var q := Lower(StripDot(name));
    assert q == head + suffix;
    assert q[|q| - |suffix|..] == suffix && q[..|q| - |suffix|] == head;
    RestReads(ip, ns);
  }

  lemma {:induction false} DashedIsOnly(dashed: string, ip: IPv4)
    requires Lacks(dashed, '.') && ParseQuad(Undash(dashed)) == Some(ip)
    ensures dashed == DashedIP(ip)
  {
    QuadIsOnlyText(Undash(dashed));
    DashedReads(ip);
    UndashInjective(dashed, DashedIP(ip));
  }

  lemma {:induction false} RestIsOnly(rest: string)
    requires DecodeRest(rest).Some?
    ensures var r := DecodeRest(rest).value;
            IsLabel(r.namespace) && rest == DashedIP(r.ip) + "." + r.namespace
  {
    var i := Find(rest, '.');
    DashedIsOnly(rest[..i], DecodeRest(rest).value.ip);
    assert rest == rest[..i] + "." + rest[i + 1..];
  }

  lemma LowerOfLabel(s: string)
    requires IsLabel(s)
    ensures Lower(s) == s
  {
  }

  lemma {:induction false} EncodeLabel(ip: IPv4, ns: string, clusterDomain: string, d: string)
    requires IsLabel(ns) && Normalize(clusterDomain) == Some(d)
    ensures Encode(Some(ip), ns, clusterDomain) == Some(DashedIP(ip) + "." + ns + Suffix(d))
  {
    LowerOfLabel(ns);
  }

  lemma {:induction false} CutAt(q: string, i: nat)
    requires i <= |q|
    ensures q == q[..i] + q[i..]
  {
  }

  lemma {:induction false} DecodeShape(name: string, clusterDomain: string) returns (d: string, rest: string)
    requires Decode(name, clusterDomain).Some?
    ensures Normalize(clusterDomain) == Some(d) && Lower(StripDot(name)) == rest + Suffix(d)
    ensures DecodeRest(rest) == Decode(name, clusterDomain)
  {
    d := Normalize(clusterDomain).value;
    var q, n := Lower(StripDot(name)), |Suffix(d)|;
    rest := q[..|q| - n];
    CutAt(q, |q| - n);
  }

  /** Any name that decodes re-encodes to itself up to case and one trailing dot. */
  lemma {:induction false} EncodeOfDecode(name: string, clusterDomain: string)
    requires Decode(name, clusterDomain).Some?
    ensures var r := Decode(name, clusterDomain).value;
            Encode(Some(r.ip), r.namespace, clusterDomain) == Some(Lower(StripDot(name)))
  {
    var d, rest := DecodeShape(name, clusterDomain);
    RestIsOnly(rest);
    var r := DecodeRest(rest).value;
    EncodeLabel(r.ip, r.namespace, clusterDomain, d);
  }

  lemma LowerTwice(s: string)
    ensures Lower(Lower(s)) == Lower(s)
  {
  }

  predicate EndsIn(d: string, last: string) { |last| <= |d| && d[|d| - |last|..] == last }

  lemma {:induction false} TailEnds(d: string, i: nat, last: string)
    requires i <= |d| && EndsIn(d[i..], last)
    ensures EndsIn(d, last)
  {
  }

  lemma {:induction false} LastLabel(d: string)
    ensures EndsIn(d, Split(d, '.')[|Split(d, '.')| - 1])
    decreases |d|
  {
    var i := Find(d, '.');
    if i < |d| {
      var q := Split(d[i + 1..], '.');
      LastLabel(d[i + 1..]);
      TailEnds(d, i + 1, q[|q| - 1]);
      assert Split(d, '.') == [d[..i]] + q;
    } else {
      assert Split(d, '.') == [d] && d[|d| - |d|..] == d;
    }
  }

  lemma {:induction false} NoTrailingDot(d: string)
    requires forall l <- Split(d, '.') :: IsLabel(l)
    ensures d != "" && d[|d| - 1] != '.'
  {
    LastLabel(d);
    var p := Split(d, '.');
    var last := p[|p| - 1];
    assert last in p && d[|d| - |last|..][|last| - 1] == d[|d| - 1];
  }

  /** An encoded name decodes as it stands: it has no trailing dot and is lower case. */
  lemma {:induction false} EncodedIsCanonical(ip: IPv4, namespace: string, clusterDomain: string)
    requires Encode(Some(ip), namespace, clusterDomain).Some?
    ensures var n := Encode(Some(ip), namespace, clusterDomain).value;
            Lower(StripDot(n)) == n && Decode(n, clusterDomain) == Some(Decoded(ip, Lower(namespace)))
  {
    var d, ns := Normalize(clusterDomain).value, Lower(namespace);
    var n := Encode(Some(ip), namespace, clusterDomain).value;
    NoTrailingDot(d);
    assert n[|n| - 1] == d[|d| - 1];
    LowerParts(ip, ns, d, clusterDomain);
    DecodeOfEncode(ip, namespace, clusterDomain, n);
  }

  lemma {:induction false} LowerAppend(a: string, b: string)
    ensures Lower(a + b) == Lower(a) + Lower(b)
  {
  }

  lemma {:induction false} LowerDashed(ip: IPv4)
    ensures Lower(DashedIP(ip)) == DashedIP(ip)
  {
    DashedReads(ip);
    QuadShape(ip);
    assert forall i :: 0 <= i < |DashedIP(ip)| ==> Undash(DashedIP(ip))[i] in Quad(ip);
  }

  lemma {:induction false} LowerJoined(a: string, ns: string, d: string)
    requires Lower(a) == a && Lower(ns) == ns && Lower(d) == d
    ensures Lower(a + "." + ns + Suffix(d)) == a + "." + ns + Suffix(d)
  {
    LowerAppend(".pod.", d);
    assert Lower(".pod.") == ".pod." && Lower(".") == ".";
    LowerAppend(a + "." + ns, Suffix(d));
    LowerAppend(a + ".", ns);
    LowerAppend(a, ".");
  }

  lemma {:induction false} LowerParts(ip: IPv4, ns: string, d: string, clusterDomain: string)
    requires IsLabel(ns) && d == Lower(StripDot(clusterDomain))
    ensures Lower(DashedIP(ip) + "." + ns + Suffix(d)) == DashedIP(ip) + "." + ns + Suffix(d)
  {
    LowerDashed(ip);
    LowerOfLabel(ns);
    LowerTwice(StripDot(clusterDomain));
    LowerJoined(DashedIP(ip), ns, d);
  }
}
