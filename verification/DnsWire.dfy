/** The shim's DNS queries (shim/getaddrinfo_shim.c:589-684): the name encoder and the
    query it builds, against the name format of section 3.1 of RFC 1035. */
module DnsWire {
  import opened Text
  import opened Bytes
  import D = DnsServers

  // ---- names ----

  predicate ByteString(s: string) { forall i :: 0 <= i < |s| ==> s[i] as int < 256 }

  function Raw(s: string): (b: seq<Byte>)
    requires ByteString(s)
    ensures |b| == |s| && forall i :: 0 <= i < |s| ==> b[i] == s[i] as int
  {
    seq(|s|, i requires 0 <= i < |s| => s[i] as int)
  }

  /** Byte i of a dotted name's wire form: a label's length where one starts, the root at
      the end, and otherwise the character before it. */
  function WireByte(s: string, i: nat): Byte
    requires ByteString(s) && i <= |s| + 1
  {
    if i == |s| + 1 then 0
    else if i == 0 || s[i - 1] == '.' then Find(s[i..], '.') % 256
    else s[i - 1] as int
  }

  function WireName(s: string): (b: seq<Byte>)
    requires ByteString(s)
    ensures |b| == |s| + 2 && forall i :: 0 <= i < |b| ==> b[i] == WireByte(s, i)
  {
    seq(|s| + 2, i requires 0 <= i < |s| + 2 => WireByte(s, i))
  }

  lemma {:induction false} WireOne(s: string)
    requires ByteString(s) && Lacks(s, '.') && |s| < 256
    ensures WireName(s) == [|s|] + Raw(s) + [0]
  {
    FindNone(s, '.');
    assert s[0..] == s;
    var w := [|s|] + Raw(s) + [0];
    assert forall i :: 0 <= i < |s| + 2 ==> w[i] == WireByte(s, i);
  }

  lemma {:induction false} WireCons(lab: string, rest: string)
    requires ByteString(lab) && ByteString(rest) && Lacks(lab, '.') && |lab| < 256
    ensures ByteString(lab + ['.'] + rest)
    ensures WireName(lab + ['.'] + rest) == [|lab|] + Raw(lab) + WireName(rest)
  {
    var s := lab + ['.'] + rest;
    FindAppend(lab, '.', rest);
    assert s[0..] == s;
    var w := [|lab|] + Raw(lab) + WireName(rest);
    forall i | 0 <= i < |s| + 2 ensures w[i] == WireByte(s, i) {
      if i > |lab| {
        var k := i - |lab| - 1;
        assert w[i] == WireByte(rest, k);
        if k > 0 && k <= |rest| { assert s[i - 1] == rest[k - 1]; }
        if k <= |rest| { assert s[i..] == rest[k..]; }
      }
    }
  }

  /** Every label has 1 to 63 bytes, label by label. */
  predicate Fit(s: string)
    decreases |s|
  {
    var i := Find(s, '.');
    1 <= i <= 63 && (i < |s| ==> Fit(s[i + 1..]))
  }

  lemma {:induction false} FitLabels(s: string)
    ensures Fit(s) <==> D.LabelsFit(s)
    decreases |s|
  {
    var i := Find(s, '.');
    if i < |s| {
      FitLabels(s[i + 1..]);
      assert Split(s, '.') == [s[..i]] + Split(s[i + 1..], '.');
    } else {
      assert Split(s, '.') == [s];
    }
  }

  function Labels(s: string): seq<seq<Byte>>
    requires ByteString(s)
    decreases |s|
  {
    var i := Find(s, '.');
    if i == |s| then [Raw(s)] else [Raw(s[..i])] + Labels(s[i + 1..])
  }

  datatype Read = Read(labels: seq<seq<Byte>>, size: nat)

  /** Labels up to the root, section 3.1 of RFC 1035; None for anything else. */
  function ReadName(b: seq<Byte>): Option<Read>
    decreases |b|
  {
    if b == [] || b[0] > 63 || 1 + b[0] > |b| then None
    else if b[0] == 0 then Some(Read([], 1))
    else
      var rest := ReadName(b[1 + b[0]..]);
      if rest.None? then None else Some(Read([b[1..1 + b[0]]] + rest.value.labels, 1 + b[0] + rest.value.size))
  }

  lemma {:induction false} ReadLabel(lab: seq<Byte>, rest: seq<Byte>)
    requires 1 <= |lab| <= 63 && ReadName(rest).Some?
    ensures ReadName([|lab|] + lab + rest)
            == Some(Read([lab] + ReadName(rest).value.labels, 1 + |lab| + ReadName(rest).value.size))
  {
    var b := [|lab|] + lab + rest;
    assert b[1..1 + |lab|] == lab && b[1 + |lab|..] == rest;
  }

  lemma {:induction false} LastDecodes(lab: seq<Byte>, after: seq<Byte>)
    requires 1 <= |lab| <= 63
    ensures ReadName([|lab|] + lab + [0] + after) == Some(Read([lab], |lab| + 2))
  {
    RootDecodes(after);
    ReadLabel(lab, [0] + after);
    assert [|lab|] + lab + [0] + after == [|lab|] + lab + ([0] + after);
    assert [lab] + [] == [lab];
  }

  lemma {:induction false} FirstDecodes(lab: seq<Byte>, wire: seq<Byte>, after: seq<Byte>, r: Read)
    requires 1 <= |lab| <= 63 && ReadName(wire + after) == Some(r)
    ensures ReadName([|lab|] + lab + wire + after) == Some(Read([lab] + r.labels, 1 + |lab| + r.size))
  {
    ReadLabel(lab, wire + after);
    assert [|lab|] + lab + wire + after == [|lab|] + lab + (wire + after);
  }

  lemma {:induction false} ConsDecodes(s: string, lab: string, rest: string, after: seq<Byte>, r: Read)
    requires s == lab + ['.'] + rest && ByteString(s) && ByteString(lab) && ByteString(rest) && Lacks(lab, '.')
             && 1 <= |lab| <= 63
    requires ReadName(WireName(rest) + after) == Some(r)
    ensures ReadName(WireName(s) + after) == Some(Read([Raw(lab)] + r.labels, 1 + |lab| + r.size))
  {
    WireCons(lab, rest);
    FirstDecodes(Raw(lab), WireName(rest), after, r);
  }

  lemma {:induction false} OneDecodes(s: string, after: seq<Byte>)
    requires ByteString(s) && Lacks(s, '.') && 1 <= |s| <= 63
    ensures ReadName(WireName(s) + after) == Some(Read([Raw(s)], |s| + 2))
  {
    WireOne(s);
    LastDecodes(Raw(s), after);
  }

  lemma {:induction false} FitDecodes(s: string, after: seq<Byte>)
    requires ByteString(s) && Fit(s)
    ensures ReadName(WireName(s) + after) == Some(Read(Labels(s), |s| + 2))
    decreases |s|
  {
    var i := Find(s, '.');
    var lab := s[..i];
    if i == |s| {
      assert lab == s;
      OneDecodes(s, after);
    } else {
      var rest := s[i + 1..];
      FitDecodes(rest, after);
      assert s == lab + ['.'] + rest;
      ConsDecodes(s, lab, rest, after, Read(Labels(rest), |rest| + 2));
    }
  }

  /** What the encoder writes decodes to exactly the name's labels, whatever follows it. */
  lemma {:induction false} WireNameDecodes(s: string, after: seq<Byte>)
    requires ByteString(s) && D.LabelsFit(s)
    ensures ReadName(WireName(s) + after) == Some(Read(Labels(s), |s| + 2))
  {
    FitLabels(s);
    FitDecodes(s, after);
  }

  lemma RootDecodes(after: seq<Byte>)
    ensures ReadName([0] + after) == Some(Read([], 1))
  {
  }

  // ---- k3sm_encode_name ----

  /** One label, its length in front. */
  method WriteLabel(name: string, p: nat, dot: nat, buf: array<Byte>)
    requires ByteString(name) && p <= dot <= |name| && dot - p < 256 && dot + 1 <= buf.Length
    modifies buf
    ensures buf[p] == dot - p && forall j :: p < j <= dot ==> buf[j] == name[j - 1] as int
    ensures forall j :: 0 <= j < p ==> buf[j] == old(buf[j])
  {
    buf[p] := dot - p;
    for i := p to dot
      invariant buf[p] == dot - p && forall j :: p < j <= i ==> buf[j] == name[j - 1] as int
      invariant forall j :: 0 <= j < p ==> buf[j] == old(buf[j])
    {
      buf[i + 1] := name[i] as int;
    }
  }

  /** The bytes of one label are the wire form's. */
  lemma {:induction false} LabelBytes(name: string, p: nat)
    requires ByteString(name) && p <= |name| && (p == 0 || name[p - 1] == '.') && Find(name[p..], '.') < 256
    ensures var dot := p + Find(name[p..], '.');
            && WireByte(name, p) == dot - p
            && (forall j :: p < j <= dot ==> WireByte(name, j) == name[j - 1] as int)
  {
    var dot := p + Find(name[p..], '.');
    var t := name[p..][..dot - p];
    assert forall k :: 0 <= k < |t| ==> t[k] == name[p + k];
    forall j | p < j <= dot ensures WireByte(name, j) == name[j - 1] as int {
      assert t[j - 1 - p] == name[j - 1];
    }
  }

  lemma {:induction false} EmptyLastLabel(s: string)
    requires Absolute(s)
    ensures !Fit(s)
    decreases |s|
  {
    var i := Find(s, '.');
    if i < |s| - 1 { EmptyLastLabel(s[i + 1..]); }
  }

  /** k3sm_encode_name: succeeds exactly when the name without one trailing dot is not
      empty, each of its labels has 1 to 63 bytes and the bytes leave room in the buffer;
      then they are its wire form. The label loop ends at a final dot. */
  method EncodeName(name: string, buf: array<Byte>) returns (n: int)
    requires ByteString(name)
    modifies buf
    ensures var bare := StripDot(name); n >= 0 <==> bare != "" && D.LabelsFit(bare) && |bare| + 2 < buf.Length
    ensures var bare := StripDot(name); n >= 0 ==> n == |bare| + 2 && ByteString(bare) && buf[..n] == WireName(bare)
  {
    if name == "" || name == "." { return -1; }
    var bare := StripDot(name);
    if Absolute(bare) {
      FitLabels(bare);
      EmptyLastLabel(bare);
      return -1;
    }
    FitLabels(bare);
    n := EncodeLabels(bare, buf);
    if n < 0 || n + 1 >= buf.Length { return -1; }
    buf[n] := 0;
    n := n + 1;
  }

  predicate Written(buf: seq<Byte>, name: string, n: nat)
    requires ByteString(name) && n <= |name| + 1
  {
    n <= |buf| && forall j :: 0 <= j < n ==> buf[j] == WireByte(name, j)
  }

  lemma {:induction false} WrittenStep(name: string, p: nat, dot: nat, before: seq<Byte>, after: seq<Byte>)
    requires ByteString(name) && p <= |name| && (p == 0 || name[p - 1] == '.') && Find(name[p..], '.') < 256
    requires dot == p + Find(name[p..], '.') && Written(before, name, p) && dot < |after| == |before|
    requires after[p] == dot - p && (forall j :: p < j <= dot ==> after[j] == name[j - 1] as int)
    requires forall j :: 0 <= j < p ==> after[j] == before[j]
    ensures Written(after, name, dot + 1)
  {
    LabelBytes(name, p);
  }

  lemma FitStep(s: string, p: nat)
    requires p <= |s|
    ensures var d := p + Find(s[p..], '.');
            d <= |s| && (Fit(s[p..]) <==> 1 <= d - p <= 63 && (d < |s| ==> Fit(s[d + 1..])))
            && (d < |s| ==> s[d] == '.')
  {
    var i := Find(s[p..], '.');
    if i < |s[p..]| { assert s[p..][i + 1..] == s[p + i + 1..]; }
  }

  /** The labels from p on all fit. */
  predicate FitsFrom(name: string, p: nat)
    requires p <= |name|
  {
    Fit(name[p..])
  }

  lemma {:induction false} NextLabel(name: string, p: nat)
    requires p < |name| && !Absolute(name)
    ensures var d := p + Find(name[p..], '.');
            && d <= |name| && (d < |name| ==> name[d] == '.' && d + 1 < |name|)
            && (FitsFrom(name, p) <==> 1 <= d - p <= 63 && (d < |name| ==> FitsFrom(name, d + 1)))
  {
    FitStep(name, p);
  }

  /** The label at p, or dot == p when it does not fit; `fit` tells whether the labels from
      p on all do, `rest` whether those after it do. */
  method OneLabel(name: string, p: nat, buf: array<Byte>, ghost fit: bool) returns (dot: nat, ghost rest: bool)
    requires ByteString(name) && !Absolute(name) && p < |name| && (p == 0 || name[p - 1] == '.')
    requires Written(buf[..], name, p) && fit == FitsFrom(name, p)
    modifies buf
    ensures p <= dot <= |name|
            && (p < dot < |name| ==> name[dot] == '.' && dot + 1 < |name| && rest == FitsFrom(name, dot + 1))
    ensures dot > p ==> dot + 1 < buf.Length && Written(buf[..], name, dot + 1) && fit == (dot < |name| ==> rest)
    ensures dot == p ==> !fit || |name| + 1 >= buf.Length
  {
    dot := p + Find(name[p..], '.');
    NextLabel(name, p);
    rest := dot < |name| && FitsFrom(name, dot + 1);
    if dot == p || dot - p > 63 || dot + 1 >= buf.Length {
      return p, false;
    }
    PutLabel(name, p, dot, buf);
  }

  method PutLabel(name: string, p: nat, dot: nat, buf: array<Byte>)
    requires ByteString(name) && p <= |name| && (p == 0 || name[p - 1] == '.') && Find(name[p..], '.') < 256
    requires dot == p + Find(name[p..], '.') && dot < buf.Length && Written(buf[..], name, p)
    modifies buf
    ensures Written(buf[..], name, dot + 1)
  {
    ghost var before := buf[..];
    WriteLabel(name, p, dot, buf);
    WrittenStep(name, p, dot, before, buf[..]);
  }

  /** The label loop: |name| + 1 bytes, or -1 at the first label that does not fit. */
  method EncodeLabels(name: string, buf: array<Byte>) returns (n: int)
    requires ByteString(name) && name != "" && !Absolute(name)
    modifies buf
    ensures n >= 0 ==> Fit(name) && n == |name| + 1 < buf.Length && Written(buf[..], name, n)
    ensures n < 0 ==> !Fit(name) || |name| + 1 >= buf.Length
  {
    var p := 0;
    ghost var all, fit := Fit(name), Fit(name);
    assert name[0..] == name;
    while true
      invariant 0 <= p < |name| && (p == 0 || name[p - 1] == '.')
      invariant fit == FitsFrom(name, p) && fit == all
      invariant Written(buf[..], name, p)
      decreases |name| - p
    {
      var dot;
      dot, fit := OneLabel(name, p, buf, fit);
      if dot == p { return -1; }
      if dot == |name| { return |name| + 1; }
      p := dot + 1;
    }
  }

  // ---- k3sm_build_query ----

  const EDNS_SIZE := 1232

  /** Header with RD and the two counts, one A question in class IN, and the OPT record. */
  function QueryOf(name: string): seq<Byte>
    requires ByteString(name)
  {
    [0x12, 0x34, 0x01, 0, 0, 0x01, 0, 0, 0, 0, 0, 0x01] + WireName(name) + [0, 1, 0, 1]
    + [0, 0, 0x29, Hi(EDNS_SIZE), Lo(EDNS_SIZE), 0, 0, 0, 0, 0, 0]
  }

  /** A candidate within the shared length limit gives a query exactly when it is
      encodable, and the query always fits its 512 bytes. The name goes to the buffer's
      tail, here its own array of the 500 bytes left after the header. */
  method BuildQuery(name: string) returns (q: Option<seq<Byte>>)
    requires ByteString(name) && |name| <= D.MAX_NAME_LEN
    ensures q.Some? <==> D.Encodable(name)
    ensures var bare := StripDot(name);
            q.Some? ==> ByteString(bare) && q.value == QueryOf(bare) && |q.value| == |bare| + 29 <= 512
  {
    var tail := new Byte[512 - 12];
    var npos := EncodeName(name, tail);
    if npos < 0 { return None; }
    var pos := 12 + npos;
    if pos + 4 + 11 > 512 { return None; }
    var head := [0x12, 0x34, 0x01, 0, 0, 0x01, 0, 0, 0, 0, 0, 0x01];
    q := Some(head + tail[..npos] + [0, 1, 0, 1] + [0, 0, 0x29, Hi(EDNS_SIZE), Lo(EDNS_SIZE), 0, 0, 0, 0, 0, 0]);
  }
}
