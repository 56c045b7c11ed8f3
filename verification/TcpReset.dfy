/** The SYN decision and the reset packet (pkg/mesh/refuse.go:61-142): which packets a
    peer sent are refused, and the RST|ACK that refuses one, with its ones'-complement
    checksums (RFC 1071) and acknowledgment number (section 3.10.7.1 of RFC 9293). */
module TcpReset {
  import opened Text
  import opened Inet
  import opened Bytes

  type Packet = seq<Byte>

  function U32(b: seq<Byte>, i: nat): (r: nat)
    requires i + 4 <= |b|
    ensures r < 0x1_0000_0000
  {
    U16(b, i) * 0x1_0000 + U16(b, i + 2)
  }

  function HeaderLen(pkt: Packet): nat
    requires |pkt| >= 1
  {
    pkt[0] % 16 * 4
  }

  function TotalLen(pkt: Packet): nat
    requires |pkt| >= 4
  {
    U16(pkt, 2)
  }

  /** The TCP segment of a packet whose lengths were checked. */
  function Segment(pkt: Packet): Packet
    requires |pkt| >= 4 && HeaderLen(pkt) <= TotalLen(pkt) <= |pkt|
  {
    pkt[HeaderLen(pkt)..TotalLen(pkt)]
  }

  function DataOffset(tcp: Packet): nat
    requires |tcp| >= 20
  {
    tcp[12] / 16 * 4
  }

  predicate Bit(flags: Byte, mask: nat)
    requires mask > 0
  {
    flags / mask % 2 == 1
  }

  /** SYN without ACK, RST or FIN. */
  predicate OpensConnection(flags: Byte) { Bit(flags, 2) && !Bit(flags, 16) && !Bit(flags, 4) && !Bit(flags, 1) }

  /** An unfragmented IPv4 packet holding a whole TCP segment. */
  predicate WholeTcp(pkt: Packet) {
    && |pkt| >= 20 && pkt[0] / 16 == 4 && pkt[9] == 6
    && HeaderLen(pkt) >= 20 && TotalLen(pkt) <= |pkt| && TotalLen(pkt) >= HeaderLen(pkt) + 20
    && U16(pkt, 6) % 0x4000 == 0
    && 20 <= DataOffset(Segment(pkt)) <= |Segment(pkt)|
  }

  predicate PodAddress(node: Prefix, dst: IPv4)
    requires node.Ok()
  {
    node.Contains(dst) && 2 <= dst % 256 <= 254
  }

  /** refuseSYN. `node` is None for a prefix that is not a valid IPv4 one, `held`
      None for an allocation the caller does not know yet. */
  predicate RefuseSyn(pkt: Packet, node: Option<Prefix>, held: Option<set<IPv4>>) {
    && held.Some? && node.Some? && node.value.bits == 24
    && WholeTcp(pkt) && OpensConnection(Segment(pkt)[13])
    && !node.value.Contains(U32(pkt, 12))
    && PodAddress(node.value, U32(pkt, 16)) && U32(pkt, 16) !in held.value
  }

  // ---- RFC 1071 ----

  /** The sum of the big-endian 16-bit words, an odd last byte padded with zero. */
  function WordSum(b: seq<Byte>): nat {
    if |b| == 0 then 0
    else if |b| == 1 then (b[0] as int) * 256
    else U16(b, 0) + WordSum(b[2..])
  }

  lemma {:induction false} WordSumAppend(a: seq<Byte>, b: seq<Byte>)
    requires |a| % 2 == 0
    ensures WordSum(a + b) == WordSum(a) + WordSum(b)
    decreases |a|
  {
    if |a| == 0 {
      assert a + b == b;
    } else {
      assert (a + b)[2..] == a[2..] + b;
      WordSumAppend(a[2..], b);
    }
  }

  method OnesSum(b: seq<Byte>, acc: nat) returns (r: nat)
    requires acc < 0x1_0000_0000
    ensures r == (acc + WordSum(b)) % 0x1_0000_0000
  {
    r := acc;
    var i := 0;
    while |b| - i >= 2
      invariant 0 <= i <= |b| && r < 0x1_0000_0000
      invariant (acc + WordSum(b)) % 0x1_0000_0000 == (r + WordSum(b[i..])) % 0x1_0000_0000
    {
      WrapStep(r, U16(b, i), WordSum(b[i + 2..]));
      assert b[i..][2..] == b[i + 2..];
      r := (r + U16(b, i)) % 0x1_0000_0000;
      i := i + 2;
    }
    if |b| - i == 1 {
      r := (r + (b[i] as int) * 256) % 0x1_0000_0000;
    }
  }

  lemma WrapStep(r: nat, w: nat, rest: nat)
    ensures (r + (w + rest)) % 0x1_0000_0000 == ((r + w) % 0x1_0000_0000 + rest) % 0x1_0000_0000
  {
  }

  /** The 16-bit ones'-complement value of a sum. */
  function Fold(acc: nat): (r: nat)
    ensures r < 0x1_0000
    decreases acc
  {
    if acc / 0x1_0000 == 0 then acc else Fold(acc % 0x1_0000 + acc / 0x1_0000)
  }

  lemma CarryAround(acc: nat)
    ensures (acc % 0x1_0000 + acc / 0x1_0000) % 0xffff == acc % 0xffff
  {
    var q, r := acc / 0x1_0000, acc % 0x1_0000;
    assert acc == (r + q) + 0xffff * q;
  }

  /** Folding keeps the value modulo 2^16 - 1 and never turns a positive sum into zero. */
  lemma {:induction false} FoldMod(acc: nat)
    ensures Fold(acc) % 0xffff == acc % 0xffff && (Fold(acc) == 0 <==> acc == 0)
    decreases acc
  {
    if acc / 0x1_0000 != 0 {
      CarryAround(acc);
      FoldMod(acc % 0x1_0000 + acc / 0x1_0000);
    }
  }

  method FoldCarries(acc: nat) returns (r: nat)
    ensures r == Fold(acc)
  {
    r := acc;
    while r / 0x1_0000 != 0
      invariant Fold(r) == Fold(acc)
      decreases r
    {
      r := r % 0x1_0000 + r / 0x1_0000;
    }
  }

  method InetChecksum(b: seq<Byte>, acc: nat) returns (r: nat)
    requires acc + WordSum(b) < 0x1_0000_0000
    ensures r == 0xffff - Fold(acc + WordSum(b))
  {
    r := OnesSum(b, acc);
    r := FoldCarries(r);
    r := 0xffff - r;
  }

  /** Summed with its own checksum, any data folds to all ones: the check a receiver makes. */
  lemma {:induction false} ChecksumVerifies(sum: nat)
    ensures Fold(sum + (0xffff - Fold(sum))) == 0xffff
  {
    var f := Fold(sum + (0xffff - Fold(sum)));
    FoldMod(sum);
    FoldMod(sum + (0xffff - Fold(sum)));
    Complement(sum, Fold(sum));
    assert f % 0xffff == 0 && f != 0;
  }

  lemma Complement(sum: nat, f: nat)
    requires f < 0x1_0000 && f % 0xffff == sum % 0xffff
    ensures (sum + (0xffff - f)) % 0xffff == 0
  {
  }

  // ---- the reset ----

  function SegLen(syn: Packet): (r: nat)
    requires WholeTcp(syn)
    ensures r >= 1
  {
    TotalLen(syn) - HeaderLen(syn) - DataOffset(Segment(syn)) + 1
  }

  function Ack(syn: Packet): (r: nat)
    requires WholeTcp(syn)
    ensures r < 0x1_0000_0000
  {
    (U32(Segment(syn), 4) + SegLen(syn)) % 0x1_0000_0000
  }

  function Front(syn: Packet): seq<Byte> { [0x45, 0, 0, 40, 0, 0, 0x40, 0, 64, 6] }

  function Addresses(syn: Packet): seq<Byte>
    requires |syn| >= 20
  {
    syn[16..20] + syn[12..16]
  }

  function Numbers(syn: Packet): seq<Byte>
    requires WholeTcp(syn)
  {
    var a := Ack(syn);
    Segment(syn)[2..4] + Segment(syn)[0..2] + [0, 0, 0, 0]
    + [Hi(a / 0x1_0000), Lo(a / 0x1_0000), Hi(a % 0x1_0000), Lo(a % 0x1_0000)] + [0x50, 0x14, 0, 0]
  }

  function Pseudo(syn: Packet): seq<Byte>
    requires |syn| >= 20
  {
    Addresses(syn) + [0, 6, 0, 20]
  }

  function HeaderSum(syn: Packet): nat
    requires |syn| >= 20
  {
    WordSum(Front(syn)) + WordSum(Addresses(syn))
  }

  function SegmentSum(syn: Packet): nat
    requires WholeTcp(syn)
  {
    WordSum(Pseudo(syn)) + WordSum(Numbers(syn))
  }

  function Word(w: nat): (b: seq<Byte>)
    requires w < 0x1_0000
    ensures |b| == 2 && U16(b, 0) == w && WordSum(b) == w
  {
    var b := [Hi(w), Lo(w)];
    assert b[2..] == [];
    b
  }

  /** The reset that refuses `syn`, as its fields. */
  function Reset(syn: Packet): Packet
    requires WholeTcp(syn)
  {
    Front(syn) + Word(0xffff - Fold(HeaderSum(syn))) + Addresses(syn)
    + (Numbers(syn) + Word(0xffff - Fold(SegmentSum(syn))) + [0, 0])
  }

  lemma {:induction false} ResetShape(syn: Packet)
    requires WholeTcp(syn)
    ensures |Addresses(syn)| == 8 && |Numbers(syn)| == 16 && |Reset(syn)| == 40
    ensures Reset(syn)[..10] == Front(syn) && Reset(syn)[12..20] == Addresses(syn)
    ensures Reset(syn)[..20] == Front(syn) + Word(0xffff - Fold(HeaderSum(syn))) + Addresses(syn)
    ensures Reset(syn)[20..] == Numbers(syn) + Word(0xffff - Fold(SegmentSum(syn))) + [0, 0]
  {
  }

  /** The receiver's check of the IP header. */
  lemma {:induction false} HeaderChecksumVerifies(syn: Packet)
    requires WholeTcp(syn)
    ensures Fold(WordSum(Reset(syn)[..20])) == 0xffff
  {
    ResetShape(syn);
    var c := Word(0xffff - Fold(HeaderSum(syn)));
    WordSumAppend(Front(syn) + c, Addresses(syn));
    WordSumAppend(Front(syn), c);
    ChecksumVerifies(HeaderSum(syn));
  }

  /** The receiver's check of the segment over its pseudo-header: the reset's own
      addresses, the protocol and the segment length. */
  lemma {:induction false} SegmentChecksumVerifies(syn: Packet)
    requires WholeTcp(syn)
    ensures var r := Reset(syn);
            Fold(WordSum(r[12..20] + [0, 6, 0, 20]) + WordSum(r[20..])) == 0xffff
  {
    ResetShape(syn);
    var c := Word(0xffff - Fold(SegmentSum(syn)));
    WordSumAppend(Numbers(syn) + c, [0, 0]);
    WordSumAppend(Numbers(syn), c);
    ZeroWord();
    ChecksumVerifies(SegmentSum(syn));
  }

  lemma ZeroWord()
    ensures WordSum([0, 0]) == 0
  {
    assert WordSum([0, 0]) == U16([0, 0], 0) + WordSum([0, 0][2..]);
  }

  lemma {:induction false} HeadBytes(syn: Packet)
    requires WholeTcp(syn)
    ensures |Reset(syn)| == 40
    ensures forall i :: 0 <= i < 10 ==> Reset(syn)[i] == Front(syn)[i]
    ensures U32(Reset(syn), 12) == U32(syn, 16) && U32(Reset(syn), 16) == U32(syn, 12)
  {
    ResetShape(syn);
    var r := Reset(syn);
    assert forall i :: 0 <= i < 10 ==> r[i] == r[..10][i];
    assert forall i :: 12 <= i < 20 ==> r[i] == r[12..20][i - 12];
  }

  lemma {:induction false} NumberFields(syn: Packet)
    requires WholeTcp(syn)
    ensures |Numbers(syn)| == 16
    ensures var n, tcp := Numbers(syn), Segment(syn);
            && U16(n, 0) == U16(tcp, 2) && U16(n, 2) == U16(tcp, 0) && U32(n, 4) == 0
            && U32(n, 8) == Ack(syn) && n[12] == 0x50 && n[13] == 0x14
  {
  }

  lemma {:induction false} TailBytes(syn: Packet)
    requires WholeTcp(syn)
    ensures |Reset(syn)| == 40 && |Numbers(syn)| == 16
    ensures forall i :: 20 <= i < 36 ==> Reset(syn)[i] == Numbers(syn)[i - 20]
  {
    ResetShape(syn);
    var r := Reset(syn);
    assert forall i :: 20 <= i < 36 ==> r[i] == r[20..][i - 20];
  }

  lemma {:induction false} ResetLengths(r: Packet)
    requires |r| == 40 && (forall i :: 0 <= i < 10 ==> r[i] == [0x45, 0, 0, 40, 0, 0, 0x40, 0, 64, 6][i])
             && r[32] == 0x50
    ensures WholeTcp(r) && Segment(r) == r[20..40]
  {
    assert r[0] == 0x45 && r[2] == 0 && r[3] == 40 && r[6] == 0x40 && r[7] == 0 && r[9] == 6;
    assert HeaderLen(r) == 20 && TotalLen(r) == 40 && U16(r, 6) == 0x4000;
    assert Segment(r)[12] == r[32];
  }

  lemma {:induction false} ResetIsWhole(syn: Packet)
    requires WholeTcp(syn)
    ensures |Reset(syn)| == 40 && WholeTcp(Reset(syn)) && Segment(Reset(syn)) == Reset(syn)[20..40]
  {
    HeadBytes(syn);
    NumberFields(syn);
    TailBytes(syn);
    ResetLengths(Reset(syn));
  }

  /** What the reset says: from the SYN's destination to its source, ports swapped, flags
      RST and ACK, sequence zero, acknowledging the SYN and its data modulo 2^32. */
  lemma {:induction false} ResetAnswers(syn: Packet)
    requires WholeTcp(syn)
    ensures |Reset(syn)| == 40
    ensures var r, tcp := Reset(syn), Segment(syn);
            && U32(r, 12) == U32(syn, 16) && U32(r, 16) == U32(syn, 12)
            && U16(r, 20) == U16(tcp, 2) && U16(r, 22) == U16(tcp, 0)
            && U32(r, 24) == 0 && r[33] == 0x14
            && U32(r, 28) == (U32(tcp, 4) + (|tcp| - DataOffset(tcp)) + 1) % 0x1_0000_0000
  {
    HeadBytes(syn);
    NumberFields(syn);
    TailBytes(syn);
    assert |Segment(syn)| == TotalLen(syn) - HeaderLen(syn);
  }

  /** A reset is never refused itself, whatever the node and its allocation. */
  lemma {:induction false} ResetNeverRefused(syn: Packet, node: Option<Prefix>, held: Option<set<IPv4>>)
    requires WholeTcp(syn)
    ensures !RefuseSyn(Reset(syn), node, held)
  {
    ResetIsWhole(syn);
    ResetAnswers(syn);
    assert Segment(Reset(syn))[13] == Reset(syn)[33];
  }

  // ---- tcpReset, filling its buffer in place ----

  method Copy(r: array<Byte>, at: nat, src: seq<Byte>)
    requires at + |src| <= r.Length
    modifies r
    ensures forall j :: 0 <= j < r.Length ==> r[j] == if at <= j < at + |src| then src[j - at] else old(r[j])
  {
    for i := 0 to |src|
      invariant forall j :: 0 <= j < r.Length ==> r[j] == if at <= j < at + i then src[j - at] else old(r[j])
    {
      r[at + i] := src[i];
    }
  }

  lemma {:induction false} HeaderSumOf(syn: Packet, h: seq<Byte>)
    requires |syn| >= 20 && h == Front(syn) + [0, 0] + Addresses(syn)
    ensures WordSum(h) == HeaderSum(syn)
  {
    WordSumAppend(Front(syn) + [0, 0], Addresses(syn));
    WordSumAppend(Front(syn), [0, 0]);
    ZeroWord();
  }

  lemma {:induction false} SegmentSumOf(syn: Packet, t: seq<Byte>)
    requires WholeTcp(syn) && t == Numbers(syn) + [0, 0] + [0, 0]
    ensures WordSum(Pseudo(syn)) + WordSum(t) == SegmentSum(syn)
  {
    WordSumAppend(Numbers(syn) + [0, 0], [0, 0]);
    WordSumAppend(Numbers(syn), [0, 0]);
    ZeroWord();
  }

  lemma {:induction false} WordSumBound(b: seq<Byte>)
    ensures WordSum(b) <= 0xffff * |b|
    decreases |b|
  {
    if |b| >= 2 { WordSumBound(b[2..]); }
  }

  method HeaderChecksum(syn: Packet, h: seq<Byte>) returns (c: nat)
    requires |syn| >= 20 && h == Front(syn) + [0, 0] + Addresses(syn)
    ensures c == 0xffff - Fold(HeaderSum(syn))
  {
    HeaderSumOf(syn, h);
    WordSumBound(h);
    c := InetChecksum(h, 0);
  }

  method FillHeader(r: array<Byte>, syn: Packet)
    requires |syn| >= 20 && r.Length == 40 && forall i :: 0 <= i < 40 ==> r[i] == 0
    modifies r
    ensures r[..20] == Front(syn) + Word(0xffff - Fold(HeaderSum(syn))) + Addresses(syn)
    ensures forall i :: 20 <= i < 40 ==> r[i] == 0
  {
    r[0] := 0x45;
    r[2], r[3] := Hi(40), Lo(40);
    r[6] := 0x40;
    r[8] := 64;
    r[9] := 6;
    Copy(r, 12, syn[16..20]);
    Copy(r, 16, syn[12..16]);
    assert r[..20] == Front(syn) + [0, 0] + Addresses(syn);
    var c := HeaderChecksum(syn, r[..20]);
    Copy(r, 10, Word(c));
  }

  method FillNumbers(r: array<Byte>, syn: Packet)
    requires WholeTcp(syn) && r.Length == 40 && forall i :: 20 <= i < 40 ==> r[i] == 0
    modifies r
    ensures forall i :: 0 <= i < 20 ==> r[i] == old(r[i])
    ensures r[20..] == Numbers(syn) + [0, 0] + [0, 0]
  {
    var ihl, total := HeaderLen(syn), TotalLen(syn);
    var tcp := syn[ihl..total];
    var segLen := total - ihl - tcp[12] / 16 * 4 + 1;
    var ack := (U32(tcp, 4) + segLen) % 0x1_0000_0000;
    Copy(r, 20, tcp[2..4]);
    Copy(r, 22, tcp[0..2]);
    Copy(r, 28, [Hi(ack / 0x1_0000), Lo(ack / 0x1_0000), Hi(ack % 0x1_0000), Lo(ack % 0x1_0000)]);
    r[32], r[33] := 0x50, 0x14;
    assert ack == Ack(syn);
  }

  method SegmentChecksum(syn: Packet, addresses: seq<Byte>, t: seq<Byte>) returns (c: nat)
    requires WholeTcp(syn) && addresses == Addresses(syn) && t == Numbers(syn) + [0, 0] + [0, 0]
    ensures c == 0xffff - Fold(SegmentSum(syn))
  {
    var pseudo := addresses + [0, 6] + [Hi(20), Lo(20)];
    assert pseudo == Pseudo(syn) && |pseudo| == 12;
    SegmentSumOf(syn, t);
    NumberFields(syn);
    WordSumBound(pseudo);
    WordSumBound(t);
    c := SumOfTwo(pseudo, t);
  }

  method SumOfTwo(a: seq<Byte>, b: seq<Byte>) returns (c: nat)
    requires WordSum(a) + WordSum(b) < 0x1_0000_0000
    ensures c == 0xffff - Fold(WordSum(a) + WordSum(b))
  {
    var acc := OnesSum(a, 0);
    assert acc == WordSum(a);
    c := InetChecksum(b, acc);
  }

  lemma PutWord(n: seq<Byte>, w: seq<Byte>, before: seq<Byte>, after: seq<Byte>)
    requires |n| == 16 && |w| == 2 && before == n + [0, 0] + [0, 0] && |after| == 20
    requires forall j :: 0 <= j < 20 ==> after[j] == if 16 <= j < 18 then w[j - 16] else before[j]
    ensures after == n + w + [0, 0]
  {
  }

  method FillSegment(r: array<Byte>, syn: Packet)
    requires WholeTcp(syn) && r.Length == 40 && r[12..20] == Addresses(syn) && forall i :: 20 <= i < 40 ==> r[i] == 0
    modifies r
    ensures r[..20] == old(r[..20])
    ensures r[20..] == Numbers(syn) + Word(0xffff - Fold(SegmentSum(syn))) + [0, 0]
  {
    FillNumbers(r, syn);
    assert r[12..20] == old(r[12..20]);
    var c := SegmentChecksum(syn, r[12..20], r[20..]);
    ghost var before := r[20..];
    Copy(r, 36, Word(c));
    NumberFields(syn);
    PutWord(Numbers(syn), Word(c), before, r[20..]);
  }

  /** tcpReset. refuseSYN's acceptance is what keeps every read inside the packet. */
  method BuildReset(syn: Packet) returns (r: array<Byte>)
    requires WholeTcp(syn)
    ensures r[..] == Reset(syn)
  {
    r := new Byte[40](_ => 0);
    FillHeader(r, syn);
    assert r[12..20] == r[..20][12..20] == Addresses(syn);
    FillSegment(r, syn);
    assert r[..] == r[..20] + r[20..];
  }
}
