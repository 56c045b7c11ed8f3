/** Bytes and the big-endian words of the packets and messages the network parses. */
module Bytes {
  type Byte = x: int | 0 <= x < 256

  function U16(b: seq<Byte>, i: nat): (r: nat)
    requires i + 2 <= |b|
    ensures r < 0x1_0000
  {
    (b[i] as int) * 256 + b[i + 1]
  }

  function Hi(w: nat): (b: Byte)
    requires w < 0x1_0000
  {
    w / 256
  }

  function Lo(w: nat): (b: Byte) { w % 256 }

  /** The bytes b stand at offset `off` of r. */
  predicate At(r: seq<Byte>, off: nat, b: seq<Byte>) { off + |b| <= |r| && r[off..off + |b|] == b }

  lemma {:induction false} AtAppend(r: seq<Byte>, off: nat, a: seq<Byte>, b: seq<Byte>)
    requires At(r, off, a + b)
    ensures At(r, off, a) && At(r, off + |a|, b)
  {
    var s := r[off..off + |a + b|];
    assert r[off..off + |a|] == s[..|a|] && r[off + |a|..off + |a| + |b|] == s[|a|..];
  }

  lemma {:induction false} AtIndex(r: seq<Byte>, off: nat, b: seq<Byte>, i: nat)
    requires At(r, off, b) && i < |b|
    ensures off + i < |r| && r[off + i] == b[i]
  {
    assert r[off..off + |b|][i] == r[off + i];
  }
}
