/** The text forms the network's components exchange: decimal numbers, separated lists
    and dotted-quad addresses, each with the parser that reads it back. The quad parser
    is the strict one both sides use: netip.ParseAddr in Go and inet_pton in the shim
    take exactly four octets of at most 255 with no leading zero. */
module Text {

  datatype Option<+T> = None | Some(value: T)

  lemma Associative<T>(a: seq<T>, b: seq<T>, c: seq<T>)
    ensures (a + b) + c == a + (b + c)
  {
  }

  predicate IsDigit(c: char) { '0' <= c <= '9' }

  predicate AllDigits(s: string) { forall c <- s :: IsDigit(c) }

  function DigitChar(d: nat): (c: char)
    requires d < 10
    ensures IsDigit(c) && c as int == '0' as int + d
  {
    ('0' as int + d) as char
  }

  function DigitValue(c: char): (d: nat)
    requires IsDigit(c)
    ensures d < 10 && c as int == '0' as int + d
  {
    c as int - '0' as int
  }

  /** strconv.Itoa on a natural number. */
  function Decimal(n: nat): (s: string)
    ensures s != [] && AllDigits(s)
    ensures n > 0 ==> s[0] != '0'
  {
    if n < 10 then [DigitChar(n)] else Decimal(n / 10) + [DigitChar(n % 10)]
  }

  function Value(s: string): nat
    requires AllDigits(s)
  {
    if s == [] then 0 else Value(s[..|s| - 1]) * 10 + DigitValue(s[|s| - 1])
  }

  lemma {:induction false} ValueOfDecimal(n: nat)
    ensures Value(Decimal(n)) == n
  {
    if n >= 10 {
      ValueOfDecimal(n / 10);
      assert Decimal(n)[..|Decimal(n)| - 1] == Decimal(n / 10);
    }
  }

  predicate Canonical(s: string) {
    s != [] && AllDigits(s) && (s[0] == '0' ==> |s| == 1)
  }

  lemma DecimalIsCanonical(n: nat)
    ensures Canonical(Decimal(n))
  {
  }

  /** A decimal without a leading zero is the only text of its value. */
  lemma {:induction false} DecimalOfValue(s: string)
    requires Canonical(s)
    ensures Decimal(Value(s)) == s
    decreases |s|
  {
    if |s| > 1 {
      var front := s[..|s| - 1];
      DecimalOfValue(front);
      CanonicalPositive(front);
      assert Value(s) / 10 == Value(front) && Value(s) % 10 == DigitValue(s[|s| - 1]);
      assert DigitChar(DigitValue(s[|s| - 1])) == s[|s| - 1];
    } else {
      assert s[..0] == [] && Value(s) == DigitValue(s[0]);
      assert DigitChar(DigitValue(s[0])) == s[0];
      assert s == [s[0]];
    }
  }

  lemma {:induction false} CanonicalPositive(s: string)
    requires Canonical(s) && s[0] != '0'
    ensures Value(s) > 0
    decreases |s|
  {
    if |s| > 1 {
      CanonicalPositive(s[..|s| - 1]);
    }
  }

  lemma DecimalLength(n: nat)
    ensures n < 10 ==> |Decimal(n)| == 1
    ensures n < 100 ==> |Decimal(n)| <= 2
    ensures n < 1000 ==> |Decimal(n)| <= 3
  {
  }

  // ---- lists with a one-character separator ----

  predicate Lacks(s: string, sep: char) { forall i :: 0 <= i < |s| ==> s[i] != sep }

  /** A name with a trailing dot, and the name without it. */
  predicate Absolute(s: string) { s != [] && s[|s| - 1] == '.' }

  function StripDot(s: string): string { if Absolute(s) then s[..|s| - 1] else s }

  function Join(parts: seq<string>, sep: char): string {
    if parts == [] then []
    else if |parts| == 1 then parts[0]
    else parts[0] + [sep] + Join(parts[1..], sep)
  }

  /** The position of the first `sep`, or the length. */
  function Find(s: string, sep: char): (i: nat)
    ensures i <= |s| && Lacks(s[..i], sep) && (i < |s| ==> s[i] == sep)
  {
    if s == [] || s[0] == sep then 0
    else
      var i := Find(s[1..], sep);
      assert s[..1 + i] == [s[0]] + s[1..][..i];
      1 + i
  }

  function Split(s: string, sep: char): (parts: seq<string>)
    ensures parts != []
    decreases |s|
  {
    var i := Find(s, sep);
    if i == |s| then [s] else [s[..i]] + Split(s[i + 1..], sep)
  }

  lemma FindAppend(a: string, sep: char, b: string)
    requires Lacks(a, sep)
    ensures Find(a + [sep] + b, sep) == |a|
  {
    var s := a + [sep] + b;
    assert s[|a|] == sep && s[..|a|] == a;
  }

  lemma FindNone(a: string, sep: char)
    requires Lacks(a, sep)
    ensures Find(a, sep) == |a|
  {
    var i := Find(a, sep);
  }

  lemma {:induction false} SplitJoin(parts: seq<string>, sep: char)
    requires parts != [] && forall p <- parts :: Lacks(p, sep)
    ensures Split(Join(parts, sep), sep) == parts
  {
    if |parts| == 1 {
      FindNone(parts[0], sep);
    } else {
      var tail := Join(parts[1..], sep);
      FindAppend(parts[0], sep, tail);
      var s := parts[0] + [sep] + tail;
      assert s[..|parts[0]|] == parts[0] && s[|parts[0]| + 1..] == tail;
      SplitJoin(parts[1..], sep);
    }
  }

  lemma {:induction false} JoinSplit(s: string, sep: char)
    ensures Join(Split(s, sep), sep) == s
    ensures forall p <- Split(s, sep) :: Lacks(p, sep)
    decreases |s|
  {
    var i := Find(s, sep);
    if i < |s| {
      JoinSplit(s[i + 1..], sep);
      assert s == s[..i] + [sep] + s[i + 1..];
    } else {
      assert s[..i] == s;
    }
  }

  lemma {:induction false} SplitFirst(a: string, sep: char, b: string)
    requires Lacks(a, sep)
    ensures Split(a + [sep] + b, sep) == [a] + Split(b, sep)
  {
    FindAppend(a, sep, b);
    var s := a + [sep] + b;
    assert s[..|a|] == a && s[|a| + 1..] == b;
  }

  // ---- IPv4 addresses ----

  const WORD32: nat := 0x1_0000_0000

  /** An IPv4 address as its 32-bit value. */
  type IPv4 = v: nat | v < WORD32

  function Octet(v: IPv4, i: nat): (o: nat)
    requires i < 4
    ensures o < 256
  {
    var half := if i < 2 then v / 0x1_0000 else v % 0x1_0000;
    if i % 2 == 0 then half / 256 else half % 256
  }

  function FromOctets(a: nat, b: nat, c: nat, d: nat): (v: IPv4)
    requires a < 256 && b < 256 && c < 256 && d < 256
    ensures Octet(v, 0) == a && Octet(v, 1) == b && Octet(v, 2) == c && Octet(v, 3) == d
  {
    var hi, lo := a * 256 + b, c * 256 + d;
    assert (hi * 0x1_0000 + lo) / 0x1_0000 == hi && (hi * 0x1_0000 + lo) % 0x1_0000 == lo;
    hi * 0x1_0000 + lo
  }

  lemma OctetsOf(v: IPv4)
    ensures FromOctets(Octet(v, 0), Octet(v, 1), Octet(v, 2), Octet(v, 3)) == v
  {
  }

  function OctetTexts(v: IPv4): seq<string> {
    [Decimal(Octet(v, 0)), Decimal(Octet(v, 1)), Decimal(Octet(v, 2)), Decimal(Octet(v, 3))]
  }

  function Quad(v: IPv4): string {
    Join(OctetTexts(v), '.')
  }

  function ParseOctet(s: string): Option<nat> {
    if Canonical(s) && Value(s) < 256 then Some(Value(s)) else None
  }

  function ParseOctets(p: seq<string>): Option<IPv4> {
    if |p| == 4 && ParseOctet(p[0]).Some? && ParseOctet(p[1]).Some? && ParseOctet(p[2]).Some? && ParseOctet(p[3]).Some?
    then Some(FromOctets(Value(p[0]), Value(p[1]), Value(p[2]), Value(p[3])))
    else None
  }

  function ParseQuad(s: string): Option<IPv4> {
    ParseOctets(Split(s, '.'))
  }

  lemma DecimalLacks(n: nat, sep: char)
    requires !IsDigit(sep)
    ensures Lacks(Decimal(n), sep)
  {
  }

  lemma ParseOctetOfDecimal(n: nat)
    requires n < 256
    ensures ParseOctet(Decimal(n)) == Some(n)
  {
    ValueOfDecimal(n);
    DecimalIsCanonical(n);
  }

  lemma OctetTextsParse(v: IPv4)
    ensures ParseOctets(OctetTexts(v)) == Some(v)
  {
    forall i | 0 <= i < 4 ensures ParseOctet(Decimal(Octet(v, i))) == Some(Octet(v, i)) {
      ParseOctetOfDecimal(Octet(v, i));
    }
    OctetsOf(v);
  }

  /** A rendered address reads back as itself. */
  lemma QuadParses(v: IPv4)
    ensures ParseQuad(Quad(v)) == Some(v)
  {
    forall i | 0 <= i < 4 ensures Lacks(OctetTexts(v)[i], '.') {
      DecimalLacks(Octet(v, i), '.');
    }
    SplitJoin(OctetTexts(v), '.');
    OctetTextsParse(v);
  }

  lemma OctetsParseBack(p: seq<string>)
    requires ParseOctets(p).Some?
    ensures p == OctetTexts(ParseOctets(p).value)
  {
    DecimalOfValue(p[0]);
    DecimalOfValue(p[1]);
    DecimalOfValue(p[2]);
    DecimalOfValue(p[3]);
  }

  /** Only the rendered form of an address is accepted for it. */
  lemma QuadIsOnlyText(s: string)
    requires ParseQuad(s).Some?
    ensures s == Quad(ParseQuad(s).value)
  {
    OctetsParseBack(Split(s, '.'));
    JoinSplit(s, '.');
  }

  lemma JoinFour(a: string, b: string, c: string, d: string, sep: char)
    ensures Join([a, b, c, d], sep) == a + [sep] + (b + [sep] + (c + [sep] + d))
  {
    assert [a, b, c, d][1..] == [b, c, d];
    assert [b, c, d][1..] == [c, d];
    assert [c, d][1..] == [d];
    assert Join([c, d], sep) == c + [sep] + d;
    assert Join([b, c, d], sep) == b + [sep] + Join([c, d], sep);
  }

  lemma QuadShape(v: IPv4)
    ensures |Quad(v)| <= 15 && forall c <- Quad(v) :: IsDigit(c) || c == '.'
    ensures Quad(v) != [] && IsDigit(Quad(v)[0])
  {
    var t := OctetTexts(v);
    JoinFour(t[0], t[1], t[2], t[3], '.');
    DecimalLength(Octet(v, 0));
    DecimalLength(Octet(v, 1));
    DecimalLength(Octet(v, 2));
    DecimalLength(Octet(v, 3));
    assert Quad(v)[0] == t[0][0];
  }
}
