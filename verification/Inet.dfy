/** IPv4 prefixes as netip.Prefix holds them: an address, a length, masking,
    membership, and the text form with its parser. */
module Inet {
  import opened Text

  function Pow2(n: nat): (p: nat)
    ensures p >= 1
  {
    if n == 0 then 1 else 2 * Pow2(n - 1)
  }

  lemma ModLe(a: nat, n: nat)
    requires n >= 1
    ensures 0 <= a % n <= a
  {
    if a < n {
      assert a % n == a;
    }
  }

  lemma MulMono(n: nat, a: nat, b: nat)
    requires a <= b
    ensures n * a <= n * b
  {
    assert n * b == n * a + n * (b - a);
  }

  /** Multiples of n are n apart. */
  lemma MulGap(n: nat, a: nat, b: nat)
    ensures a < b ==> n * a + n <= n * b
    ensures b < a ==> n * b + n <= n * a
  {
    if a < b { MulMono(n, a + 1, b); }
    if b < a { MulMono(n, b + 1, a); }
  }

  /** Quotient and remainder are the only ones. */
  lemma DivUnique(a: nat, n: nat, q: nat, r: nat)
    requires n >= 1 && a == n * q + r && r < n
    ensures a / n == q && a % n == r
  {
    assert a == n * (a / n) + a % n;
    MulGap(n, a / n, q);
  }

  lemma RoundDown(a: nat, n: nat)
    requires n >= 1
    ensures 0 <= a - a % n <= a && (a - a % n) % n == 0
  {
    ModLe(a, n);
    var q := a / n;
    assert a - a % n == n * q;
    DivUnique(n * q, n, q, 0);
  }

  lemma SameQuotient(n: nat, a: nat, b: nat)
    requires n >= 1
    ensures a - a % n == b - b % n <==> a / n == b / n
  {
    assert a - a % n == n * (a / n) && b - b % n == n * (b / n);
    MulGap(n, a / n, b / n);
  }

  datatype Prefix = Prefix(addr: IPv4, bits: nat) {
    predicate Ok() { bits <= 32 }

    /** The number of addresses the prefix spans. */
    function Span(): (n: nat)
      requires Ok()
      ensures n >= 1
    {
      Pow2(32 - bits)
    }

    function Masked(): (p: Prefix)
      requires Ok()
      ensures p.Ok() && p.bits == bits && p.addr <= addr
    {
      ModLe(addr, Span());
      Prefix(addr - addr % Span(), bits)
    }

    predicate Contains(a: IPv4)
      requires Ok()
    {
      a / Span() == addr / Span()
    }

    function ToString(): string {
      Quad(addr) + "/" + Decimal(bits)
    }
  }

  /** Masking changes no membership, and masking twice nothing more. */
  lemma MaskedIsSame(p: Prefix, a: IPv4)
    requires p.Ok()
    ensures p.Masked().Contains(a) <==> p.Contains(a)
    ensures p.Masked().Masked() == p.Masked()
  {
    RoundDown(p.addr, p.Span());
    SameQuotient(p.Span(), p.Masked().addr, p.addr);
  }

  /** netip.ParsePrefix on IPv4 text: a quad, one slash, a canonical length of at most 32. */
  function ParsePrefix(s: string): (r: Option<Prefix>)
    ensures r.Some? ==> r.value.Ok()
  {
    var i := Find(s, '/');
    if i == |s| then None
    else
      var a, b := ParseQuad(s[..i]), s[i + 1..];
      if a.Some? && Canonical(b) && Value(b) <= 32 then Some(Prefix(a.value, Value(b))) else None
  }

  lemma PrefixParses(p: Prefix)
    requires p.Ok()
    ensures ParsePrefix(p.ToString()) == Some(p)
  {
    var a, b := Quad(p.addr), Decimal(p.bits);
    QuadShape(p.addr);
    assert forall i :: 0 <= i < |a| ==> a[i] in a;
    FindAppend(a, '/', b);
    assert p.ToString() == a + ['/'] + b;
    assert p.ToString()[..|a|] == a && p.ToString()[|a| + 1..] == b;
    QuadParses(p.addr);
    ValueOfDecimal(p.bits);
    DecimalIsCanonical(p.bits);
  }

  lemma PrefixText(p: Prefix)
    requires p.Ok()
    ensures 3 <= |p.ToString()| <= 18
    ensures forall c <- p.ToString() :: IsDigit(c) || c == '.' || c == '/'
  {
    QuadShape(p.addr);
    DecimalLength(p.bits);
  }

  lemma PrefixLacks(p: Prefix, sep: char)
    requires p.Ok() && !IsDigit(sep) && sep != '.' && sep != '/'
    ensures Lacks(p.ToString(), sep)
  {
    PrefixText(p);
    var s := p.ToString();
    assert forall i :: 0 <= i < |s| ==> s[i] in s;
  }
}
