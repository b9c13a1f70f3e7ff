/** Fixed-width numbers as bytes, and the order of byte strings. */
module ByteOrder {
  import opened Arith

  type Byte = b: int | 0 <= b < 256

  function Pow256(w: nat): (p: nat)
    ensures p >= 1
    decreases w
  {
    if w == 0 then 1 else 256 * Pow256(w - 1)
  }

  /** Most significant byte first. */
  function BigEndian(n: nat, w: nat): (s: seq<Byte>)
    requires n < Pow256(w)
    ensures |s| == w
    decreases w
  {
    if w == 0 then []
    else
      DigitIsByte(n, Pow256(w - 1));
      [n / Pow256(w - 1)] + BigEndian(n % Pow256(w - 1), w - 1)
  }

  lemma DigitIsByte(n: nat, p: nat)
    requires p >= 1 && n < 256 * p
    ensures 0 <= n / p < 256 && n % p < p && n == p * (n / p) + n % p
  {
    var q: int := n / p;
    if q >= 256 {
      Distribute(p, q - 256, 256);
      Multiple(p, q - 256);
    }
  }

  function Value(s: seq<Byte>): (n: nat)
    decreases |s|
  {
    if s == [] then 0 else Pow256(|s| - 1) * s[0] + Value(s[1..])
  }

  lemma {:induction false} ValueBound(s: seq<Byte>)
    ensures Value(s) < Pow256(|s|)
    decreases |s|
  {
    if s != [] {
      ValueBound(s[1..]);
      Scaled(Pow256(|s| - 1), s[0], Value(s[1..]));
    }
  }

  lemma Scaled(p: nat, b: Byte, rest: nat)
    requires rest < p
    ensures p * b + rest < 256 * p
  {
    var z: int := b;
    Multiple(p, 256 - z);
    Distribute(p, 256, -z);
  }

  lemma {:induction false} BigEndianRoundTrip(n: nat, w: nat)
    requires n < Pow256(w)
    ensures Value(BigEndian(n, w)) == n
    decreases w
  {
    if w > 0 {
      var p := Pow256(w - 1);
      DigitIsByte(n, p);
      BigEndianRoundTrip(n % p, w - 1);
      assert BigEndian(n, w)[1..] == BigEndian(n % p, w - 1);
    }
  }

  // ---- byte order ------------------------------------------------------------------

  predicate Less(a: seq<Byte>, b: seq<Byte>)
    decreases |a|
  {
    b != [] && (a == [] || a[0] < b[0] || (a[0] == b[0] && Less(a[1..], b[1..])))
  }

  lemma Leading(p: nat, x: Byte, y: Byte, r: nat, s: nat)
    requires r < p && s < p
    ensures p * x + r < p * y + s <==> x < y || (x == y && r < s)
  {
    var d: int := y - x;
    Distribute(p, x, d);
    Multiple(p, d);
  }

  /** Among byte strings of one length the order is that of the numbers they spell. */
  lemma {:induction false} LessIsLess(a: seq<Byte>, b: seq<Byte>)
    requires |a| == |b|
    ensures Less(a, b) <==> Value(a) < Value(b)
    ensures a == b <==> Value(a) == Value(b)
    decreases |a|
  {
    if a != [] {
      LessIsLess(a[1..], b[1..]);
      ValueBound(a[1..]);
      ValueBound(b[1..]);
      Leading(Pow256(|a| - 1), a[0], b[0], Value(a[1..]), Value(b[1..]));
      Leading(Pow256(|a| - 1), b[0], a[0], Value(b[1..]), Value(a[1..]));
      assert a == [a[0]] + a[1..] && b == [b[0]] + b[1..];
    }
  }

  /** Concatenation compares the first parts first. */
  lemma {:induction false} LessOfParts(a: seq<Byte>, b: seq<Byte>, c: seq<Byte>, d: seq<Byte>)
    requires |a| == |b|
    ensures Less(a + c, b + d) <==> Less(a, b) || (a == b && Less(c, d))
    decreases |a|
  {
    if a == [] {
      assert a + c == c && b + d == d;
    } else {
      LessOfParts(a[1..], b[1..], c, d);
      assert (a + c)[1..] == a[1..] + c && (b + d)[1..] == b[1..] + d;
      assert a == [a[0]] + a[1..] && b == [b[0]] + b[1..];
    }
  }

  /** Big-endian bytes are ordered as the numbers are. */
  lemma BigEndianOrder(m: nat, n: nat, w: nat)
    requires m < Pow256(w) && n < Pow256(w)
    ensures Less(BigEndian(m, w), BigEndian(n, w)) <==> m < n
    ensures BigEndian(m, w) == BigEndian(n, w) <==> m == n
  {
    BigEndianRoundTrip(m, w);
    BigEndianRoundTrip(n, w);
    LessIsLess(BigEndian(m, w), BigEndian(n, w));
  }

  lemma {:induction false} LessIrreflexive(a: seq<Byte>)
    ensures !Less(a, a)
    decreases |a|
  {
    if a != [] {
      LessIrreflexive(a[1..]);
    }
  }

  lemma {:induction false} LessTransitive(a: seq<Byte>, b: seq<Byte>, c: seq<Byte>)
    requires Less(a, b) && Less(b, c)
    ensures Less(a, c)
    decreases |a|
  {
    if a != [] && a[0] == b[0] == c[0] {
      LessTransitive(a[1..], b[1..], c[1..]);
    }
  }

  // ---- little-endian bytes ---------------------------------------------------------

  function LittleEndian(n: nat, w: nat): (s: seq<Byte>)
    ensures |s| == w
    decreases w
  {
    if w == 0 then [] else [n % 256] + LittleEndian(n / 256, w - 1)
  }

  lemma {:induction false} LittleEndianInjective(m: nat, n: nat, w: nat)
    requires m < Pow256(w) && n < Pow256(w)
    ensures LittleEndian(m, w) == LittleEndian(n, w) ==> m == n
    decreases w
  {
    if w > 0 && LittleEndian(m, w) == LittleEndian(n, w) {
      assert LittleEndian(m, w)[0] == LittleEndian(n, w)[0];
      assert LittleEndian(m, w)[1..] == LittleEndian(m / 256, w - 1);
      assert LittleEndian(n, w)[1..] == LittleEndian(n / 256, w - 1);
      LittleEndianInjective(m / 256, n / 256, w - 1);
    }
  }
}
