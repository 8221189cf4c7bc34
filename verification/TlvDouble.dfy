/** The numbers that doubles stand for. */
module Doubles {
  import opened Bytes
  import opened Tlv
  import opened TlvCodec
  import opened TlvGrammar

  function Pow2(k: nat): (p: nat)
    ensures p > 0
  {
    if k == 0 then 1 else 2 * Pow2(k - 1)
  }

  lemma {:induction false} Pow2Sum(j: nat, k: nat)
    ensures Pow2(j + k) == Pow2(j) * Pow2(k)
    decreases j
  {
    if j > 0 {
      Pow2Sum(j - 1, k);
      assert Pow2(j + k) == 2 * Pow2(j - 1 + k);
      Twice(Pow2(j - 1), Pow2(k));
    }
  }

  lemma Twice(a: int, b: int)
    ensures 2 * (a * b) == (2 * a) * b
  {
  }

  lemma Cancel(a: int, b: int, c: int)
    requires c > 0
    ensures a * c == b * c <==> a == b
  {
    if a * c == b * c {
      assert (a - b) * c == 0;
      if a != b {
        NoZero(a - b, c);
      }
    }
  }

  lemma NoZero(a: int, c: int)
    requires a != 0 && c > 0
    ensures a * c != 0
  {
    if a > 0 { assert a * c >= c; } else { assert a * c <= -c; }
  }

  lemma {:induction false} ShiftLeftTimes(m: int, k: nat)
    ensures ShiftLeft(m, k) == m * Pow2(k)
    decreases k
  {
    if k > 0 {
      ShiftLeftTimes(2 * m, k - 1);
      Twice(m, Pow2(k - 1));
      assert (2 * m) * Pow2(k - 1) == m * (2 * Pow2(k - 1));
    }
  }

  lemma {:induction false} ShiftRightDivides(m: int, k: nat, q: int)
    ensures ShiftRight(m, k) == Some(q) <==> q * Pow2(k) == m
    decreases k
  {
    if k > 0 {
      assert q * Pow2(k) == 2 * (q * Pow2(k - 1));
      if m % 2 == 0 {
        ShiftRightDivides(m / 2, k - 1, q);
      }
    }
  }

  // ----- fields

  /** Bit 63, bits 62 to 52, and the rest. */
  predicate Negative(n: nat) {
    n >= 0x8000_0000_0000_0000
  }

  function Exponent(n: nat): nat {
    (n / 0x10_0000_0000_0000) % 0x800
  }

  function Mantissa(n: nat): nat {
    n % 0x10_0000_0000_0000
  }

  function Significand(n: nat): int {
    (if Negative(n) then -1 else 1) * (0x10_0000_0000_0000 + Mantissa(n))
  }

  /** A normal double reads as the integer that it is, if it is one, and else as a double. */
  lemma DoubleIsNumber(b: bytes, q: int)
    requires |b| == 8 && 0 < Exponent(FromLE(b)) < 0x7FF
    ensures NumberOfDouble(b) == Num(q) <==>
            q * Pow2(1075) == Significand(FromLE(b)) * Pow2(Exponent(FromLE(b)))
    ensures NumberOfDouble(b).Num? || NumberOfDouble(b) == Dbl(b)
  {
    hide Pow2;
    var n := FromLE(b);
    var m, e := Significand(n), Exponent(n);
    Scaled(m, e, 1075, q);
  }

  /** m * 2^e / 2^bias, shifted one way or the other. */
  lemma Scaled(m: int, e: nat, bias: nat, q: int)
    ensures e >= bias ==> (ShiftLeft(m, e - bias) == q <==> q * Pow2(bias) == m * Pow2(e))
    ensures e < bias ==> (ShiftRight(m, bias - e) == Some(q) <==> q * Pow2(bias) == m * Pow2(e))
  {
    hide Pow2;
    if e >= bias {
      var k := e - bias;
      ShiftLeftTimes(m, k);
      Pow2Sum(k, bias);
      Regroup(m, Pow2(k), Pow2(bias));
      Cancel(m * Pow2(k), q, Pow2(bias));
    } else {
      var k := bias - e;
      ShiftRightDivides(m, k, q);
      Pow2Sum(k, e);
      Regroup(q, Pow2(k), Pow2(e));
      Cancel(q * Pow2(k), m, Pow2(e));
    }
  }

  lemma Regroup(a: int, b: int, c: int)
    ensures a * (b * c) == (a * b) * c
  {
  }

  /** Zero reads as 0 under either sign; subnormal numbers, infinities and what is no number stay doubles. */
  lemma OtherDoubles(b: bytes)
    requires |b| == 8 && (Exponent(FromLE(b)) == 0 || Exponent(FromLE(b)) == 0x7FF)
    ensures NumberOfDouble(b)
            == if Exponent(FromLE(b)) == 0 && Mantissa(FromLE(b)) == 0 then Num(0) else Dbl(b)
  {
  }

  // ----- integers

  function Magnitude(n: int): nat {
    if n < 0 then -n else n
  }

  /** floor(log2(a)) */
  function Log2(a: nat): (k: nat)
    requires a > 0
    ensures Pow2(k) <= a < 2 * Pow2(k)
  {
    if a == 1 then 0 else 1 + Log2(a / 2)
  }

  /** The IEEE 754 double of an integer that has one. */
  function BitsOf(n: int): nat
    requires Magnitude(n) <= 0x20_0000_0000_0000
  {
    if n == 0 then 0
    else
      var k := Log2(Magnitude(n));
      (if n < 0 then 0x8000_0000_0000_0000 else 0) + (1023 + k) * 0x10_0000_0000_0000
      + if k <= 52 then Magnitude(n) * Pow2(52 - k) - 0x10_0000_0000_0000 else 0
  }

  lemma Pow2Of52()
    ensures Pow2(52) == 0x10_0000_0000_0000 && Pow2(53) == 0x20_0000_0000_0000 && Pow2(54) == 0x40_0000_0000_0000
  {
    assert Pow2(16) == 0x1_0000;
    Pow2Sum(16, 16);
    Pow2Sum(32, 16);
    Pow2Sum(48, 4);
    assert Pow2(4) == 16;
  }

  lemma FieldsOf(sign: nat, e: nat, m: nat)
    requires sign <= 1 && e < 0x800 && m < 0x10_0000_0000_0000
    ensures var n := sign * 0x8000_0000_0000_0000 + e * 0x10_0000_0000_0000 + m;
            Exponent(n) == e && Mantissa(n) == m && (Negative(n) <==> sign == 1) && n < 0x1_0000_0000_0000_0000
  {
    var n := sign * 0x8000_0000_0000_0000 + e * 0x10_0000_0000_0000 + m;
    assert n == (sign * 0x800 + e) * 0x10_0000_0000_0000 + m;
    assert n / 0x10_0000_0000_0000 == sign * 0x800 + e;
  }

  /** The first bit of an integer is the implicit one, the others fill the mantissa from the top. */
  lemma IntegerFields(a: nat, k: nat)
    requires 0 < a <= 0x20_0000_0000_0000 && Pow2(k) <= a < 2 * Pow2(k)
    ensures k <= 53 && (k == 53 ==> a == 0x20_0000_0000_0000)
    ensures k <= 52 ==> 0x10_0000_0000_0000 <= a * Pow2(52 - k) < 0x20_0000_0000_0000
    ensures a * Pow2(1075)
            == (if k <= 52 then a * Pow2(52 - k) else 0x10_0000_0000_0000) * Pow2(1023 + k)
  {
    hide Pow2;
    Pow2Of52();
    if k > 53 {
      Pow2Grows(54, k);
    }
    if k <= 52 {
      Pow2Sum(k, 52 - k);
      Ordered(Pow2(k), a, Pow2(52 - k));
      Ordered(a, 2 * Pow2(k) - 1, Pow2(52 - k));
      Spread(Pow2(k), Pow2(52 - k));
      Pow2Sum(52 - k, 1023 + k);
      Regroup(a, Pow2(52 - k), Pow2(1023 + k));
    } else if k == 53 {
      Pow2Sum(52, 1076);
      Pow2Sum(53, 1075);
    }
  }

  lemma {:induction false} Pow2Grows(j: nat, k: nat)
    requires j <= k
    ensures Pow2(j) <= Pow2(k)
    decreases k
  {
    if j < k {
      Pow2Grows(j, k - 1);
    }
  }

  lemma Ordered(a: nat, b: nat, c: nat)
    requires a <= b
    ensures a * c <= b * c
  {
  }

  lemma Spread(p: nat, c: nat)
    requires c > 0
    ensures (2 * p - 1) * c == 2 * (p * c) - c
  {
  }

  lemma BitsFields(n: int)
    requires n != 0 && Magnitude(n) <= 0x20_0000_0000_0000
    ensures var k := Log2(Magnitude(n));
            var c := if k <= 52 then Magnitude(n) * Pow2(52 - k) else 0x10_0000_0000_0000;
            && BitsOf(n) < 0x1_0000_0000_0000_0000 && k <= 53
            && Exponent(BitsOf(n)) == 1023 + k && Significand(BitsOf(n)) == if n < 0 then -c else c
  {
    hide Pow2;
    hide Exponent;
    hide Mantissa;
    hide Negative;
    var k := Log2(Magnitude(n));
    IntegerFields(Magnitude(n), k);
    FieldsOf(if n < 0 then 1 else 0, 1023 + k,
             if k <= 52 then Magnitude(n) * Pow2(52 - k) - 0x10_0000_0000_0000 else 0);
  }

  /** The bytes of the double of every integer of up to 53 bits read as that integer. */
  lemma IntegerReadsBack(n: int)
    requires Magnitude(n) <= 0x20_0000_0000_0000
    ensures BitsOf(n) < Pow256(8) && NumberOfDouble(ToLE(BitsOf(n), 8)) == Num(n)
  {
    hide *;
    Pow256Values();
    if n == 0 {
      ZeroReadsBack();
    } else {
      BitsFields(n);
      NumberOfBits(n, BitsOf(n));
    }
  }

  lemma ZeroReadsBack()
    ensures BitsOf(0) == 0 && NumberOfDouble(ToLE(0, 8)) == Num(0)
  {
    FromToLE(0, 8);
    OtherDoubles(ToLE(0, 8));
  }

  lemma NumberOfBits(n: int, bits: nat)
    requires n != 0 && Magnitude(n) <= 0x20_0000_0000_0000 && bits < Pow256(8)
    requires var k := Log2(Magnitude(n));
             var c := if k <= 52 then Magnitude(n) * Pow2(52 - k) else 0x10_0000_0000_0000;
             k <= 53 && Exponent(bits) == 1023 + k && Significand(bits) == if n < 0 then -c else c
    ensures NumberOfDouble(ToLE(bits, 8)) == Num(n)
  {
    hide *;
    var a := Magnitude(n);
    SignOf(n);
    var k := Log2(a);
    var c := if k <= 52 then a * Pow2(52 - k) else 0x10_0000_0000_0000;
    IntegerFields(a, k);
    FromToLE(bits, 8);
    DoubleIsNumber(ToLE(bits, 8), n);
    SignedProduct(n, a, Pow2(1075), c, Pow2(1023 + k));
  }

  lemma SignOf(n: int)
    ensures Magnitude(n) == if n < 0 then -n else n
  {
  }

  lemma SignedProduct(n: int, a: int, p: int, c: int, d: int)
    requires a == (if n < 0 then -n else n) && a * p == c * d
    ensures n * p == (if n < 0 then -c else c) * d
  {
    assert (-a) * p == -(a * p) && (-c) * d == -(c * d);
  }

  /** As an element: control byte, then the double. */
  lemma IntegerDoubleDecodes(n: int, x: bytes)
    requires Magnitude(n) <= 0x20_0000_0000_0000
    ensures ReadHead([0x0B] + ToLE(BitsOf(n), 8) + x) == Ok(Head(0x0B, Element(None, None, Double, Num(n)), x))
  {
    hide *;
    IntegerReadsBack(n);
    DoubleHead(ToLE(BitsOf(n), 8), x);
  }

  /** Eight bytes behind the control byte are read as one double. */
  lemma DoubleHead(b: bytes, x: bytes)
    requires |b| == 8
    ensures ReadHead([0x0B] + b + x) == Ok(Head(0x0B, Element(None, None, Double, NumberOfDouble(b)), x))
  {
    hide NumberOfDouble;
    hide HeadFrom;
    assert ([0x0B] + b + x)[1..] == b + x;
    DoubleBody(b, x);
  }

  lemma DoubleBody(b: bytes, x: bytes)
    requires |b| == 8
    ensures HeadFrom(0x0B, 0, b + x) == Ok(Head(0x0B, Element(None, None, Double, NumberOfDouble(b)), x))
  {
    hide NumberOfDouble;
    assert (b + x)[..8] == b && Skip(b + x, 8) == x && Skip(b + x, 0) == b + x;
  }
}
