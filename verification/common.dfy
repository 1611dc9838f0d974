/** Fixed-width integer types, the driver's status codes and the value types
    shared by every layer of the XPT2046 touch driver model. */
module Common {

  type U8 = v: int | 0 <= v < 0x100
  type U16 = v: int | 0 <= v < 0x1_0000
  type U32 = v: int | 0 <= v < 0x1_0000_0000

  const TwoTo31: int := 0x8000_0000
  const TwoTo32: int := 0x1_0000_0000

  /** xpt2046_status_t */
  datatype Status = Ok | Error | CalInProgress

  /** One touch sample: page (x), column (y), pressure and the pressed flag.
      Used both for the raw and the filtered sample and for the stored touch. */
  datatype Sample = Sample(x: U16, y: U16, force: U16, pressed: bool)

  /** xpt2046_point_t: two int64 coordinates. */
  datatype Point = Point(x: int, y: int)

  predicate IsInt32(v: int) {
    -TwoTo31 <= v < TwoTo31
  }

  /** Two integers that agree modulo 2^32, i.e. have the same int32 bit pattern. */
  predicate Congruent32(a: int, b: int) {
    (a - b) % TwoTo32 == 0
  }

  /** Conversion of an integer to int32 as the compiler does it (two's complement,
      modulo 2^32). Also models a wrapping int32 addition or subtraction. */
  function Wrap32(v: int): (r: int)
    ensures IsInt32(r)
    ensures Congruent32(v, r)
    ensures IsInt32(v) ==> r == v
  {
    (v + TwoTo31) % TwoTo32 - TwoTo31
  }

  /** Two int32 values with the same bit pattern are equal. */
  lemma Int32Unique(a: int, b: int)
    requires IsInt32(a) && IsInt32(b) && Congruent32(a, b)
    ensures a == b
  {
    var k := (a - b) / TwoTo32;
    assert a - b == TwoTo32 * k;
  }

  lemma CongruentSym(a: int, b: int)
    requires Congruent32(a, b)
    ensures Congruent32(b, a)
  {
    var k := (a - b) / TwoTo32;
    assert b - a == TwoTo32 * -k;
  }

  lemma CongruentTrans(a: int, b: int, c: int)
    requires Congruent32(a, b) && Congruent32(b, c)
    ensures Congruent32(a, c)
  {
    var k := (a - b) / TwoTo32;
    var j := (b - c) / TwoTo32;
    assert a - c == TwoTo32 * (k + j);
  }

  /** Wrapping depends only on the value modulo 2^32. */
  lemma Wrap32Congruent(a: int, b: int)
    requires Congruent32(a, b)
    ensures Wrap32(a) == Wrap32(b)
  {
    CongruentTrans(Wrap32(a), a, b);
    CongruentTrans(Wrap32(a), b, Wrap32(b));
    Int32Unique(Wrap32(a), Wrap32(b));
  }

  lemma CongruentAdd(a: int, b: int, c: int, d: int)
    requires Congruent32(a, b) && Congruent32(c, d)
    ensures Congruent32(a + c, b + d)
  {
    var k := (a - b) / TwoTo32;
    var j := (c - d) / TwoTo32;
    assert (a + c) - (b + d) == TwoTo32 * (k + j);
  }

  lemma CongruentSub(a: int, b: int, c: int, d: int)
    requires Congruent32(a, b) && Congruent32(c, d)
    ensures Congruent32(a - c, b - d)
  {
    var k := (a - b) / TwoTo32;
    var j := (c - d) / TwoTo32;
    assert (a - c) - (b - d) == TwoTo32 * (k - j);
  }

  lemma CongruentMul(a: int, b: int, c: int)
    requires Congruent32(a, b)
    ensures Congruent32(a * c, b * c) && Congruent32(c * a, c * b)
  {
    var k := (a - b) / TwoTo32;
    assert a - b == TwoTo32 * k;
    assert a * c - b * c == TwoTo32 * (k * c);
    assert c * a - c * b == TwoTo32 * (k * c);
  }

  /** Quotient and remainder are determined by the division equation. */
  lemma DivUnique(u: int, d: int, q: int, r: int)
    requires d >= 1 && 0 <= r < d && u == q * d + r
    ensures u / d == q && u % d == r
  {
    var q' := u / d;
    var r' := u % d;
    assert u == q' * d + r';
    assert (q - q') * d == r' - r;
    if q > q' {
      MulAtLeast(q - q', d);
    } else if q < q' {
      MulAtLeast(q' - q, d);
    }
  }

  lemma MulAtLeast(k: int, d: int)
    requires k >= 1 && d >= 0
    ensures k * d >= d
  {
    assert (k - 1) * d >= 0;
  }

  lemma DivDiv(u: nat, a: nat, b: nat)
    requires a >= 1 && b >= 1
    ensures u / a / b == u / (a * b)
  {
    var q := u / a;
    var r := u % a;
    var q2 := q / b;
    var r2 := q % b;
    assert u == q * a + r;
    assert q == q2 * b + r2;
    MulAddDistrib(q2, b, r2, a);
    assert u == q2 * (a * b) + (r2 * a + r);
    assert r2 * a + r < a * b by {
      MulAddDistrib(1, b - 1, 0, a);
      MulMono(r2, b - 1, a);
    }
    DivUnique(u, a * b, q2, r2 * a + r);
  }

  lemma MulAddDistrib(x: int, y: int, z: int, a: int)
    ensures (x * y + z) * a == x * (a * y) + z * a
  {
  }

  /** Multiplying by a non-negative factor, on either side, keeps the order. */
  lemma MulMono(x: int, y: int, a: nat)
    requires x <= y
    ensures x * a <= y * a && a * x <= a * y
  {
    assert y * a - x * a == (y - x) * a;
  }

  /** Regrouping a product of four factors. */
  lemma MulSwap(a: int, x: int, b: int, y: int)
    ensures (a * x) * (b * y) == (b * x) * (a * y)
  {
  }

  /** Euclidean division by a positive divisor: the quotient times the divisor
      brackets the dividend, and a non-negative dividend has a non-negative quotient. */
  lemma FloorDivision(u: int, d: int)
    requires d >= 1
    ensures u == (u / d) * d + u % d && 0 <= u % d < d
    ensures (u / d) * d <= u < (u / d + 1) * d
    ensures u >= 0 ==> u / d >= 0
  {
    var (q, r) := (u / d, u % d);
    assert u == q * d + r && 0 <= r < d;
    assert (q + 1) * d == q * d + d;
    if q < 0 {
      MulMono(q, -1, d);
    }
  }

  function Min(a: int, b: int): int {
    if a <= b then a else b
  }
}
