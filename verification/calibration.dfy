/** Three-point affine calibration (xpt2046.c): the seven factors computed from
    three display/touch point pairs, their application to a raw sample with C's
    truncating division, and the clamping to the display. */
module Calibration {
  import opened Common
  import opened Configuration

  /** The int32_t factors[7] array: the raw point (x, y) maps to
      ((f1 x + f2 y + f3) / f0, (f4 x + f5 y + f6) / f0). */
  datatype Factors = Factors(f0: int, f1: int, f2: int, f3: int, f4: int, f5: int, f6: int)
  {
    predicate AllInt32() {
      IsInt32(f0) && IsInt32(f1) && IsInt32(f2) && IsInt32(f3) && IsInt32(f4) && IsInt32(f5) && IsInt32(f6)
    }

    /** Each factor reduced to its int32 bit pattern. */
    function Wrapped(): (w: Factors)
      ensures w.AllInt32()
    {
      Factors(Wrap32(f0), Wrap32(f1), Wrap32(f2), Wrap32(f3), Wrap32(f4), Wrap32(f5), Wrap32(f6))
    }
  }

  /** Zero-initialised storage. */
  const ZeroFactors := Factors(0, 0, 0, 0, 0, 0, 0)

  /** The 2x2 determinant of the differences to the third point, for the
      columns (a, b). */
  function Det(a0: int, b0: int, a1: int, b1: int, a2: int, b2: int): int {
    (a0 - a2) * (b1 - b2) - (a1 - a2) * (b0 - b2)
  }

  /** The constant term of Cramer's rule for the display column (d0, d1, d2). */
  function Offset(x0: int, y0: int, x1: int, y1: int, x2: int, y2: int, d0: int, d1: int, d2: int): int {
    y0 * (x2 * d1 - x1 * d2) + y1 * (x0 * d2 - x2 * d0) + y2 * (x1 * d0 - x0 * d1)
  }

  /** The factors in exact integer arithmetic: the reference the fixed-width
      computation is measured against. `dp` are the display markers and `tp` the
      raw touches recorded for them. */
  function ExactFactors(dp: seq<Point>, tp: seq<Point>): Factors
    requires |dp| == 3 && |tp| == 3
  {
    var (t0, t1, t2) := (tp[0], tp[1], tp[2]);
    var (d0, d1, d2) := (dp[0], dp[1], dp[2]);
    Factors(
      Det(t0.x, t0.y, t1.x, t1.y, t2.x, t2.y),
      Det(d0.x, t0.y, d1.x, t1.y, d2.x, t2.y),
      Det(t0.x, d0.x, t1.x, d1.x, t2.x, d2.x),
      Offset(t0.x, t0.y, t1.x, t1.y, t2.x, t2.y, d0.x, d1.x, d2.x),
      Det(d0.y, t0.y, d1.y, t1.y, d2.y, t2.y),
      Det(t0.x, d0.y, t1.x, d1.y, t2.x, d2.y),
      Offset(t0.x, t0.y, t1.x, t1.y, t2.x, t2.y, d0.y, d1.y, d2.y))
  }

  /** The constant term is what makes the third pair fit. */
  lemma OffsetShape(x0: int, y0: int, x1: int, y1: int, x2: int, y2: int, d0: int, d1: int, d2: int)
    ensures Offset(x0, y0, x1, y1, x2, y2, d0, d1, d2)
         == Det(x0, y0, x1, y1, x2, y2) * d2 - Det(d0, y0, d1, y1, d2, y2) * x2 - Det(x0, d0, x1, d1, x2, d2) * y2
  {
  }

  /** One display axis: the three factors for column d solve the system
      f1 x + f2 y + f3 == f0 d at all three pairs. */
  lemma {:induction false} AxisSolves(x0: int, y0: int, x1: int, y1: int, x2: int, y2: int, d0: int, d1: int, d2: int)
    ensures var f0 := Det(x0, y0, x1, y1, x2, y2);
            var f1 := Det(d0, y0, d1, y1, d2, y2);
            var f2 := Det(x0, d0, x1, d1, x2, d2);
            var f3 := Offset(x0, y0, x1, y1, x2, y2, d0, d1, d2);
            && f1 * x0 + f2 * y0 + f3 == f0 * d0
            && f1 * x1 + f2 * y1 + f3 == f0 * d1
            && f1 * x2 + f2 * y2 + f3 == f0 * d2
  {
    var f0 := Det(x0, y0, x1, y1, x2, y2);
    var f1 := Det(d0, y0, d1, y1, d2, y2);
    var f2 := Det(x0, d0, x1, d1, x2, d2);
    OffsetShape(x0, y0, x1, y1, x2, y2, d0, d1, d2);
    Cramer(x0 - x2, y0 - y2, x1 - x2, y1 - y2, d0 - d2, d1 - d2);
    ShiftRow(f0, f1, f2, x0, y0, d0, x2, y2, d2);
    ShiftRow(f0, f1, f2, x1, y1, d1, x2, y2, d2);
  }

  /** Cramer's rule for the 2x2 system of differences to the third pair. */
  lemma Cramer(u0: int, v0: int, u1: int, v1: int, e0: int, e1: int)
    ensures (e0 * v1 - e1 * v0) * u0 + (u0 * e1 - u1 * e0) * v0 == (u0 * v1 - u1 * v0) * e0
    ensures (e0 * v1 - e1 * v0) * u1 + (u0 * e1 - u1 * e0) * v1 == (u0 * v1 - u1 * v0) * e1
  {
  }

  /** A row that holds for differences to (x2, y2, d2) holds for the point once
      the constant term makes the third pair fit. */
  lemma ShiftRow(f0: int, f1: int, f2: int, x: int, y: int, d: int, x2: int, y2: int, d2: int)
    requires f1 * (x - x2) + f2 * (y - y2) == f0 * (d - d2)
    ensures f1 * x + f2 * y + (f0 * d2 - f1 * x2 - f2 * y2) == f0 * d
  {
    assert f1 * (x - x2) == f1 * x - f1 * x2;
    assert f2 * (y - y2) == f2 * y - f2 * y2;
    assert f0 * (d - d2) == f0 * d - f0 * d2;
  }

  /** The exact factors map every recorded touch onto its marker, scaled by f0. */
  lemma ExactFactorsSolve(dp: seq<Point>, tp: seq<Point>, i: nat)
    requires |dp| == 3 && |tp| == 3 && i < 3
    ensures var f := ExactFactors(dp, tp);
            && f.f1 * tp[i].x + f.f2 * tp[i].y + f.f3 == f.f0 * dp[i].x
            && f.f4 * tp[i].x + f.f5 * tp[i].y + f.f6 == f.f0 * dp[i].y
  {
    AxisSolves(tp[0].x, tp[0].y, tp[1].x, tp[1].y, tp[2].x, tp[2].y, dp[0].x, dp[1].x, dp[2].x);
    AxisSolves(tp[0].x, tp[0].y, tp[1].x, tp[1].y, tp[2].x, tp[2].y, dp[0].y, dp[1].y, dp[2].y);
  }

  /** The difference of two values each cast to int32, itself stored as an int32. */
  function CastDiff(a: int, b: int): (r: int)
    ensures r == Wrap32(a - b)
  {
    CongruentSub(a, Wrap32(a), b, Wrap32(b));
    Wrap32Congruent(a - b, Wrap32(a) - Wrap32(b));
    Wrap32(Wrap32(a) - Wrap32(b))
  }

  /** Scaling a difference preserves agreement modulo 2^32. */
  lemma ScaledDiffCongruent(y: int, p: int, p': int, q: int, q': int)
    requires Congruent32(p, p') && Congruent32(q, q')
    ensures Congruent32(y * (p - q), y * (p' - q'))
  {
    CongruentSub(p, p', q, q');
    CongruentMul(p - q, p' - q', y);
  }

  /** One of the three terms of factors 3 and 6: the touch coordinates `xa` and
      `xb` are cast to int32 before multiplying by `da` and `db`, the difference
      of the products is scaled by `y`, and the result is cast to int32 again. */
  function OffsetTerm(y: int, xa: int, da: int, xb: int, db: int): (r: int)
    ensures IsInt32(r)
    ensures Congruent32(r, y * (xa * da - xb * db))
  {
    var p := Wrap32(xa) * da;
    var q := Wrap32(xb) * db;
    var v := y * (p - q);
    CongruentMul(xa, Wrap32(xa), da);
    CongruentMul(xb, Wrap32(xb), db);
    ScaledDiffCongruent(y, xa * da, p, xb * db, q);
    CongruentTrans(y * (xa * da - xb * db), v, Wrap32(v));
    CongruentSym(y * (xa * da - xb * db), Wrap32(v));
    Wrap32(v)
  }

  /** Three int32 terms summed with int32 wrap-around. */
  function Sum3(p: int, q: int, s: int): (r: int)
    requires IsInt32(p) && IsInt32(q) && IsInt32(s)
    ensures r == Wrap32(p + q + s)
  {
    CongruentAdd(p + q, Wrap32(p + q), s, s);
    Wrap32Congruent(p + q + s, Wrap32(p + q) + s);
    Wrap32(Wrap32(p + q) + s)
  }

  /** Factor 3 or 6 as computed: each term cast to int32 and summed in int32. */
  function CastOffset(x0: int, y0: int, x1: int, y1: int, x2: int, y2: int, d0: int, d1: int, d2: int): (r: int)
    ensures r == Wrap32(Offset(x0, y0, x1, y1, x2, y2, d0, d1, d2))
  {
    var a := y0 * (x2 * d1 - x1 * d2);
    var b := y1 * (x0 * d2 - x2 * d0);
    var c := y2 * (x1 * d0 - x0 * d1);
    var p := OffsetTerm(y0, x2, d1, x1, d2);
    var q := OffsetTerm(y1, x0, d2, x2, d0);
    var s := OffsetTerm(y2, x1, d0, x0, d1);
    CongruentSym(p, a);
    CongruentSym(q, b);
    CongruentSym(s, c);
    CongruentAdd(a, p, b, q);
    CongruentAdd(a + b, p + q, c, s);
    Wrap32Congruent(a + b + c, p + q + s);
    Sum3(p, q, s)
  }

  /** The determinant with the second product's operands written the other way
      round, as factors 2 and 5 are in the source. */
  lemma DetSwapped(a0: int, b0: int, a1: int, b1: int, a2: int, b2: int)
    ensures (a0 - a2) * (b1 - b2) - (b0 - b2) * (a1 - a2) == Det(a0, b0, a1, b1, a2, b2)
  {
  }

  /** `xpt2046_calculate_factors`: every product is computed in 64 bits, cast to
      int32, and the casts combined in int32. The stored factors are the exact
      factors reduced modulo 2^32, so they are right exactly when the exact
      factors fit in int32. */
  function CalculateFactors(dp: seq<Point>, tp: seq<Point>): (f: Factors)
    requires |dp| == 3 && |tp| == 3
    ensures f == ExactFactors(dp, tp).Wrapped()
    ensures f.AllInt32()
    ensures ExactFactors(dp, tp).AllInt32() ==> f == ExactFactors(dp, tp)
  {
    var (t0, t1, t2) := (tp[0], tp[1], tp[2]);
    var (d0, d1, d2) := (dp[0], dp[1], dp[2]);
    DetSwapped(t0.x, d0.x, t1.x, d1.x, t2.x, d2.x);
    DetSwapped(t0.x, d0.y, t1.x, d1.y, t2.x, d2.y);
    Factors(
      CastDiff((t0.x - t2.x) * (t1.y - t2.y), (t1.x - t2.x) * (t0.y - t2.y)),
      CastDiff((d0.x - d2.x) * (t1.y - t2.y), (d1.x - d2.x) * (t0.y - t2.y)),
      CastDiff((t0.x - t2.x) * (d1.x - d2.x), (d0.x - d2.x) * (t1.x - t2.x)),
      CastOffset(t0.x, t0.y, t1.x, t1.y, t2.x, t2.y, d0.x, d1.x, d2.x),
      CastDiff((d0.y - d2.y) * (t1.y - t2.y), (d1.y - d2.y) * (t0.y - t2.y)),
      CastDiff((t0.x - t2.x) * (d1.y - d2.y), (d0.y - d2.y) * (t1.x - t2.x)),
      CastOffset(t0.x, t0.y, t1.x, t1.y, t2.x, t2.y, d0.y, d1.y, d2.y))
  }

  function Abs(v: int): (a: int)
    ensures a >= 0 && (a == v || a == -v)
  {
    if v < 0 then -v else v
  }

  /** Negation moves out of a product. */
  lemma MulNeg(x: int, y: int)
    ensures (-x) * y == -(x * y) && x * (-y) == -(x * y) && (-x) * (-y) == x * y
  {
  }

  /** C's `/`: the quotient of the magnitudes, negated when the signs differ. */
  function TruncDiv(a: int, b: int): int
    requires b != 0
  {
    var m := Abs(a) / Abs(b);
    if (a < 0) == (b < 0) then m else -m
  }

  /** The C definition of `/` (rounding toward zero): the remainder is smaller
      than the divisor, carries the sign of the dividend, and the quotient never
      overshoots. Dafny's own `/` instead keeps the remainder non-negative. */
  lemma TruncDivSpec(a: int, b: int)
    requires b != 0
    ensures var q := TruncDiv(a, b);
            && Abs(a - q * b) < Abs(b)
            && (a - q * b == 0 || (a - q * b < 0 <==> a < 0))
            && Abs(q) * Abs(b) <= Abs(a)
  {
    var m := Abs(a) / Abs(b);
    var r := Abs(a) % Abs(b);
    FloorDivision(Abs(a), Abs(b));
    TruncDivCore(a, b, m, r);
  }

  /** TruncDivSpec for the quotient `m` and remainder `r` of the magnitudes. */
  lemma TruncDivCore(a: int, b: int, m: int, r: int)
    requires b != 0 && 0 <= m && Abs(a) == m * Abs(b) + r && 0 <= r < Abs(b)
    ensures var q := if (a < 0) == (b < 0) then m else -m;
            && Abs(a - q * b) < Abs(b)
            && (a - q * b == 0 || (a - q * b < 0 <==> a < 0))
            && Abs(q) * Abs(b) <= Abs(a)
  {
    var q := if (a < 0) == (b < 0) then m else -m;
    TruncDivRemainder(a, b, m, r, q);
  }

  lemma TruncDivRemainder(a: int, b: int, m: int, r: int, q: int)
    requires b != 0 && 0 <= m && Abs(a) == m * Abs(b) + r && 0 <= r < Abs(b)
    requires q == if (a < 0) == (b < 0) then m else -m
    ensures a - q * b == (if a < 0 then -r else r)
    ensures Abs(q) * Abs(b) <= Abs(a)
  {
    MulNeg(m, Abs(b));
    if b < 0 {
      assert b == -Abs(b);
    } else {
      assert b == Abs(b);
    }
    if (a < 0) == (b < 0) {
      assert q * b == (if b < 0 then -(m * Abs(b)) else m * Abs(b));
    } else {
      assert q * b == (if b < 0 then m * Abs(b) else -(m * Abs(b)));
    }
  }

  /** An exact quotient comes out exactly, whatever the signs. */
  lemma {:induction false} TruncDivExact(b: int, d: int)
    requires b != 0
    ensures TruncDiv(b * d, b) == d
  {
    assert Abs(b * d) == Abs(b) * Abs(d) by {
      if b < 0 && d < 0 {
        assert b * d == (-b) * (-d);
      } else if b < 0 {
        assert -(b * d) == (-b) * d;
      } else if d < 0 {
        assert -(b * d) == b * (-d);
      }
    }
    DivUnique(Abs(b * d), Abs(b), Abs(d), 0);
    if d < 0 {
      assert b * d == -(b * Abs(d));
    }
  }

  /** `xpt2046_limit_cal_X_data` / `xpt2046_limit_cal_Y_data`: a calibrated
      coordinate clamped to the display, negative values to 0 and values past the
      edge to the edge. */
  function Limit(v: int, max: int): (r: int)
    requires 0 <= max
    ensures 0 <= r <= max
    ensures v < 0 ==> r == 0
    ensures v > max ==> r == max
    ensures 0 <= v <= max ==> r == v
  {
    if v < 0 then 0 else if v > max then max else v
  }

  /** The numerator of one axis, computed in int64. */
  function Numerator(x: U16, y: U16, a: int, b: int, c: int): int {
    a * x + b * y + c
  }

  /** With int32 factors and 16-bit samples the int64 numerator cannot overflow. */
  lemma NumeratorFitsInt64(x: U16, y: U16, a: int, b: int, c: int)
    requires IsInt32(a) && IsInt32(b) && IsInt32(c)
    ensures -0x8000_0000_0000_0000 <= Numerator(x, y, a, b, c) < 0x8000_0000_0000_0000
  {
    assert -TwoTo31 * x <= a * x <= TwoTo31 * x;
    assert -TwoTo31 * y <= b * y <= TwoTo31 * y;
  }

  /** One calibrated axis: the int64 quotient passed to the int32 limiter and the
      result stored back into a uint16_t. */
  function CalibrateAxis(num: int, f0: int, max: int): (v: U16)
    requires f0 != 0 && 0 <= max < 0x1_0000
    ensures v <= max
  {
    Limit(Wrap32(TruncDiv(num, f0)), max) % 0x1_0000
  }

  /** What the axis produces for a quotient that fits in int32: the quotient
      clamped to the display. */
  lemma AxisClamps(num: int, f0: int, max: int)
    requires f0 != 0 && 0 <= max < 0x1_0000 && IsInt32(TruncDiv(num, f0))
    ensures TruncDiv(num, f0) < 0 ==> CalibrateAxis(num, f0, max) == 0
    ensures TruncDiv(num, f0) > max ==> CalibrateAxis(num, f0, max) == max
    ensures 0 <= TruncDiv(num, f0) <= max ==> CalibrateAxis(num, f0, max) == TruncDiv(num, f0)
  {
  }

  /** `xpt2046_calibrate_data`: the raw sample (x, y) mapped through the factors and
      clamped to the display. f0 must be non-zero (the C code divides by it
      unchecked). */
  function CalibrateData(cfg: Config, x: U16, y: U16, f: Factors): (r: (U16, U16))
    requires cfg.Valid() && f.f0 != 0
    ensures r.0 <= cfg.displayMaxX && r.1 <= cfg.displayMaxY
  {
    (CalibrateAxis(Numerator(x, y, f.f1, f.f2, f.f3), f.f0, cfg.displayMaxX),
     CalibrateAxis(Numerator(x, y, f.f4, f.f5, f.f6), f.f0, cfg.displayMaxY))
  }

  /** When the factors map the sample onto an on-screen point exactly, that point is
      what comes out. */
  lemma CalibrateExact(cfg: Config, x: U16, y: U16, f: Factors, dx: int, dy: int)
    requires cfg.Valid() && f.f0 != 0
    requires Numerator(x, y, f.f1, f.f2, f.f3) == f.f0 * dx && 0 <= dx <= cfg.displayMaxX
    requires Numerator(x, y, f.f4, f.f5, f.f6) == f.f0 * dy && 0 <= dy <= cfg.displayMaxY
    ensures CalibrateData(cfg, x, y, f) == (dx, dy)
  {
    TruncDivExact(f.f0, dx);
    TruncDivExact(f.f0, dy);
  }

  /** The purpose of calibration: when the exact factors fit in int32 and the three
      touches are not collinear (f0 != 0), touching where a marker was drawn gives
      the marker's coordinates. */
  lemma CalibrateReferencePoint(cfg: Config, tp: seq<Point>, i: nat)
    requires cfg.Valid() && |tp| == 3 && i < 3
    requires 0 <= tp[i].x < 0x1_0000 && 0 <= tp[i].y < 0x1_0000
    requires forall k :: 0 <= k < 3 ==> 0 <= cfg.dp[k].x <= cfg.displayMaxX && 0 <= cfg.dp[k].y <= cfg.displayMaxY
    requires ExactFactors(cfg.dp, tp).AllInt32() && ExactFactors(cfg.dp, tp).f0 != 0
    ensures CalculateFactors(cfg.dp, tp).f0 != 0
    ensures CalibrateData(cfg, tp[i].x, tp[i].y, CalculateFactors(cfg.dp, tp)) == (cfg.dp[i].x, cfg.dp[i].y)
  {
    var f := CalculateFactors(cfg.dp, tp);
    ExactFactorsSolve(cfg.dp, tp, i);
    CalibrateExact(cfg, tp[i].x, tp[i].y, f, cfg.dp[i].x, cfg.dp[i].y);
  }
}
