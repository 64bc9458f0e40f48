/** Clenshaw summation of sine series (src/algorithms/libs/geofunctions.cc) over exact reals and
    complex numbers.  The sine and cosine of the argument are parameters, and the sines of its
    multiples are defined by the angle-addition formulas. */
module Clenshaw {

  /** Complex numbers as pairs of reals; a real argument has zero imaginary part. */
  datatype Complex = Complex(re: real, im: real)

  function Add(a: Complex, b: Complex): Complex {
    Complex(a.re + b.re, a.im + b.im)
  }

  function Sub(a: Complex, b: Complex): Complex {
    Complex(a.re - b.re, a.im - b.im)
  }

  function Mul(a: Complex, b: Complex): Complex {
    Complex(a.re * b.re - a.im * b.im, a.re * b.im + a.im * b.re)
  }

  function Real(x: real): Complex {
    Complex(x, 0.0)
  }

  const ZERO := Complex(0.0, 0.0)
  const ONE := Complex(1.0, 0.0)

  lemma MulCommutes(a: Complex, b: Complex)
    ensures Mul(a, b) == Mul(b, a)
  {
  }

  lemma MulAssociates(a: Complex, b: Complex, c: Complex)
    ensures Mul(Mul(a, b), c) == Mul(a, Mul(b, c))
  {
    AssociateReal(a.re, a.im, b.re, b.im, c.re, c.im);
  }

  lemma AssociateReal(a: real, b: real, c: real, d: real, e: real, f: real)
    ensures (a * c - b * d) * e - (a * d + b * c) * f == a * (c * e - d * f) - b * (c * f + d * e)
    ensures (a * c - b * d) * f + (a * d + b * c) * e == a * (c * f + d * e) + b * (c * e - d * f)
  {
  }

  lemma MulDistributes(a: Complex, b: Complex, c: Complex)
    ensures Mul(a, Add(b, c)) == Add(Mul(a, b), Mul(a, c))
    ensures Mul(a, Sub(b, c)) == Sub(Mul(a, b), Mul(a, c))
  {
    MulOverSum(a, b, c);
    MulOverDifference(a, b, c);
  }

  lemma MulOverSum(a: Complex, b: Complex, c: Complex)
    ensures Mul(a, Add(b, c)) == Add(Mul(a, b), Mul(a, c))
  {
    DistributeSum(a.re, a.im, b.re, b.im, c.re, c.im);
  }

  lemma MulOverDifference(a: Complex, b: Complex, c: Complex)
    ensures Mul(a, Sub(b, c)) == Sub(Mul(a, b), Mul(a, c))
  {
    DistributeDifference(a.re, a.im, b.re, b.im, c.re, c.im);
  }

  lemma DistributeSum(a: real, b: real, c: real, d: real, e: real, f: real)
    ensures a * (c + e) - b * (d + f) == (a * c - b * d) + (a * e - b * f)
    ensures a * (d + f) + b * (c + e) == (a * d + b * c) + (a * f + b * e)
  {
  }

  lemma DistributeDifference(a: real, b: real, c: real, d: real, e: real, f: real)
    ensures a * (c - e) - b * (d - f) == (a * c - b * d) - (a * e - b * f)
    ensures a * (d - f) + b * (c - e) == (a * d + b * c) - (a * f + b * e)
  {
  }

  // ---------------------------------------------------------------- sines of multiples

  /** Cosine and sine of an argument, real or complex. */
  datatype Angle = Angle(cos: Complex, sin: Complex)

  /** cos^2 + sin^2 = 1. */
  predicate OnCircle(a: Angle) {
    Add(Mul(a.cos, a.cos), Mul(a.sin, a.sin)) == ONE
  }

  /** Cosine and sine of k times the argument, by the angle-addition formulas. */
  function Multiple(a: Angle, k: nat): Angle {
    if k == 0 then Angle(ONE, ZERO)
    else
      var m := Multiple(a, k - 1);
      Angle(Sub(Mul(m.cos, a.cos), Mul(m.sin, a.sin)), Add(Mul(m.sin, a.cos), Mul(m.cos, a.sin)))
  }

  function Twice(z: Complex): Complex {
    Add(z, z)
  }

  /** The three-term recurrence of the sines follows from the addition formulas. */
  lemma SineRecurrence(a: Angle, k: nat)
    requires OnCircle(a)
    ensures Multiple(a, k + 2).sin == Sub(Mul(Twice(a.cos), Multiple(a, k + 1).sin), Multiple(a, k).sin)
  {
    var m := Multiple(a, k);
    AddAngleTwice(m.cos, m.sin, a.cos, a.sin);
  }

  lemma AddAngleTwice(c: Complex, s: Complex, x: Complex, y: Complex)
    requires Add(Mul(x, x), Mul(y, y)) == ONE
    ensures var c1, s1 := Sub(Mul(c, x), Mul(s, y)), Add(Mul(s, x), Mul(c, y));
            Add(Mul(s1, x), Mul(c1, y)) == Sub(Mul(Twice(x), s1), s)
  {
    var c1, s1 := Sub(Mul(c, x), Mul(s, y)), Add(Mul(s, x), Mul(c, y));
    // s1*x - c1*y = s*(x*x + y*y) = s
    calc {
      Sub(Mul(s1, x), Mul(c1, y));
    == { MulCommutes(s1, x); MulDistributes(x, Mul(s, x), Mul(c, y)); MulCommutes(c1, y); MulDistributes(y, Mul(c, x), Mul(s, y)); }
      Sub(Add(Mul(x, Mul(s, x)), Mul(x, Mul(c, y))), Sub(Mul(y, Mul(c, x)), Mul(y, Mul(s, y))));
    == { Exchange(x, c, y); Exchange(x, s, x); Exchange(y, s, y); }
      Add(Mul(s, Mul(x, x)), Mul(s, Mul(y, y)));
    == { MulDistributes(s, Mul(x, x), Mul(y, y)); }
      Mul(s, ONE);
    ==
      s;
    }
    MulTwice(x, s1);
  }

  lemma Exchange(x: Complex, c: Complex, y: Complex)
    ensures Mul(x, Mul(c, y)) == Mul(c, Mul(x, y)) == Mul(y, Mul(c, x))
  {
    MulAssociates(x, c, y);
    MulCommutes(x, c);
    MulAssociates(c, x, y);
    MulAssociates(y, c, x);
    MulCommutes(y, c);
    MulAssociates(c, y, x);
    MulCommutes(y, x);
  }

  lemma MulTwice(x: Complex, s: Complex)
    ensures Mul(Twice(x), s) == Add(Mul(s, x), Mul(s, x))
  {
    MulCommutes(Twice(x), s);
    MulDistributes(s, x, x);
  }

  // ---------------------------------------------------------------- the direct sum

  /** a_1 sin(z) + ... + a_n sin(n z). */
  function SineSeries(ar: seq<real>, a: Angle, n: nat): Complex
    requires n <= |ar|
  {
    if n == 0 then ZERO
    else Add(SineSeries(ar, a, n - 1), Mul(Real(ar[n - 1]), Multiple(a, n).sin))
  }

  /** The Clenshaw invariant: the series down to t, plus what the two recurrence values carry. */
  function Carried(ar: seq<real>, a: Angle, t: nat, h: Complex, h1: Complex): Complex
    requires t <= |ar|
  {
    Add(SineSeries(ar, a, t), Sub(Mul(h, Multiple(a, t + 1).sin), Mul(h1, Multiple(a, t).sin)))
  }

  /** One step of the recurrence leaves the invariant as it was. */
  lemma CarriedStep(ar: seq<real>, a: Angle, t: nat, h: Complex, h1: Complex)
    requires OnCircle(a) && 0 < t <= |ar|
    ensures var next := Sub(Add(Real(ar[t - 1]), Mul(Twice(a.cos), h)), h1);
            Carried(ar, a, t - 1, next, h) == Carried(ar, a, t, h, h1)
  {
    SineRecurrence(a, t - 1);
    var c, x := Twice(a.cos), Real(ar[t - 1]);
    var s0, s1 := Multiple(a, t - 1).sin, Multiple(a, t).sin;
    StepAlgebra(x, c, h, h1, s0, s1);
  }

  lemma StepAlgebra(x: Complex, c: Complex, h: Complex, h1: Complex, s0: Complex, s1: Complex)
    ensures Sub(Mul(Sub(Add(x, Mul(c, h)), h1), s1), Mul(h, s0)) ==
            Add(Mul(x, s1), Sub(Mul(h, Sub(Mul(c, s1), s0)), Mul(h1, s1)))
  {
    MulCommutes(Sub(Add(x, Mul(c, h)), h1), s1);
    MulDistributes(s1, Add(x, Mul(c, h)), h1);
    MulDistributes(s1, x, Mul(c, h));
    MulDistributes(h, Mul(c, s1), s0);
    Exchange(s1, c, h);
    Exchange(h, c, s1);
    MulCommutes(s1, x);
    MulCommutes(s1, h1);
    MulCommutes(s1, h);
  }

  // ---------------------------------------------------------------- the loops

  /** The complex argument whose real part has this sine and cosine and whose imaginary part has
      this hyperbolic sine and cosine. */
  function ComplexAngle(sinR: real, cosR: real, sinhI: real, coshI: real): Angle {
    Angle(Complex(cosR * coshI, -sinR * sinhI), Complex(sinR * coshI, cosR * sinhI))
  }

  lemma ComplexAngleOnCircle(sinR: real, cosR: real, sinhI: real, coshI: real)
    requires cosR * cosR + sinR * sinR == 1.0 && coshI * coshI - sinhI * sinhI == 1.0
    ensures OnCircle(ComplexAngle(sinR, cosR, sinhI, coshI))
  {
    var c2, s2, h2 := cosR * cosR, sinR * sinR, sinhI * sinhI;
    assert (cosR * coshI) * (cosR * coshI) == c2 * (coshI * coshI);
    assert (sinR * coshI) * (sinR * coshI) == s2 * (coshI * coshI);
    assert (-sinR * sinhI) * (-sinR * sinhI) == s2 * h2;
    assert (cosR * sinhI) * (cosR * sinhI) == c2 * h2;
    assert c2 * (1.0 + h2) + s2 * (1.0 + h2) - s2 * h2 - c2 * h2 == c2 + s2;
  }

  function RealAngle(sin: real, cos: real): Angle {
    Angle(Real(cos), Real(sin))
  }

  lemma RealAngleOnCircle(sin: real, cos: real)
    requires cos * cos + sin * sin == 1.0
    ensures OnCircle(RealAngle(sin, cos))
  {
  }

  lemma RealStep(x: real, cos: real, cosArg: real, h: real, h1: real)
    requires cosArg == 2.0 * cos
    ensures Sub(Add(Real(x), Mul(Twice(Real(cos)), Real(h))), Real(h1)) == Real(x + cosArg * h - h1)
  {
    assert Twice(Real(cos)) == Real(cosArg);
  }

  lemma ComplexStep(x: real, c: Complex, h: Complex, h1: Complex)
    ensures Sub(Add(Real(x), Mul(c, h)), h1) ==
            Complex(x + c.re * h.re - c.im * h.im - h1.re, c.im * h.re + c.re * h.im - h1.im)
  {
  }

  /** When the loop ends, the last recurrence value times the sine is the whole series. */
  lemma CarriedEnd(ar: seq<real>, a: Angle, h: Complex, h1: Complex)
    ensures Carried(ar, a, 0, h, h1) == Mul(h, a.sin)
  {
    assert Multiple(a, 1).sin == Add(Mul(ZERO, a.cos), Mul(ONE, a.sin)) == a.sin;
  }

  lemma CarriedStart(ar: seq<real>, a: Angle, t: nat)
    requires t <= |ar|
    ensures Carried(ar, a, t, ZERO, ZERO) == SineSeries(ar, a, t)
  {
  }

  /** clsin: Clenshaw summation with a real argument. */
  method ClSin(ar: seq<real>, degree: nat, sin: real, cos: real) returns (r: real)
    requires degree <= |ar| && cos * cos + sin * sin == 1.0
    ensures Real(r) == SineSeries(ar, RealAngle(sin, cos), degree)
  {
    var cosArg := 2.0 * cos;
    var hr1, hr, hr2 := 0.0, 0.0, 0.0;
    var t := degree;
    ghost var a := RealAngle(sin, cos);
    RealAngleOnCircle(sin, cos);
    CarriedStart(ar, a, degree);
    while t > 0
      invariant 0 <= t <= degree
      invariant Carried(ar, a, t, Real(hr), Real(hr1)) == SineSeries(ar, a, degree)
    {
      CarriedStep(ar, a, t, Real(hr), Real(hr1));
      hr2 := hr1;
      hr1 := hr;
      hr := ar[t - 1] + cosArg * hr1 - hr2;
      RealStep(ar[t - 1], cos, cosArg, hr1, hr2);
      t := t - 1;
    }
    CarriedEnd(ar, a, Real(hr), Real(hr1));
    r := hr * sin;
    assert Mul(Real(hr), Real(sin)) == Real(r);
  }

  /** The loop of clksin, on separate real and imaginary parts; `r` and `i` are those of twice the
      cosine. */
  method ComplexRecurrence(ar: seq<real>, degree: nat, r: real, i: real, ghost a: Angle) returns (hr: real, hi: real)
    requires degree <= |ar| && OnCircle(a) && Complex(r, i) == Twice(a.cos)
    ensures Mul(Complex(hr, hi), a.sin) == SineSeries(ar, a, degree)
  {
    CarriedStart(ar, a, degree);
    var hr1, hi1, hi2, hr2 := 0.0, 0.0, 0.0, 0.0;
    hr, hi := 0.0, 0.0;
    var t := degree;
    while t > 0
      invariant 0 <= t <= degree
      invariant Carried(ar, a, t, Complex(hr, hi), Complex(hr1, hi1)) == SineSeries(ar, a, degree)
    {
      CarriedStep(ar, a, t, Complex(hr, hi), Complex(hr1, hi1));
      hr2 := hr1;
      hr1 := hr;
      hi2 := hi1;
      hi1 := hi;
      hr, hi := RecurrenceStep(ar[t - 1], r, i, hr1, hi1, hr2, hi2);
      t := t - 1;
    }
    CarriedEnd(ar, a, Complex(hr, hi), Complex(hr1, hi1));
  }

  /** The two assignments of the loop body are one complex step of the recurrence. */
  method RecurrenceStep(x: real, r: real, i: real, hr1: real, hi1: real, hr2: real, hi2: real) returns (z: real, hi: real)
    ensures Complex(z, hi) == Sub(Add(Real(x), Mul(Complex(r, i), Complex(hr1, hi1))), Complex(hr2, hi2))
  {
    ComplexStep(x, Complex(r, i), Complex(hr1, hi1), Complex(hr2, hi2));
    z := x + r * hr1 - i * hi1 - hr2;
    hi := i * hr1 + r * hi1 - hi2;
  }

  /** clksin: Clenshaw summation with a complex argument. */
  method ClkSin(ar: seq<real>, degree: nat, sinR: real, cosR: real, sinhI: real, coshI: real)
    returns (re: real, im: real)
    requires degree <= |ar|
    requires cosR * cosR + sinR * sinR == 1.0 && coshI * coshI - sinhI * sinhI == 1.0
    ensures Complex(re, im) == SineSeries(ar, ComplexAngle(sinR, cosR, sinhI, coshI), degree)
  {
    ComplexAngleOnCircle(sinR, cosR, sinhI, coshI);
    TwiceCos(sinR, cosR, sinhI, coshI);
    ghost var a := ComplexAngle(sinR, cosR, sinhI, coshI);
    var hr, hi := ComplexRecurrence(ar, degree, 2.0 * cosR * coshI, -2.0 * sinR * sinhI, a);
    MulCommutes(Complex(hr, hi), a.sin);
    var r := sinR * coshI;
    var i := cosR * sinhI;
    re := r * hr - i * hi;
    im := r * hi + i * hr;
  }

  lemma TwiceCos(sinR: real, cosR: real, sinhI: real, coshI: real)
    ensures Complex(2.0 * cosR * coshI, -2.0 * sinR * sinhI) == Twice(ComplexAngle(sinR, cosR, sinhI, coshI).cos)
  {
  }

  lemma {:induction false} RealSeries(ar: seq<real>, sin: real, cos: real, n: nat)
    requires n <= |ar|
    ensures SineSeries(ar, RealAngle(sin, cos), n).im == 0.0
    ensures Multiple(RealAngle(sin, cos), n).sin.im == 0.0 && Multiple(RealAngle(sin, cos), n).cos.im == 0.0
  {
    if n > 0 {
      RealSeries(ar, sin, cos, n - 1);
    }
  }

  /** With no imaginary argument (sinh 0, cosh 1) the complex summation is the real one and its
      imaginary part is zero. */
  lemma ZeroImaginaryArgument(ar: seq<real>, sin: real, cos: real, n: nat)
    requires n <= |ar|
    ensures SineSeries(ar, ComplexAngle(sin, cos, 0.0, 1.0), n) == SineSeries(ar, RealAngle(sin, cos), n)
    ensures SineSeries(ar, ComplexAngle(sin, cos, 0.0, 1.0), n).im == 0.0
  {
    assert ComplexAngle(sin, cos, 0.0, 1.0) == RealAngle(sin, cos);
    RealSeries(ar, sin, cos, n);
  }
}
