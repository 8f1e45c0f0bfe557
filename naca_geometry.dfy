/** The NACA four-digit section generator: decodes a designation such as "4412"
    into maximum camber `m`, its chordwise position `p` and thickness `t`, samples
    the chord, and builds the camber line, the thickness distribution and the upper
    and lower surfaces (NACA Report No. 460; Abbott and von Doenhoff, "Theory of
    Wing Sections", sections 6.3 and 6.4). */
module NacaGeometry {
  import opened Numerics

  /** The three shape parameters a designation encodes, as chord fractions. */
  datatype Params = Params(m: real, p: real, t: real)

  /** What the generator returns, in the source's order. */
  datatype Section = Section(
    xu: seq<real>, yu: seq<real>,   // upper surface
    xl: seq<real>, yl: seq<real>,   // lower surface
    x: seq<real>, yc: seq<real>)    // chord samples and camber line

  // ---------------------------------------------------------------- decoding

  predicate IsDigit(c: char) { '0' <= c <= '9' }

  function Digit(c: char): (d: nat)
    requires IsDigit(c)
    ensures d < 10
  {
    c as int - '0' as int
  }

  function DigitChar(d: nat): (c: char)
    requires d < 10
    ensures IsDigit(c) && Digit(c) == d
  {
    ('0' as int + d) as char
  }

  /** `int(s)` on a string of decimal digits. */
  function DecimalValue(s: string): (v: nat)
    requires forall i :: 0 <= i < |s| ==> IsDigit(s[i])
  {
    if s == [] then 0 else 10 * DecimalValue(s[..|s| - 1]) + Digit(s[|s| - 1])
  }

  /** A designation is exactly four decimal digits. */
  predicate IsDesignation(code: string)
  {
    |code| == 4 && forall i :: 0 <= i < 4 ==> IsDigit(code[i])
  }

  /** The first digit is the camber in hundredths, the second its position in
      tenths, the last two the thickness in hundredths of the chord. */
  function Decode(code: string): (r: Result<Params>)
    ensures r.Ok? <==> IsDesignation(code)
    ensures r.Err? ==> r.error == InvalidDesignation
    ensures r.Ok? ==>
      && r.value.m * 100.0 == Digit(code[0]) as real
      && r.value.p * 10.0 == Digit(code[1]) as real
      && r.value.t * 100.0 == (10 * Digit(code[2]) + Digit(code[3])) as real
    ensures r.Ok? ==>
      && 0.0 <= r.value.m <= 0.09
      && 0.0 <= r.value.p <= 0.9
      && 0.0 <= r.value.t <= 0.99
  {
    if IsDesignation(code) then
      var tail := code[2..];
      assert DecimalValue(tail) == 10 * Digit(code[2]) + Digit(code[3]) by {
        assert tail[..1][..0] == [];
        assert DecimalValue(tail[..1]) == Digit(code[2]);
        assert tail[..|tail| - 1] == tail[..1] && tail[|tail| - 1] == code[3];
      }
      Ok(Params(Digit(code[0]) as real / 100.0,
                Digit(code[1]) as real / 10.0,
                DecimalValue(tail) as real / 100.0))
    else
      Err(InvalidDesignation)
  }

  /** The designation of a section with camber digit `dm`, position digit `dp`
      and two-digit thickness `tt`. */
  function Designation(dm: nat, dp: nat, tt: nat): (code: string)
    requires dm < 10 && dp < 10 && tt < 100
    ensures IsDesignation(code)
  {
    [DigitChar(dm), DigitChar(dp), DigitChar(tt / 10), DigitChar(tt % 10)]
  }

  /** Decoding a designation recovers the digits it was written from. */
  lemma DecodeDesignation(dm: nat, dp: nat, tt: nat)
    requires dm < 10 && dp < 10 && tt < 100
    ensures Decode(Designation(dm, dp, tt))
         == Ok(Params(dm as real / 100.0, dp as real / 10.0, tt as real / 100.0))
  {
    var code := Designation(dm, dp, tt);
    var d := Decode(code).value;
    assert Digit(code[2]) == tt / 10 && Digit(code[3]) == tt % 10;
    assert 10 * (tt / 10) + tt % 10 == tt;
    assert d.t * 100.0 == tt as real;
  }

  /** Every decodable string is the designation of its own parameters, so two
      strings with the same decoding are the same string. */
  lemma DecodeInjective(a: string, b: string)
    requires Decode(a).Ok? && Decode(a) == Decode(b)
    ensures a == b
  {
    assert Digit(a[0]) == Digit(b[0]) && Digit(a[1]) == Digit(b[1]);
    var ta, tb := 10 * Digit(a[2]) + Digit(a[3]), 10 * Digit(b[2]) + Digit(b[3]);
    assert ta == tb;
    assert Digit(a[2]) == ta / 10 && Digit(a[3]) == ta % 10;
    assert Digit(b[2]) == tb / 10 && Digit(b[3]) == tb % 10;
    forall i | 0 <= i < 4
      ensures a[i] == b[i]
    {
      assert a[i] as int == '0' as int + Digit(a[i]);
      assert b[i] as int == '0' as int + Digit(b[i]);
    }
  }

  // ------------------------------------------------------ thickness and camber

  /** Half-thickness of the section at chord fraction `x`. */
  function Thickness(e: Elementary, t: real, x: real): real
  {
    5.0 * t * (0.2969 * e.sqrt(x) - 0.1260 * x - 0.3516 * (x * x)
               + 0.2843 * (x * x * x) - 0.1015 * (x * x * x * x))
  }

  /** The section is closed at the leading edge. */
  lemma ThicknessLeadingEdge(e: Elementary, t: real)
    requires Lawful(e)
    ensures Thickness(e, t, 0.0) == 0.0
  {
  }

  /** The trailing edge is left open by a half-thickness of 0.0105 t. */
  lemma ThicknessTrailingEdge(e: Elementary, t: real)
    requires Lawful(e)
    ensures Thickness(e, t, 1.0) == 0.0105 * t
  {
    SqrtOne(e);
  }

  /** With `s = sqrt x`, the bracket of the thickness formula is `s * Decay(s)`. */
  function Decay(s: real): real
  {
    0.2969 - 0.1260 * s - 0.3516 * (s * s * s) + 0.2843 * (s * s * s * s * s)
    - 0.1015 * (s * s * s * s * s * s * s)
  }

  /** The cofactor in `Decay(s) == 0.0021 + (1 - s) * Cofactor(s)`. */
  function Cofactor(s: real): real
  {
    0.2948 + 0.1688 * s + 0.1688 * (s * s) - 0.1828 * (s * s * s) - 0.1828 * (s * s * s * s)
    + 0.1015 * (s * s * s * s * s) + 0.1015 * (s * s * s * s * s * s)
  }

  lemma DecayFactors(s: real)
    ensures Decay(s) == 0.0021 + (1.0 - s) * Cofactor(s)
  {
    var c := Cofactor(s);
    assert s * c == 0.2948 * s + 0.1688 * (s * s) + 0.1688 * (s * s * s) - 0.1828 * (s * s * s * s)
      - 0.1828 * (s * s * s * s * s) + 0.1015 * (s * s * s * s * s * s) + 0.1015 * (s * s * s * s * s * s * s);
    assert (1.0 - s) * c == c - s * c;
  }

  lemma CofactorPositive(s: real)
    requires 0.0 <= s <= 1.0
    ensures 0.0 < Cofactor(s)
  {
    Shrink(s, s);
    Shrink(s * s, s);
    Shrink(s * s * s, s);
    Shrink(s * s * s * s, s);
    Shrink(s * s * s * s * s, s);
  }

  /** `Decay` falls on [0, 1] no lower than its value 0.0021 at `s = 1`. */
  lemma DecayPositive(s: real)
    requires 0.0 <= s <= 1.0
    ensures 0.0021 <= Decay(s)
  {
    DecayFactors(s);
    CofactorPositive(s);
    ScaleBetween(1.0 - s, Cofactor(s), Cofactor(s));
  }

  /** The thickness distribution of a section with `t >= 0` never goes negative
      along the chord. */
  lemma ThicknessNonNegative(e: Elementary, t: real, x: real)
    requires Lawful(e) && 0.0 <= t && 0.0 <= x <= 1.0
    ensures 0.0 <= Thickness(e, t, x)
  {
    SqrtUnit(e, x);
    var s := e.sqrt(x);
    assert x == s * s;
    assert x * x == s * s * s * s;
    assert x * x * x == s * s * s * s * s * s;
    assert x * x * x * x == s * s * s * s * s * s * s * s;
    var g := Decay(s);
    assert s * g == 0.2969 * s - 0.1260 * (s * s) - 0.3516 * (s * s * s * s)
      + 0.2843 * (s * s * s * s * s * s) - 0.1015 * (s * s * s * s * s * s * s * s);
    assert Thickness(e, t, x) == 5.0 * t * (s * g);
    DecayPositive(s);
    ScaleBetween(s, g, g);
    ScaleBetween(5.0 * t, s * g, s * g);
  }

  /** Forward of the maximum-camber position (`x <= p`). */
  function ForwardCamber(m: real, p: real, x: real): real
    requires p != 0.0
  {
    // The verifier reads a hypothesis `0 < a * a` as `a != 0` and loses the sign;
    // `SquarePositive` states it for `Sq(a)`, so every square here is a `Sq`.
    SquarePositive(p);
    (m / Sq(p)) * (2.0 * p * x - Sq(x))
  }

  function ForwardSlope(m: real, p: real, x: real): real
    requires p != 0.0
  {
    SquarePositive(p);
    (2.0 * m / Sq(p)) * (p - x)
  }

  /** Aft of the maximum-camber position (`x > p`). */
  function AftCamber(m: real, p: real, x: real): real
    requires p != 1.0
  {
    SquarePositive(1.0 - p);
    (m / Sq(1.0 - p)) * ((1.0 - 2.0 * p) + 2.0 * p * x - Sq(x))
  }

  function AftSlope(m: real, p: real, x: real): real
    requires p != 1.0
  {
    SquarePositive(1.0 - p);
    (2.0 * m / Sq(1.0 - p)) * (p - x)
  }

  /** The branch taken at `x` divides by a nonzero number. */
  predicate CamberDefined(p: real, x: real)
  {
    if x <= p then p != 0.0 else p != 1.0
  }

  /** The camber line, split at `x = p`. */
  function Camber(m: real, p: real, x: real): real
    requires CamberDefined(p, x)
  {
    if x <= p then ForwardCamber(m, p, x) else AftCamber(m, p, x)
  }

  function CamberSlope(m: real, p: real, x: real): real
    requires CamberDefined(p, x)
  {
    if x <= p then ForwardSlope(m, p, x) else AftSlope(m, p, x)
  }

  /** The two branches meet at `x = p` at the maximum camber `m`, where both
      slopes vanish: the camber line is continuous and smooth there. */
  lemma CamberContinuous(m: real, p: real)
    requires 0.0 < p < 1.0
    ensures ForwardCamber(m, p, p) == m && AftCamber(m, p, p) == m
    ensures ForwardSlope(m, p, p) == 0.0 && AftSlope(m, p, p) == 0.0
  {
    SquarePositive(p);
    SquarePositive(1.0 - p);
    assert 2.0 * p * p - Sq(p) == Sq(p);
    assert (1.0 - 2.0 * p) + 2.0 * p * p - Sq(p) == Sq(1.0 - p);
  }

  lemma ForwardCamberBounds(m: real, p: real, x: real)
    requires 0.0 < p && 0.0 <= m && 0.0 <= x <= p
    ensures 0.0 <= ForwardCamber(m, p, x) <= m
    ensures x == 0.0 ==> ForwardCamber(m, p, x) == 0.0
  {
    var w := 2.0 * p * x - Sq(x);
    ScaleBetween(x, 0.0, 2.0 * p - x);
    assert w == x * (2.0 * p - x);
    ScaleBetween(p - x, 0.0, p - x);
    assert w == Sq(p) - Sq(p - x);
    SquarePositive(p);
    FractionOfMax(m, Sq(p), w);
  }

  lemma AftCamberBounds(m: real, p: real, x: real)
    requires p < 1.0 && 0.0 <= m && p < x <= 1.0
    ensures 0.0 <= AftCamber(m, p, x) <= m
    ensures x == 1.0 ==> AftCamber(m, p, x) == 0.0
  {
    var q := 1.0 - p;
    var d := x - p;
    var w := (1.0 - 2.0 * p) + 2.0 * p * x - Sq(x);
    assert w == Sq(q) - Sq(d);
    ScaleBetween(d, 0.0, d);
    ScaleBetween(d, d, q);
    ScaleBetween(q, d, q);
    SquarePositive(q);
    FractionOfMax(m, Sq(q), w);
  }

  /** On the chord, the camber of a section with `m >= 0` lies between the chord
      and `m`, and vanishes at both ends. */
  lemma CamberBounds(m: real, p: real, x: real)
    requires 0.0 < p < 1.0 && 0.0 <= m && 0.0 <= x <= 1.0
    ensures 0.0 <= Camber(m, p, x) <= m
    ensures x == 0.0 ==> Camber(m, p, x) == 0.0
    ensures x == 1.0 ==> Camber(m, p, x) == 0.0
  {
    if x <= p {
      ForwardCamberBounds(m, p, x);
    } else {
      AftCamberBounds(m, p, x);
    }
  }

  /** The camber line of a section with `m >= 0` rises forward of `p` and falls
      aft of it. */
  lemma CamberSlopeSign(m: real, p: real, x: real)
    requires 0.0 < p < 1.0 && 0.0 <= m
    ensures x <= p ==> 0.0 <= CamberSlope(m, p, x)
    ensures p < x ==> CamberSlope(m, p, x) <= 0.0
  {
    if x <= p {
      SquarePositive(p);
      Quotient(2.0 * m, Sq(p));
      ScaleBetween(2.0 * m / Sq(p), p - x, p - x);
    } else {
      SquarePositive(1.0 - p);
      Quotient(2.0 * m, Sq(1.0 - p));
      ScaleBetween(2.0 * m / Sq(1.0 - p), x - p, x - p);
    }
  }

  /** A section without camber has a flat camber line along the chord. */
  lemma CamberSymmetric(p: real, x: real)
    requires CamberDefined(p, x)
    ensures Camber(0.0, p, x) == 0.0 && CamberSlope(0.0, p, x) == 0.0
  {
    if x <= p {
      SquarePositive(p);
    } else {
      SquarePositive(1.0 - p);
    }
  }

  // ------------------------------------------------------ sampled distributions

  function ThicknessSamples(e: Elementary, t: real, x: seq<real>): (yt: seq<real>)
    ensures |yt| == |x|
    ensures forall i :: 0 <= i < |x| ==> yt[i] == Thickness(e, t, x[i])
  {
    seq(|x|, i requires 0 <= i < |x| => Thickness(e, t, x[i]))
  }

  /** The camber line and its slope at every sample: the whole-array reading of
      the source's index loop. */
  function CamberSamples(m: real, p: real, x: seq<real>): (yc: seq<real>)
    requires forall i :: 0 <= i < |x| ==> CamberDefined(p, x[i])
    ensures |yc| == |x|
  {
    seq(|x|, i requires 0 <= i < |x| => Camber(m, p, x[i]))
  }

  function SlopeSamples(m: real, p: real, x: seq<real>): (dyc: seq<real>)
    requires forall i :: 0 <= i < |x| ==> CamberDefined(p, x[i])
    ensures |dyc| == |x|
  {
    seq(|x|, i requires 0 <= i < |x| => CamberSlope(m, p, x[i]))
  }

  /** Offsets the camber line by the half-thickness `yt`, perpendicular to the
      local camber-line direction `theta = atan(dyc/dx)`, to both sides. */
  function Offset(e: Elementary, x: seq<real>, yt: seq<real>, yc: seq<real>, dyc: seq<real>): (s: Section)
    requires |yt| == |x| && |yc| == |x| && |dyc| == |x|
    ensures |s.xu| == |x| && |s.yu| == |x| && |s.xl| == |x| && |s.yl| == |x|
    ensures s.x == x && s.yc == yc
    ensures forall i :: 0 <= i < |x| ==>
      (s.xu[i] + s.xl[i]) / 2.0 == x[i] && (s.yu[i] + s.yl[i]) / 2.0 == yc[i]
  {
    Section(
      seq(|x|, i requires 0 <= i < |x| => x[i] - yt[i] * e.sin(e.atan(dyc[i]))),
      seq(|x|, i requires 0 <= i < |x| => yc[i] + yt[i] * e.cos(e.atan(dyc[i]))),
      seq(|x|, i requires 0 <= i < |x| => x[i] + yt[i] * e.sin(e.atan(dyc[i]))),
      seq(|x|, i requires 0 <= i < |x| => yc[i] - yt[i] * e.cos(e.atan(dyc[i]))),
      x, yc)
  }

  /** Each upper point lies at distance `yt` from its camber point along the
      normal of the camber line, and its lower partner lies opposite it. */
  lemma OffsetPerpendicular(e: Elementary, x: seq<real>, yt: seq<real>, yc: seq<real>, dyc: seq<real>, i: int)
    requires Lawful(e)
    requires |yt| == |x| && |yc| == |x| && |dyc| == |x| && 0 <= i < |x|
    ensures var s := Offset(e, x, yt, yc, dyc);
      var c, sn := e.cos(e.atan(dyc[i])), e.sin(e.atan(dyc[i]));
      && (s.xu[i] - x[i]) * c + (s.yu[i] - yc[i]) * sn == 0.0
      && (s.xu[i] - x[i]) * (s.xu[i] - x[i]) + (s.yu[i] - yc[i]) * (s.yu[i] - yc[i]) == yt[i] * yt[i]
      && s.xl[i] - x[i] == x[i] - s.xu[i] && s.yl[i] - yc[i] == yc[i] - s.yu[i]
  {
    var s := Offset(e, x, yt, yc, dyc);
    var th := e.atan(dyc[i]);
    var c, sn, h := e.cos(th), e.sin(th), yt[i];
    assert sn * sn + c * c == 1.0;
    assert s.xu[i] - x[i] == -(h * sn) && s.yu[i] - yc[i] == h * c;
    assert (h * sn) * (h * sn) + (h * c) * (h * c) == (h * h) * (sn * sn + c * c);
  }

  // ------------------------------------------------------------- the generator

  /** The section the generator produces, as a whole-array computation. */
  function Naca4(e: Elementary, code: string, n: int): Result<Section>
  {
    match Decode(code)
    case Err(err) => Err(err)
    case Ok(d) =>
      match Linspace(0.0, 1.0, n)
      case Err(err) => Err(err)
      case Ok(x) =>
        if exists i :: 0 <= i < |x| && !CamberDefined(d.p, x[i]) then Err(ZeroDivision)
        else Ok(Offset(e, x, ThicknessSamples(e, d.t, x),
                       CamberSamples(d.m, d.p, x), SlopeSamples(d.m, d.p, x)))
  }

  /** `naca4_coordinates`: decodes, samples the chord, evaluates the thickness,
      fills the camber and slope arrays in an index loop, and offsets the camber
      line to the two surfaces. */
  method Naca4Coordinates(e: Elementary, code: string, n: int) returns (r: Result<Section>)
    ensures r == Naca4(e, code, n)
  {
    var decoded := Decode(code);
    if decoded.Err? {
      return Err(decoded.error);
    }
    var d := decoded.value;
    var chord := Linspace(0.0, 1.0, n);
    if chord.Err? {
      return Err(chord.error);
    }
    var x := chord.value;
    var yt := ThicknessSamples(e, d.t, x);
    var yc := new real[|x|](_ => 0.0);
    var dyc := new real[|x|](_ => 0.0);
    var i := 0;
    while i < |x|
      invariant 0 <= i <= |x|
      invariant forall k :: 0 <= k < i ==> CamberDefined(d.p, x[k])
      invariant forall k :: 0 <= k < i ==>
        yc[k] == Camber(d.m, d.p, x[k]) && dyc[k] == CamberSlope(d.m, d.p, x[k])
      invariant forall k :: i <= k < |x| ==> yc[k] == 0.0 && dyc[k] == 0.0
    {
      if x[i] <= d.p {
        if d.p == 0.0 {
          assert !CamberDefined(d.p, x[i]);
          return Err(ZeroDivision);
        }
        yc[i] := ForwardCamber(d.m, d.p, x[i]);
        dyc[i] := ForwardSlope(d.m, d.p, x[i]);
      } else {
        if d.p == 1.0 {
          return Err(ZeroDivision);
        }
        yc[i] := AftCamber(d.m, d.p, x[i]);
        dyc[i] := AftSlope(d.m, d.p, x[i]);
      }
      i := i + 1;
    }
    assert forall k :: 0 <= k < |x| ==> CamberDefined(d.p, x[k]);
    assert yc[..] == CamberSamples(d.m, d.p, x);
    assert dyc[..] == SlopeSamples(d.m, d.p, x);
    r := Ok(Offset(e, x, yt, yc[..], dyc[..]));
  }

  // ------------------------------------------------- properties of the section

  /** The generator fails exactly on a malformed designation, a negative point
      count, or a zero camber position with at least one sample: the sample at
      `x = 0` then divides by `p**2 = 0`, even for a section without camber. */
  lemma Naca4Fails(e: Elementary, code: string, n: int)
    ensures !IsDesignation(code) ==> Naca4(e, code, n) == Err(InvalidDesignation)
    ensures IsDesignation(code) && n < 0 ==> Naca4(e, code, n) == Err(NegativeSampleCount)
    ensures IsDesignation(code) && 0 <= n ==>
      (Naca4(e, code, n).Err? <==> Decode(code).value.p == 0.0 && 1 <= n)
    ensures Naca4(e, code, n).Err? && IsDesignation(code) && 0 <= n ==>
      Naca4(e, code, n).error == ZeroDivision
  {
    if IsDesignation(code) && 0 <= n {
      var d := Decode(code).value;
      var x := Linspace(0.0, 1.0, n).value;
      LinspaceIncreasing(0.0, 1.0, n);
      if d.p == 0.0 && 1 <= n {
        assert !CamberDefined(d.p, x[0]);
      } else {
        forall i | 0 <= i < |x|
          ensures CamberDefined(d.p, x[i])
        {
          assert d.p <= 0.9;
        }
      }
    }
  }

  /** A generated section has `n` samples in every array; the chord samples run
      strictly increasing from 0 to 1, and each camber point is the midpoint of
      its upper and lower surface points. */
  lemma Naca4Shape(e: Elementary, code: string, n: int)
    requires Naca4(e, code, n).Ok?
    ensures var s := Naca4(e, code, n).value;
      && |s.xu| == n && |s.yu| == n && |s.xl| == n && |s.yl| == n && |s.x| == n && |s.yc| == n
      && (1 <= n ==> s.x[0] == 0.0)
      && (2 <= n ==> s.x[n - 1] == 1.0)
      && (forall i :: 0 <= i < n ==> 0.0 <= s.x[i] <= 1.0)
      && (forall i, j :: 0 <= i < j < n ==> s.x[i] < s.x[j])
      && (forall i :: 0 <= i < n ==>
            (s.xu[i] + s.xl[i]) / 2.0 == s.x[i] && (s.yu[i] + s.yl[i]) / 2.0 == s.yc[i])
  {
    LinspaceIncreasing(0.0, 1.0, n);
  }

  /** The camber line of a generated section stays between the chord and `m`
      and meets the chord at the leading and trailing edges. */
  lemma Naca4CamberBounds(e: Elementary, code: string, n: int)
    requires Naca4(e, code, n).Ok?
    ensures var s, d := Naca4(e, code, n).value, Decode(code).value;
      && (forall i :: 0 <= i < n ==> 0.0 <= s.yc[i] <= d.m)
      && (1 <= n ==> s.yc[0] == 0.0)
      && (2 <= n ==> s.yc[n - 1] == 0.0)
  {
    var s, d := Naca4(e, code, n).value, Decode(code).value;
    var x := Linspace(0.0, 1.0, n).value;
    if 1 <= n {
      LinspaceIncreasing(0.0, 1.0, n);
      Naca4Fails(e, code, n);
      forall i | 0 <= i < n
        ensures 0.0 <= s.yc[i] <= d.m
        ensures x[i] == 0.0 || x[i] == 1.0 ==> s.yc[i] == 0.0
      {
        CamberBounds(d.m, d.p, x[i]);
      }
    }
  }

  /** Where the half-thickness is zero both surface points are the camber point. */
  lemma OffsetClosed(e: Elementary, x: seq<real>, yt: seq<real>, yc: seq<real>, dyc: seq<real>, i: int)
    requires |yt| == |x| && |yc| == |x| && |dyc| == |x| && 0 <= i < |x| && yt[i] == 0.0
    ensures var s := Offset(e, x, yt, yc, dyc);
      s.xu[i] == x[i] && s.yu[i] == yc[i] && s.xl[i] == x[i] && s.yl[i] == yc[i]
  {
  }

  /** Both surfaces start at the leading edge `(0, 0)`. */
  lemma Naca4LeadingEdge(e: Elementary, code: string, n: int)
    requires Lawful(e) && Naca4(e, code, n).Ok? && 1 <= n
    ensures var s := Naca4(e, code, n).value;
      s.xu[0] == 0.0 && s.yu[0] == 0.0 && s.xl[0] == 0.0 && s.yl[0] == 0.0
  {
    var d := Decode(code).value;
    var x := Linspace(0.0, 1.0, n).value;
    assert forall i :: 0 <= i < |x| ==> CamberDefined(d.p, x[i]);
    assert x[0] == 0.0 && CamberDefined(d.p, x[0]);
    var yt := ThicknessSamples(e, d.t, x);
    var yc := CamberSamples(d.m, d.p, x);
    var dyc := SlopeSamples(d.m, d.p, x);
    assert Naca4(e, code, n).value == Offset(e, x, yt, yc, dyc);
    assert yc[0] == ForwardCamber(d.m, d.p, 0.0) == 0.0;
    ThicknessLeadingEdge(e, d.t);
    OffsetClosed(e, x, yt, yc, dyc, 0);
  }

  /** Over a flat camber line the offsets stand straight above and below the
      chord samples, mirrored about the chord. */
  lemma OffsetFlat(e: Elementary, x: seq<real>, yt: seq<real>, yc: seq<real>, dyc: seq<real>)
    requires Lawful(e)
    requires |yt| == |x| && |yc| == |x| && |dyc| == |x|
    requires forall i :: 0 <= i < |x| ==> yc[i] == 0.0 && dyc[i] == 0.0
    ensures var s := Offset(e, x, yt, yc, dyc);
      forall i :: 0 <= i < |x| ==>
        s.xu[i] == x[i] && s.xl[i] == x[i] && s.yu[i] == yt[i] && s.yl[i] == -yt[i]
  {
  }

  /** A section without camber (`m = 0`) is symmetric: the camber line is the
      chord, the surfaces sit straight above and below the chord samples, and
      the lower surface mirrors the upper one about the chord. */
  lemma Naca4Symmetric(e: Elementary, code: string, n: int)
    requires Lawful(e) && Naca4(e, code, n).Ok? && Decode(code).value.m == 0.0
    ensures var s, t := Naca4(e, code, n).value, Decode(code).value.t;
      forall i :: 0 <= i < n ==>
        && s.yc[i] == 0.0
        && s.xu[i] == s.x[i] && s.xl[i] == s.x[i]
        && s.yu[i] == Thickness(e, t, s.x[i]) && s.yl[i] == -s.yu[i]
  {
    var d := Decode(code).value;
    var x := Linspace(0.0, 1.0, n).value;
    assert forall i :: 0 <= i < |x| ==> CamberDefined(d.p, x[i]);
    var yt := ThicknessSamples(e, d.t, x);
    var yc := CamberSamples(d.m, d.p, x);
    var dyc := SlopeSamples(d.m, d.p, x);
    assert Naca4(e, code, n).value == Offset(e, x, yt, yc, dyc);
    forall i | 0 <= i < |x|
      ensures yc[i] == 0.0 && dyc[i] == 0.0
    {
      CamberSymmetric(d.p, x[i]);
    }
    OffsetFlat(e, x, yt, yc, dyc);
  }

  // ------------------------------------------------- symmetric sections at p = 0

  /** As written, the standard symmetric section "0012" cannot be generated: its
      first sample `x = 0` takes the forward branch and divides by `p**2 = 0`. */
  lemma Naca4ZeroCamberFails(e: Elementary, n: int)
    requires 1 <= n
    ensures Naca4(e, "0012", n) == Err(ZeroDivision)
  {
    var code := "0012";
    assert IsDesignation(code) by {
      assert forall i :: 0 <= i < 4 ==> IsDigit(code[i]);
    }
    assert Digit(code[1]) == 0;
    Naca4Fails(e, code, n);
  }

  /** The generator with the camber branches skipped for a section without
      camber, whose camber line is the chord whatever `p` is; a cambered section
      with `p = 0` still fails. */
  function Naca4Guarded(e: Elementary, code: string, n: int): (r: Result<Section>)
    ensures Naca4(e, code, n).Ok? ==> r == Naca4(e, code, n)
    ensures r.Err? ==> Naca4(e, code, n).Err?
  {
    match Decode(code)
    case Err(err) => Err(err)
    case Ok(d) =>
      if d.m == 0.0 then
        match Linspace(0.0, 1.0, n)
        case Err(err) => Err(err)
        case Ok(x) =>
          var flat := seq(|x|, i requires 0 <= i < |x| => 0.0);
          FlatIsCamber(d.p, x);
          Ok(Offset(e, x, ThicknessSamples(e, d.t, x), flat, flat))
      else Naca4(e, code, n)
  }

  /** Wherever the camber line is defined, a section without camber has the
      chord for its camber line and zero slope. */
  lemma FlatIsCamber(p: real, x: seq<real>)
    ensures (forall i :: 0 <= i < |x| ==> CamberDefined(p, x[i])) ==>
      && CamberSamples(0.0, p, x) == seq(|x|, i requires 0 <= i < |x| => 0.0)
      && SlopeSamples(0.0, p, x) == seq(|x|, i requires 0 <= i < |x| => 0.0)
  {
    if forall i :: 0 <= i < |x| ==> CamberDefined(p, x[i]) {
      forall i | 0 <= i < |x|
        ensures Camber(0.0, p, x[i]) == 0.0 && CamberSlope(0.0, p, x[i]) == 0.0
      {
        CamberSymmetric(p, x[i]);
      }
    }
  }

  /** With the guard, every section without camber is generated, "0012"
      included, and it is symmetric about the chord. */
  lemma Naca4GuardedSymmetric(e: Elementary, code: string, n: int)
    requires Lawful(e) && IsDesignation(code) && Decode(code).value.m == 0.0 && 0 <= n
    ensures Naca4Guarded(e, code, n).Ok?
    ensures var s, t := Naca4Guarded(e, code, n).value, Decode(code).value.t;
      forall i :: 0 <= i < n ==>
        && s.yc[i] == 0.0
        && s.xu[i] == s.x[i] && s.xl[i] == s.x[i]
        && s.yu[i] == Thickness(e, t, s.x[i]) && s.yl[i] == -s.yu[i]
  {
    var d := Decode(code).value;
    var x := Linspace(0.0, 1.0, n).value;
    var flat := seq(|x|, i requires 0 <= i < |x| => 0.0);
    var yt := ThicknessSamples(e, d.t, x);
    assert Naca4Guarded(e, code, n) == Ok(Offset(e, x, yt, flat, flat));
    OffsetFlat(e, x, yt, flat, flat);
  }
}
