/** The potential-flow solver: its stored state, its hard-wired NACA 4412 section,
    and the velocity and pressure field of a freestream plus a regularised point
    vortex sampled on a square lattice. */
module FlowSolver {
  import opened Numerics
  import opened NacaGeometry

  /** The solver's fields; the constructor sets them once and nothing updates them. */
  datatype Solver = Solver(code: string, alpha: real, re: real)

  /** The constructor's default designation. */
  const DefaultCode: string := "4412"

  /** The constructor: the angle of attack is stored in radians. */
  function Init(e: Elementary, airfoilCode: string, alphaDeg: real, reynolds: real): (s: Solver)
    ensures s.code == airfoilCode && s.re == reynolds
    ensures s.alpha == e.radians(alphaDeg)
  {
    Solver(airfoilCode, e.radians(alphaDeg), reynolds)
  }

  // ------------------------------------------------------- the built-in section

  /** Chord samples, camber line and half-thickness, in the source's order. */
  datatype Geometry = Geometry(x: seq<real>, yc: seq<real>, yt: seq<real>)

  /** The camber line of the built-in section (`m = 0.04`, `p = 0.4`), an
      elementwise choice between the two branches. */
  function WhereCamber(x: real): real
  {
    // The verifier reads a hypothesis `0 < a * a` as `a != 0` and loses the sign;
    // `SquarePositive` states it for `Sq(a)`, which the divisions below need.
    SquarePositive(0.4);
    SquarePositive(1.0 - 0.4);
    if x <= 0.4 then (0.04 / Sq(0.4)) * (2.0 * 0.4 * x - Sq(x))
    else (0.04 / Sq(1.0 - 0.4)) * ((1.0 - 2.0 * 0.4) + 2.0 * 0.4 * x - Sq(x))
  }

  /** `naca4_geometry`: the section is always NACA 4412, whatever the solver's
      code; a negative point count is rejected by the chord sampling. */
  function Naca4Geometry(e: Elementary, s: Solver, n: int): (r: Result<Geometry>)
    ensures r.Err? <==> n < 0
    ensures r.Err? ==> r.error == NegativeSampleCount
    ensures r.Ok? ==> |r.value.x| == n && |r.value.yc| == n && |r.value.yt| == n
  {
    match Linspace(0.0, 1.0, n)
    case Err(err) => Err(err)
    case Ok(x) =>
      Ok(Geometry(x,
        seq(|x|, i requires 0 <= i < |x| => WhereCamber(x[i])),
        seq(|x|, i requires 0 <= i < |x| => Thickness(e, 0.12, x[i]))))
  }

  /** "4412" decodes to `m = 0.04`, `p = 0.4`, `t = 0.12`. */
  lemma DecodeDefault()
    ensures Decode(DefaultCode) == Ok(Params(0.04, 0.4, 0.12))
  {
    var code := DefaultCode;
    assert IsDesignation(code) by {
      assert forall i :: 0 <= i < 4 ==> IsDigit(code[i]);
    }
    assert Digit(code[0]) == 4 && Digit(code[1]) == 4;
    assert Digit(code[2]) == 1 && Digit(code[3]) == 2;
  }

  /** The elementwise choice is the general camber line at `m = 0.04`, `p = 0.4`. */
  lemma WhereCamberIsCamber(x: real)
    ensures CamberDefined(0.4, x) && WhereCamber(x) == Camber(0.04, 0.4, x)
  {
  }

  /** The built-in section is the one the general generator produces for the
      default designation "4412": same chord samples, same camber line, and the
      thickness of the decoded `t`. */
  lemma Naca4GeometryMatches(e: Elementary, s: Solver, n: int)
    requires 0 <= n
    ensures Naca4(e, DefaultCode, n).Ok?
    ensures var g, sec := Naca4Geometry(e, s, n).value, Naca4(e, DefaultCode, n).value;
      && g.x == sec.x
      && g.yc == sec.yc
      && g.yt == ThicknessSamples(e, Decode(DefaultCode).value.t, sec.x)
  {
    DecodeDefault();
    var x := Linspace(0.0, 1.0, n).value;
    forall i | 0 <= i < |x|
      ensures CamberDefined(0.4, x[i]) && WhereCamber(x[i]) == Camber(0.04, 0.4, x[i])
    {
      WhereCamberIsCamber(x[i]);
    }
    var yc := CamberSamples(0.04, 0.4, x);
    var sec := Offset(e, x, ThicknessSamples(e, 0.12, x), yc, SlopeSamples(0.04, 0.4, x));
    assert Naca4(e, DefaultCode, n) == Ok(sec);
    assert Naca4Geometry(e, s, n).value == Geometry(x, yc, ThicknessSamples(e, 0.12, x));
  }

  // ---------------------------------------------------------------- the vortex

  /** Strength of the vortex standing in for the lift. */
  const Gamma: real := 2.5
  /** The vortex sits at the quarter chord, `(0.25, 0)`. */
  const CentreX: real := 0.25
  /** Regularisation added to the squared distance in the vortex's denominator. */
  const Core: real := 0.05

  /** `Gamma / (2 pi)`. */
  function VortexFactor(e: Elementary): real
    requires 0.0 < e.pi
  {
    Gamma / (2.0 * e.pi)
  }

  /** Squared distance from the vortex centre. */
  function Radius2(x: real, y: real): (r2: real)
    ensures 0.0 <= r2
    ensures r2 == 0.0 <==> x == CentreX && y == 0.0
  {
    SumOfSquares(x - CentreX, y);
    Sq(x - CentreX) + Sq(y)
  }

  datatype Velocity = Velocity(u: real, v: real)

  /** Velocity the regularised vortex induces at `(x, y)`. Its denominator is at
      least `Core`, so it is defined everywhere; it is perpendicular to the
      offset from the centre and vanishes at the centre. */
  function InducedVelocity(e: Elementary, x: real, y: real): (w: Velocity)
    requires 0.0 < e.pi
    ensures w.u * (x - CentreX) + w.v * y == 0.0
    ensures x == CentreX && y == 0.0 ==> w == Velocity(0.0, 0.0)
  {
    var k, d := VortexFactor(e), Radius2(x, y) + Core;
    VortexAlgebra(k, x - CentreX, y, d);
    Velocity(k * (y / d), -k * ((x - CentreX) / d))
  }

  /** The two components `k y / d` and `-k dx / d` share the factor `k / d`. */
  lemma VortexAlgebra(k: real, dx: real, y: real, d: real)
    requires 0.0 < d
    ensures k * (y / d) * dx + (-k * (dx / d)) * y == 0.0
    ensures Sq(k * (y / d)) + Sq(-k * (dx / d)) == Sq(k / d) * (Sq(dx) + Sq(y))
  {
    ScaledQuotient(k, y, d);
    ScaledQuotient(k, dx, d);
    var f := k / d;
    assert k * (y / d) == f * y;
    assert -k * (dx / d) == -(f * dx);
    assert Sq(f * y) == Sq(f) * Sq(y);
    assert Sq(-(f * dx)) == Sq(f) * Sq(dx);
  }

  /** The induced speed is `(Gamma/2pi)^2 r2 / (r2 + Core)^2`, which never exceeds
      `(Gamma/2pi)^2 / (4 Core)`: the regularisation bounds it everywhere. */
  lemma InducedSpeed(e: Elementary, x: real, y: real)
    requires 0.0 < e.pi
    ensures var w, k, r2 := InducedVelocity(e, x, y), VortexFactor(e), Radius2(x, y);
      && Sq(w.u) + Sq(w.v) == Sq(k / (r2 + Core)) * r2
      && Sq(w.u) + Sq(w.v) <= Sq(k) / (4.0 * Core)
  {
    var k, r2 := VortexFactor(e), Radius2(x, y);
    VortexAlgebra(k, x - CentreX, y, r2 + Core);
    RegularisedBound(k, r2);
  }

  /** `(k / (r2 + Core))^2 r2 <= k^2 / (4 Core)` for every `r2 >= 0`, since
      `(r2 + Core)^2 - 4 Core r2 = (r2 - Core)^2`. */
  lemma RegularisedBound(k: real, r2: real)
    requires 0.0 <= r2
    ensures Sq(k / (r2 + Core)) * r2 <= Sq(k) / (4.0 * Core)
  {
    var d := r2 + Core;
    var f := k / d;
    assert f * d == k;
    assert Sq(f) * Sq(d) == Sq(k) by {
      assert Sq(f * d) == Sq(f) * Sq(d);
    }
    assert Sq(d) - 4.0 * Core * r2 == Sq(r2 - Core);
    SquareNonNegative(r2 - Core);
    SquareNonNegative(f);
    ScaleBetween(Sq(f), 4.0 * Core * r2, Sq(d));
  }

  /** Away from the centre the induced speed decays like `1/r`: its square is at
      most `(Gamma/2pi)^2 / r2`. */
  lemma InducedSpeedFarField(e: Elementary, x: real, y: real)
    requires 0.0 < e.pi && 0.0 < Radius2(x, y)
    ensures var w := InducedVelocity(e, x, y);
      Sq(w.u) + Sq(w.v) <= Sq(VortexFactor(e)) / Radius2(x, y)
  {
    var k, r2 := VortexFactor(e), Radius2(x, y);
    VortexAlgebra(k, x - CentreX, y, r2 + Core);
    FarField(k, r2);
  }

  /** `(k / (r2 + Core))^2 r2 <= k^2 / r2` for every `r2 > 0`, since
      `r2^2 <= (r2 + Core)^2`. */
  lemma FarField(k: real, r2: real)
    requires 0.0 < r2
    ensures Sq(k / (r2 + Core)) * r2 <= Sq(k) / r2
  {
    var d := r2 + Core;
    var f := k / d;
    assert f * d == k;
    assert Sq(f) * Sq(d) == Sq(k) by {
      assert Sq(f * d) == Sq(f) * Sq(d);
    }
    assert Sq(r2) <= Sq(d) by {
      assert Sq(d) - Sq(r2) == Core * (2.0 * r2 + Core);
    }
    SquareNonNegative(f);
    ScaleBetween(Sq(f), Sq(r2), Sq(d));
    var a, q := Sq(f) * r2, Sq(k) / r2;
    assert q * r2 == Sq(k);
    assert a * r2 == Sq(f) * Sq(r2);
    Cancel(a, q, r2);
  }

  // ------------------------------------------------------------ the flow field

  /** The flow quantities at one lattice point. */
  datatype FlowPoint = FlowPoint(u: real, v: real, cp: real)

  /** Freestream plus vortex at `(x, y)`, and the pressure coefficient from
      Bernoulli's equation through the speed `sqrt(U^2 + V^2)`. With the elementary
      functions lawful, `Cp = 1 - (U^2 + V^2)`, so `Cp <= 1`, with equality exactly
      at a stagnation point. */
  function FlowAt(e: Elementary, alpha: real, x: real, y: real): (f: FlowPoint)
    requires 0.0 < e.pi
    ensures Lawful(e) ==> f.cp == 1.0 - (Sq(f.u) + Sq(f.v))
    ensures Lawful(e) ==> f.cp <= 1.0
    ensures Lawful(e) ==> (f.cp == 1.0 <==> f.u == 0.0 && f.v == 0.0)
  {
    var w := InducedVelocity(e, x, y);
    var u := e.cos(alpha) + w.u;
    var v := e.sin(alpha) + w.v;
    var speed := e.sqrt(Sq(u) + Sq(v));
    SumOfSquares(u, v);
    FlowPoint(u, v, 1.0 - Sq(speed))
  }

  /** At the vortex centre the vortex contributes nothing: the flow is the unit
      freestream, and its pressure coefficient is exactly 0. */
  lemma FlowAtCentre(e: Elementary, alpha: real)
    requires Lawful(e)
    ensures var f := FlowAt(e, alpha, CentreX, 0.0);
      f.u == e.cos(alpha) && f.v == e.sin(alpha) && f.cp == 0.0
  {
    var f := FlowAt(e, alpha, CentreX, 0.0);
    assert Sq(e.sin(alpha)) + Sq(e.cos(alpha)) == 1.0;
  }

  /** Far from the vortex the flow recovers the freestream: the vortex's speed
      squared `b` is at most `(Gamma/2pi)^2 / r2`, and `(Cp + b)^2 <= 4 b`, so
      `|Cp| <= 2 sqrt(b) + b` and `Cp` tends to 0 as `r2` grows. */
  lemma FlowFarField(e: Elementary, alpha: real, x: real, y: real)
    requires Lawful(e) && 0.0 < Radius2(x, y)
    ensures var f, w := FlowAt(e, alpha, x, y), InducedVelocity(e, x, y);
      var b := Sq(w.u) + Sq(w.v);
      b <= Sq(VortexFactor(e)) / Radius2(x, y) && Sq(f.cp + b) <= 4.0 * b
  {
    InducedSpeedFarField(e, x, y);
    var f, w := FlowAt(e, alpha, x, y), InducedVelocity(e, x, y);
    var c, s, p, q := e.cos(alpha), e.sin(alpha), w.u, w.v;
    var b := Sq(p) + Sq(q);
    assert Sq(c) + Sq(s) == 1.0 by {
      assert e.sin(alpha) * e.sin(alpha) + e.cos(alpha) * e.cos(alpha) == 1.0;
    }
    var a := c * p + s * q;
    assert f.u == c + p && f.v == s + q;
    assert Sq(c + p) + Sq(s + q) == (Sq(c) + Sq(s)) + 2.0 * a + b;
    assert f.cp + b == -2.0 * a;
    Projection(c, s, p, q, a);
    assert Sq(-2.0 * a) == 4.0 * Sq(a);
  }

  /** The arrays `compute_flow_field` returns, each indexed `[row][column]`. */
  datatype FlowField = FlowField(
    x: seq<seq<real>>, y: seq<seq<real>>,
    u: seq<seq<real>>, v: seq<seq<real>>, cp: seq<seq<real>>)

  /** `g` rows of `g` entries each. */
  predicate IsSquare(a: seq<seq<real>>, g: int)
  {
    |a| == g && forall j :: 0 <= j < |a| ==> |a[j]| == g
  }

  datatype Grid = Grid(x: seq<seq<real>>, y: seq<seq<real>>)

  /** `np.meshgrid(xs, ys)`: one row per y sample; row `j` of `X` is the x samples
      and row `j` of `Y` repeats `ys[j]`. */
  function Meshgrid(xs: seq<real>, ys: seq<real>): (m: Grid)
    ensures |m.x| == |ys| && |m.y| == |ys|
    ensures forall j :: 0 <= j < |ys| ==> |m.x[j]| == |xs| && |m.y[j]| == |xs|
    ensures forall j, i :: 0 <= j < |ys| && 0 <= i < |xs| ==> m.x[j][i] == xs[i] && m.y[j][i] == ys[j]
  {
    Grid(seq(|ys|, j requires 0 <= j < |ys| => xs),
         seq(|ys|, j requires 0 <= j < |ys| => seq(|xs|, i requires 0 <= i < |xs| => ys[j])))
  }

  /** The lattice `compute_flow_field` samples: `g` points across `[-0.5, 1.5]`
      and `g` down `[-0.8, 0.8]`. */
  function Lattice(g: nat): (m: Grid)
    ensures IsSquare(m.x, g) && IsSquare(m.y, g)
  {
    Meshgrid(Linspace(-0.5, 1.5, g).value, Linspace(-0.8, 0.8, g).value)
  }

  /** The lattice: `X` varies only along a row and `Y` only down a column, with
      `X[j][i] = -0.5 + 2 i / (g - 1)` and `Y[j][i] = -0.8 + 1.6 j / (g - 1)`. */
  lemma LatticeAt(g: nat, j: int, i: int)
    requires 2 <= g && 0 <= j < g && 0 <= i < g
    ensures var m := Lattice(g);
      && m.x[j][i] == m.x[0][i] && m.y[j][i] == m.y[j][0]
      && m.x[j][i] == -0.5 + 2.0 * (i as real) / (g - 1) as real
      && m.y[j][i] == -0.8 + 1.6 * (j as real) / (g - 1) as real
  {
    LinspaceAt(-0.5, 1.5, g, i);
    LinspaceAt(-0.8, 0.8, g, j);
  }

  /** The flow at every lattice point. */
  function Evaluate(e: Elementary, alpha: real, m: Grid, g: nat): (f: FlowField)
    requires 0.0 < e.pi && IsSquare(m.x, g) && IsSquare(m.y, g)
    ensures f.x == m.x && f.y == m.y
    ensures IsSquare(f.u, g) && IsSquare(f.v, g) && IsSquare(f.cp, g)
    ensures forall j, i :: 0 <= j < g && 0 <= i < g ==>
      FlowPoint(f.u[j][i], f.v[j][i], f.cp[j][i]) == FlowAt(e, alpha, m.x[j][i], m.y[j][i])
  {
    FlowField(m.x, m.y,
      seq(g, j requires 0 <= j < g =>
        seq(g, i requires 0 <= i < g => FlowAt(e, alpha, m.x[j][i], m.y[j][i]).u)),
      seq(g, j requires 0 <= j < g =>
        seq(g, i requires 0 <= i < g => FlowAt(e, alpha, m.x[j][i], m.y[j][i]).v)),
      seq(g, j requires 0 <= j < g =>
        seq(g, i requires 0 <= i < g => FlowAt(e, alpha, m.x[j][i], m.y[j][i]).cp)))
  }

  /** `compute_flow_field`: the flow at the stored angle over the `g x g` lattice;
      a negative resolution is rejected by the sampling. */
  function ComputeFlowField(e: Elementary, s: Solver, g: int): (r: Result<FlowField>)
    requires 0.0 < e.pi
    ensures r.Err? <==> g < 0
    ensures r.Err? ==> r.error == NegativeSampleCount
    ensures r.Ok? ==>
      && IsSquare(r.value.x, g) && IsSquare(r.value.y, g)
      && IsSquare(r.value.u, g) && IsSquare(r.value.v, g) && IsSquare(r.value.cp, g)
  {
    if g < 0 then Err(NegativeSampleCount)
    else Ok(Evaluate(e, s.alpha, Lattice(g), g))
  }

  /** At every lattice point the velocity is the unit freestream at the stored
      angle plus the vortex's, and `Cp = 1 - (U^2 + V^2) <= 1`, with `Cp = 1`
      exactly where the flow stagnates. */
  lemma FlowFieldPointwise(e: Elementary, s: Solver, g: int)
    requires Lawful(e) && 0 <= g
    ensures var f := ComputeFlowField(e, s, g).value;
      forall j, i :: 0 <= j < g && 0 <= i < g ==>
        var w := InducedVelocity(e, f.x[j][i], f.y[j][i]);
        && f.u[j][i] == e.cos(s.alpha) + w.u
        && f.v[j][i] == e.sin(s.alpha) + w.v
        && f.cp[j][i] == 1.0 - (Sq(f.u[j][i]) + Sq(f.v[j][i]))
        && f.cp[j][i] <= 1.0
        && (f.cp[j][i] == 1.0 <==> f.u[j][i] == 0.0 && f.v[j][i] == 0.0)
  {
  }

  /** The field depends on the solver only through the angle of attack: the
      stored designation and Reynolds number are never read. */
  lemma FlowFieldIgnoresCodeAndReynolds(e: Elementary, code1: string, code2: string,
                                        alphaDeg: real, re1: real, re2: real, g: int)
    requires 0.0 < e.pi
    ensures ComputeFlowField(e, Init(e, code1, alphaDeg, re1), g)
         == ComputeFlowField(e, Init(e, code2, alphaDeg, re2), g)
  {
  }

  /** When `8` divides `g - 1`, the lattice point in row `(g-1)/2`, column
      `3(g-1)/8` is the vortex centre `(0.25, 0)`. */
  lemma LatticeCentre(g: nat)
    requires 2 <= g && (g - 1) % 8 == 0
    ensures var m, j, i := Lattice(g), (g - 1) / 2, 3 * (g - 1) / 8;
      m.x[j][i] == CentreX && m.y[j][i] == 0.0
  {
    var j, i := (g - 1) / 2, 3 * (g - 1) / 8;
    var h := (g - 1) / 8;
    assert g - 1 == 8 * h && j == 4 * h && i == 3 * h;
    LatticeAt(g, j, i);
    assert (i as real) / (g - 1) as real == 3.0 / 8.0;
    assert (j as real) / (g - 1) as real == 0.5;
  }

  /** There the flow is the freestream and `Cp = 0`. */
  lemma FlowFieldCentre(e: Elementary, s: Solver, g: int)
    requires Lawful(e) && 2 <= g && (g - 1) % 8 == 0
    ensures var f, j, i := ComputeFlowField(e, s, g).value, (g - 1) / 2, 3 * (g - 1) / 8;
      && f.x[j][i] == CentreX && f.y[j][i] == 0.0
      && f.u[j][i] == e.cos(s.alpha) && f.v[j][i] == e.sin(s.alpha) && f.cp[j][i] == 0.0
  {
    LatticeCentre(g);
    FlowAtCentre(e, s.alpha);
  }
}
