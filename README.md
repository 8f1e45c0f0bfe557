# NACA four-digit geometry and potential-flow field, in Dafny

This project models the computational core of a small aerofoil toolkit and proves
its properties. The toolkit has two parts.

- **The NACA four-digit section generator** (`naca4_coordinates`) decodes a
  designation such as "4412" into three values: the maximum camber `m`, its
  chordwise position `p` and the thickness `t`. It samples the chord evenly and
  evaluates the thickness distribution. It fills the camber line and its slope in
  an index loop, using two polynomial branches that split at `x = p`. Finally it
  offsets the camber line by the half-thickness, perpendicular to the camber
  line, to get the upper and lower surfaces. The equations are those of NACA
  Report No. 460, as given in Abbott and von Doenhoff, "Theory of Wing Sections",
  sections 6.3 and 6.4.
- **The flow solver** (`FlowSolver`) does three things.
  - It stores a designation, an angle of attack (converted to radians) and a
    Reynolds number.
  - It produces a hard-wired NACA 4412 section.
  - It samples a `g x g` lattice over `[-0.5, 1.5] x [-0.8, 0.8]`. At each point
    it adds a unit freestream at the angle of attack to the velocity of a point
    vortex. The vortex sits at the quarter chord `(0.25, 0)` and has strength
    `Gamma = 2.5`. Its denominator is regularised by `+0.05`. The pressure
    coefficient is `Cp = 1 - |V|^2`.

Values are real numbers. `sqrt`, `arctan`, `sin`, `cos`, `pi` and the
degree-to-radian conversion are fields of a value `Elementary`, so the model
leaves them uninterpreted. A proof may use only the facts that `Lawful` states:
- `sqrt 0 = 0`, and `sqrt a >= 0` with `(sqrt a)^2 = a` for `a >= 0`;
- `atan 0 = 0`;
- `sin 0 = 0` and `cos 0 = 1`;
- `sin^2 + cos^2 = 1`;
- `pi > 0`.

The files are:
- `numerics.dfy`: errors, `Elementary`, numpy's `linspace`, and lemmas on real
  arithmetic.
- `naca_geometry.dfy`: the section generator.
- `flow_solver.dfy`: the flow solver.

The generator is proved in three layers.
1. A pure function, `Naca4`, describes the whole-array result.
2. A method, `Naca4Coordinates`, fills `yc` and `dyc_dx` as arrays in a loop, as
   the source does. Its postcondition says it returns exactly `Naca4`.
3. The geometric properties are lemmas about `Naca4`.

The flow solver is written as pure functions, as in the source. Its stored
fields are set once and only read afterwards, so they are a value `Solver`
passed as a parameter.

Errors are values of `Result`:
- `InvalidDesignation`: the designation is not four decimal digits.
- `NegativeSampleCount`: `linspace` rejects a negative count.
- `ZeroDivision`: `m / p**2` with `p = 0`.

Where the code and the intended behaviour disagree, the model follows the code.
- A resolution of `grid_res = 0` is not rejected. It yields empty arrays.
- With `p = 0`, the generator fails as soon as there is one sample. This happens
  even when `m = 0`, so "0012" fails too; see Findings. With zero samples it
  succeeds.
- `p = 0` is not rejected when the designation is decoded. The failure comes
  only from the division inside the loop.
- A thickness of `t = 0` is not rejected. The intended behaviour rejects a
  designation that decodes to `t <= 0` with `InvalidDesignation`, but
  `naca_geometry.py:30` only converts the digits. So "4400" and "0000" decode
  to `t = 0`, and the half-thickness is then 0 along the whole chord.

## Model

| member | source | states |
|---|---|---|
| Numerics.Linspace | naca_geometry.py:33 | `n` samples from `lo` to `hi`, both ends included, evenly spaced by `(hi-lo)/(n-1)`; one sample is `lo`; a negative count is an error and is the only error |
| Numerics.LinspaceIncreasing | naca_geometry.py:33 | the samples of an increasing range lie inside it and are strictly increasing |
| Numerics.LinspaceAt | naca_geometry.py:33 | sample `i` is `lo + (hi-lo) i/(n-1)`, so the chord samples are `x[i] = i/(n-1)` |
| NacaGeometry.Decode | naca_geometry.py:28-30 | succeeds exactly on four-digit strings, else `InvalidDesignation`; `m = d0/100`, `p = d1/10`, `t = (10 d2 + d3)/100`, hence `0 <= m <= 0.09`, `0 <= p <= 0.9`, `0 <= t <= 0.99` |
| NacaGeometry.DecodeDesignation | naca_geometry.py:28-30 | decoding the designation written from digits `dm`, `dp`, `tt` gives back `dm/100`, `dp/10`, `tt/100` |
| NacaGeometry.DecodeInjective | naca_geometry.py:28-30 | two designations with the same decoding are the same string |
| NacaGeometry.Thickness | naca_geometry.py:37-38 | no contract of its own: the thickness polynomial `5t(0.2969 sqrt x - 0.1260 x - 0.3516 x^2 + 0.2843 x^3 - 0.1015 x^4)`; its properties are the three lemmas below |
| NacaGeometry.ThicknessLeadingEdge | naca_geometry.py:37-38 | the half-thickness is 0 at `x = 0` |
| NacaGeometry.ThicknessTrailingEdge | naca_geometry.py:37-38 | the half-thickness at `x = 1` is `0.0105 t`, so the trailing edge is open |
| NacaGeometry.ThicknessNonNegative | naca_geometry.py:37-38 | for `t >= 0` the half-thickness is nonnegative all along the chord |
| NacaGeometry.ForwardCamber | naca_geometry.py:45-47 | no contract of its own: the forward camber branch `(m/p^2)(2px - x^2)`, defined for `p != 0`; its properties are CamberContinuous and ForwardCamberBounds |
| NacaGeometry.ForwardSlope | naca_geometry.py:45-48 | no contract of its own: the forward slope `(2m/p^2)(p - x)`, defined for `p != 0`; its properties are CamberContinuous and CamberSlopeSign |
| NacaGeometry.AftCamber | naca_geometry.py:49-51 | no contract of its own: the aft camber branch `(m/(1-p)^2)((1-2p) + 2px - x^2)`, defined for `p != 1`; its properties are CamberContinuous and AftCamberBounds |
| NacaGeometry.AftSlope | naca_geometry.py:49-52 | no contract of its own: the aft slope `(2m/(1-p)^2)(p - x)`, defined for `p != 1`; its properties are CamberContinuous and CamberSlopeSign |
| NacaGeometry.Camber | naca_geometry.py:44-52 | no contract of its own: the branch for `x <= p` or for `x > p`, defined where that branch divides by a nonzero number; its properties are CamberBounds and CamberSymmetric |
| NacaGeometry.CamberSlope | naca_geometry.py:44-52 | no contract of its own: the slope of the branch taken at `x`; its properties are CamberSlopeSign and CamberSymmetric |
| NacaGeometry.CamberContinuous | naca_geometry.py:47-52 | for `0 < p < 1` both camber branches give `m` at `x = p` and both slopes give 0 there |
| NacaGeometry.ForwardCamberBounds | naca_geometry.py:47 | forward branch: `0 <= yc <= m` on `[0, p]` for `m >= 0`, and `yc(0) = 0` |
| NacaGeometry.AftCamberBounds | naca_geometry.py:51 | aft branch: `0 <= yc <= m` on `(p, 1]` for `m >= 0`, and `yc(1) = 0` |
| NacaGeometry.CamberBounds | naca_geometry.py:45-52 | for `0 < p < 1` and `m >= 0`, the camber on `[0, 1]` lies in `[0, m]` and is 0 at both ends |
| NacaGeometry.CamberSlopeSign | naca_geometry.py:45-52 | for `0 < p < 1` and `m >= 0`, the slope is `>= 0` forward of `p` and `<= 0` aft of it |
| NacaGeometry.CamberSymmetric | naca_geometry.py:45-52 | with `m = 0`, camber and slope are 0 wherever the branch taken is defined |
| NacaGeometry.ThicknessSamples | naca_geometry.py:37-38 | one half-thickness per chord sample, each equal to the thickness at that sample |
| NacaGeometry.CamberSamples | naca_geometry.py:44-52 | contract states the length only: one camber value per chord sample; the content is stated by Naca4CamberBounds and Naca4Symmetric, and Naca4Coordinates shows the loop fills exactly these values |
| NacaGeometry.SlopeSamples | naca_geometry.py:44-52 | contract states the length only: one slope per chord sample; Naca4Coordinates shows the loop fills exactly these values, and CamberSymmetric shows each is 0 when `m = 0` |
| NacaGeometry.Offset | naca_geometry.py:59-62 | the four surface arrays have the chord's length, and each camber point is the midpoint of its upper and lower points, for any slope angle |
| NacaGeometry.OffsetPerpendicular | naca_geometry.py:55-62 | the upper point lies at distance `yt` from its camber point along the normal to the camber line, and the lower point lies opposite it |
| NacaGeometry.Naca4 | naca_geometry.py:14-64 | no contract of its own: the generator as a whole-array computation, failing on a malformed designation, a negative count or a division by zero; its properties are Naca4Fails, Naca4Shape, Naca4CamberBounds, Naca4LeadingEdge and Naca4Symmetric |
| NacaGeometry.Naca4Coordinates | naca_geometry.py:14-64 | the decode, sample, fill-in-a-loop and offset procedure returns exactly the whole-array section `Naca4`; the loop keeps every filled entry equal to its branch formula and every later entry 0 |
| NacaGeometry.Naca4Fails | naca_geometry.py:44-48 | the generator fails with `InvalidDesignation` on a malformed string, with `NegativeSampleCount` on `n < 0`, and otherwise fails exactly when `p = 0` and `n >= 1`, with `ZeroDivision` |
| NacaGeometry.Naca4Shape | naca_geometry.py:33-64 | all six arrays have `n` entries; `x[0] = 0`, `x[n-1] = 1`, the chord samples lie in `[0, 1]` and strictly increase; every camber point is the midpoint of its surface points |
| NacaGeometry.Naca4CamberBounds | naca_geometry.py:44-52 | every camber sample lies in `[0, m]`, and the first and last are 0 |
| NacaGeometry.Naca4LeadingEdge | naca_geometry.py:37-62 | both surfaces start at `(0, 0)` |
| NacaGeometry.Naca4Symmetric | naca_geometry.py:37-62 | with `m = 0` the camber line is the chord; the surface points stand straight above and below the chord samples, with `yu = yt` and `yl = -yu` |
| NacaGeometry.Naca4ZeroCamberFails | naca_geometry.py:44-48 | as written, "0012" fails with `ZeroDivision` for every `n >= 1` |
| NacaGeometry.Naca4Guarded | naca_geometry.py:44-52 | the guarded generator returns what the generator returns whenever the generator succeeds, and fails only where it fails |
| NacaGeometry.Naca4GuardedSymmetric | naca_geometry.py:44-62 | with the guard, every section with `m = 0` ("0012" included) is generated and is symmetric about the chord |
| FlowSolver.Init | flow_solver.py:21-24 | the constructor stores the designation and the Reynolds number unchanged and the angle of attack converted to radians; FlowFieldIgnoresCodeAndReynolds shows the first two are never used |
| FlowSolver.WhereCamber | flow_solver.py:32 | no contract of its own: the elementwise choice between the two camber branches at `m = 0.04`, `p = 0.4`; WhereCamberIsCamber shows it is the general camber line |
| FlowSolver.Naca4Geometry | flow_solver.py:27-33 | fails exactly on a negative point count; otherwise `x`, `yc` and `yt` each have `n` entries |
| FlowSolver.DecodeDefault | flow_solver.py:21 | the default designation "4412" decodes to `m = 0.04`, `p = 0.4`, `t = 0.12`, the constants hard-wired at line 29 |
| FlowSolver.WhereCamberIsCamber | flow_solver.py:32 | the elementwise choice between the two branches is the general camber line at `m = 0.04`, `p = 0.4` |
| FlowSolver.Naca4GeometryMatches | flow_solver.py:27-33 | whatever the solver's code, the built-in section has the same `x` and `yc` as the generator's "4412" section, and its `yt` is the thickness of the decoded `t` |
| FlowSolver.Radius2 | flow_solver.py:52 | the squared distance from the vortex centre is nonnegative, and is 0 exactly at the centre |
| FlowSolver.InducedVelocity | flow_solver.py:51-56 | the vortex velocity is defined everywhere, is perpendicular to the offset from the centre (`u (x - 0.25) + v y = 0`), and is 0 at the centre |
| FlowSolver.InducedSpeed | flow_solver.py:51-56 | the induced speed squared is `(Gamma/2pi)^2 r2/(r2+0.05)^2` and never exceeds `(Gamma/2pi)^2/(4 * 0.05)` |
| FlowSolver.RegularisedBound | flow_solver.py:55-56 | for every squared distance `r2 >= 0`, `(k/(r2+0.05))^2 r2 <= k^2/(4 * 0.05)`: the regularisation bounds the vortex speed |
| FlowSolver.InducedSpeedFarField | flow_solver.py:51-56 | away from the centre the induced speed squared is at most `(Gamma/2pi)^2/r2`, so the speed decays like `1/r` |
| FlowSolver.FarField | flow_solver.py:55-56 | for every squared distance `r2 > 0`, `(k/(r2+0.05))^2 r2 <= k^2/r2` |
| FlowSolver.FlowAt | flow_solver.py:46-67 | with lawful elementary functions, `Cp = 1 - (U^2 + V^2)`, so `Cp <= 1`, with `Cp = 1` exactly where `U = V = 0` |
| FlowSolver.FlowAtCentre | flow_solver.py:46-67 | at the vortex centre the flow is the freestream `(cos alpha, sin alpha)`, and `Cp = 0` |
| FlowSolver.FlowFarField | flow_solver.py:51-67 | off the centre the flow recovers the freestream: the vortex speed squared `b` is at most `(Gamma/2pi)^2/r2`, and `(Cp + b)^2 <= 4b`, so `|Cp| <= 2 sqrt(b) + b` tends to 0 as `r2` grows |
| FlowSolver.Meshgrid | flow_solver.py:43 | one row per y sample; `X[j][i] = xs[i]` and `Y[j][i] = ys[j]` |
| FlowSolver.Lattice | flow_solver.py:41-43 | the lattice arrays are `g x g` |
| FlowSolver.LatticeAt | flow_solver.py:41-43 | `X[j][i] = -0.5 + 2i/(g-1)` and `Y[j][i] = -0.8 + 1.6j/(g-1)`; `X` is constant down each column and `Y` along each row |
| FlowSolver.LatticeCentre | flow_solver.py:41-43 | when 8 divides `g - 1`, the lattice point in row `(g-1)/2` and column `3(g-1)/8` is the vortex centre `(0.25, 0)` |
| FlowSolver.Evaluate | flow_solver.py:46-67 | the field keeps the lattice `X` and `Y`, has `g x g` arrays `U`, `V`, `Cp`, and holds at each lattice point the flow computed there |
| FlowSolver.ComputeFlowField | flow_solver.py:35-69 | fails exactly on a negative resolution; otherwise `X`, `Y`, `U`, `V` and `Cp` are all `g x g` |
| FlowSolver.FlowFieldPointwise | flow_solver.py:59-67 | at every lattice point `U = cos alpha + u_vortex`, `V = sin alpha + v_vortex` and `Cp = 1 - (U^2+V^2) <= 1`, with equality exactly at a stagnation point |
| FlowSolver.FlowFieldIgnoresCodeAndReynolds | flow_solver.py:21-24 | two solvers built with the same angle but different designations or Reynolds numbers produce the same field |
| FlowSolver.FlowFieldCentre | flow_solver.py:41-67 | when 8 divides `g - 1`, the point in row `(g-1)/2` and column `3(g-1)/8` is the vortex centre `(0.25, 0)`, where `U = cos alpha`, `V = sin alpha` and `Cp = 0` |

## Findings

| source | as written | input that shows it | evidently intended | confidence | as-written member | corrected member |
|---|---|---|---|---|---|---|
| naca_geometry.py:44-48 | the sample `x = 0` takes the forward branch and evaluates `m / p**2` even for a section without camber, so every symmetric `00tt` section raises a division by zero | `number = "0012"`, any `n_points >= 1` | a section with `m = 0` has the chord as its camber line (`yc = 0`, `dyc_dx = 0`), so "0012" yields a symmetric section | high; not executed | NacaGeometry.Naca4ZeroCamberFails | NacaGeometry.Naca4GuardedSymmetric |

## Left out

- Plotting and image output are not modelled. This covers `plot_results`, the
  module-level plotting script in `naca_geometry.py` and the `__main__` block.
  They are matplotlib rendering and file output.
- The `print` in the constructor (flow_solver.py:25) is console output and is not
  modelled.
- `validation_plotter.py` is not part of this model. It holds reference data and
  plotting, not an algorithm.
- Floating-point rounding, overflow and numpy broadcasting are not modelled.
  Values are exact reals, and arrays are sequences or sequences of rows.
- The values of `sqrt`, `arctan`, `sin`, `cos`, `pi` and `np.radians` are not
  modelled. They are uninterpreted, with only the facts listed above. In
  particular, nothing is proved about the stored angle beyond its being
  `radians(alpha_deg)`.
- `int()` leniency is not modelled. Python's `int()` also accepts surrounding
  whitespace, a sign and underscores. Because `number[2:]` takes the whole tail,
  the source also accepts strings of other lengths, such as "441" or "44120". The
  model accepts exactly four decimal digits and rejects everything else with
  `InvalidDesignation`.
- Default arguments are not modelled: `n_points=200`, `n_points=100`,
  `grid_res=200`, `alpha_deg=6` and `reynolds=1e6`. Every count and angle is an
  explicit parameter. Only the default designation "4412" is modelled, as
  `FlowSolver.DefaultCode`.
- `np.linspace` with a non-integer count is not modelled, since counts are
  integers here.
- `np.where` evaluates both camber branches over the whole array. The model
  evaluates the selected branch only, which gives the same values because
  `p = 0.4` makes both branches defined.
- The panel method and the viscous corrections described in the flow solver's
  module docstring are not modelled. The code does not implement them: the
  circulation is the constant 2.5.
- FlowSolver.ComputeFlowField and its companions require `pi > 0` for the
  division by `2 pi`. This holds of numpy's constant.
