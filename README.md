# Blade element momentum blade sizer — Dafny model

This project models the core of a wind-turbine blade sizer. The sizer uses
Blade Element Momentum (BEM) theory. It splits a blade of radius R into
segments, solves each segment's induction factors, and derives chord, twist
and the thrust and torque loads from them. It then fits every section into a
manufacturing envelope (a minimum chord and a width × height block of
material) and prepares the blade for export: hub segments are removed, a
hub cylinder is added at the front and a tip segment at the back. Finally it
integrates the loads into available power, generated power, Cp and Ct.

The model follows the three classes of the program:

- `numeric.dfy` (module `Numeric`) holds the shared vocabulary:
  - `Option`, `Result` and `Outcome`, and the errors the code can raise;
  - `Float`, a real or the NaN sentinel, with its arithmetic and sums;
  - `Math`, the trigonometric and exponential functions as parameters.
- `inputs.dfy` (module `Inputs`) holds the configuration constants of
  `Inputs.py`.
- `airfoil.dfy` (module `AirfoilModel`, from `Classes/Airfoil_Class.py`)
  models `Airfoil`. It is an immutable value: the optimum angle of attack is
  stored in radians, and the outline is read from its data file, one point
  per line after the header, then mean-centred.
- `segment.dfy` (module `SegmentModel`, from `Classes/Segment_Class.py`)
  models `Segment` as a class with its attributes as fields.
  - `SegState` is a snapshot of those fields; the specification functions
    work on snapshots.
  - The closed-form solve (`calc_dimensions`), the Newton solve with the NaN
    fallback (`calc_properties`, `find_induction`) and the envelope test
    (`check_shape`) are modelled.
  - So are the chord and twist searches (`iter_chord`, `iter_twist`), each a
    `while` loop proved against a recursive definition.
- `blade.dfy` (module `BladeModel`, from `Classes/Blade_Class.py`) models
  `Blade` as a class whose `segments` field is a sequence of `Segment`
  objects.
  - `design_blade`, `fix_blade`, `prepare_blade`, `calc_power` and
    `read_segments` are methods, each proved against a function on segment
    snapshots.
  - Lemmas state what those functions promise.

Several behaviours are modelled exactly as written:

- The hub sweep of `prepare_blade` removes list elements while iterating
  over the list, so the element right after each removed one is never
  examined. `KeptContract` states which segments survive, and
  `ConsecutiveHubSegments` shows a second hub segment surviving.
- `find_induction` fails on its 100th update even when that update
  converged.
- `iter_chord` returns `None` when the section already fits, or when
  shrinking makes it undersized.

The numerical kernels are parameters of a `Kernels` record:

- `np.roots` of the induction cubic;
- the Newton update `a - f(a)/f'(a)`;
- sine, cosine, arctangent, arccosine and the exponential;
- the outline files, as a map from path to lines;
- `float()` on a text column.

Only the control logic and the exact algebra around these kernels are
proved.

## Model

| member | source | states |
|---|---|---|
| AirfoilModel.NewAirfoil | Classes/Airfoil_Class.py:9-13 | name, Cl and Cd are stored unchanged; the optimum angle of attack is the argument in degrees times π/180, so converting it back to degrees gives the argument |
| AirfoilModel.Words | Classes/Airfoil_Class.py:31 | splitting a line yields non-empty words without white space, and no word at all exactly when the line is blank |
| AirfoilModel.TokenWhole | Classes/Airfoil_Class.py:31 | a line with no white space is one token to its end |
| AirfoilModel.TokenEndsAtSpace | Classes/Airfoil_Class.py:31 | a white-space character ends the token before it |
| AirfoilModel.WordsOfToken | Classes/Airfoil_Class.py:31 | a non-empty run of non-white-space characters splits into exactly one word, itself |
| AirfoilModel.WordsSplit | Classes/Airfoil_Class.py:31 | the words of a line split at any white-space character are the words before it followed by the words after it; with `WordsOfToken` this fixes every word of every line |
| AirfoilModel.ParseLine | Classes/Airfoil_Class.py:31-34 | a data line gives a point exactly when it has two columns that both parse as numbers; x is the first column and y the second; otherwise the error is a missing column or a bad number |
| AirfoilModel.Parsed | Classes/Airfoil_Class.py:30-34 | a successful read gives x and y lists of equal length, one entry per data line |
| AirfoilModel.ParsedStep | Classes/Airfoil_Class.py:30-34 | reading one more line appends that line's point, or stops with that line's error |
| AirfoilModel.ErrorPersists | Classes/Airfoil_Class.py:30-34 | the first bad line aborts the read: no later line can change the result |
| AirfoilModel.ParsedPoints | Classes/Airfoil_Class.py:30-34 | the read succeeds iff every line parses, and then the i-th point is the i-th line's two columns; on failure the error is that of the first bad line |
| AirfoilModel.ReadPoints | Classes/Airfoil_Class.py:29-34 | the appending loop over the lines computes exactly the read specified by `Parsed` |
| AirfoilModel.Shift | Classes/Airfoil_Class.py:41-42 | subtracting the mean keeps the number of coordinates |
| AirfoilModel.SumOfShift | Classes/Airfoil_Class.py:41-42 | shifting n values by m lowers their sum by n·m |
| AirfoilModel.CenteredSumIsZero | Classes/Airfoil_Class.py:37-42 | values shifted by their own mean sum to zero |
| AirfoilModel.CenteringTranslates | Classes/Airfoil_Class.py:37-42 | the centred x and y coordinates each sum to zero, and all pairwise differences between points are those of the raw outline (a uniform translation) |
| AirfoilModel.ShapeContract | Classes/Airfoil_Class.py:24-44 | `shape` succeeds iff the file exists, has a header plus at least one data line, and every data line parses; the header is skipped and the result is the centred outline with one point per data line |
| AirfoilModel.Airfoil.Shape | Classes/Airfoil_Class.py:24-44 | the method returns the outline (or error) specified by `ShapeOf`, whose properties `ShapeContract` gives |
| SegmentModel.FirstRoot | Classes/Segment_Class.py:41-44 | a root is chosen iff some root is real and in [0, 0.5]; the chosen one is the first such root in list order |
| SegmentModel.SelectRoot | Classes/Segment_Class.py:41-44 | the early-exit loop over the roots picks the root `FirstRoot` specifies |
| SegmentModel.InflowAt | Classes/Segment_Class.py:46-53 | inflow is undefined at a = 1/4, a = 0 or zero local tip-speed ratio; otherwise a'·(4a-1) = 1-3a, twist + optimum angle = inflow angle, and the relative velocity times sin(flow) is V(1-a) |
| SegmentModel.LoadsOf | Classes/Segment_Class.py:59-62 | dT and dM share one factor, so dT·C_m = dM·C_a; Re·μ = ρ·W·chord |
| SegmentModel.DesignSolve | Classes/Segment_Class.py:38-62 | the closed-form solve reports no physical root iff no root qualifies; otherwise a is the first qualifying root, in [0, 0.5] |
| SegmentModel.RootSolve | Classes/Segment_Class.py:46-62 | with a root, the solve succeeds iff the inflow exists and the chord denominator is non-zero; the chord then satisfies chord·denominator = numerator and the loads carry no tip loss |
| SegmentModel.DimensionsState | Classes/Segment_Class.py:37-62 | `calc_dimensions` keeps length, position and airfoil, and records tsr = TSR·position |
| SegmentModel.NewtonFromCharacterisation | Classes/Segment_Class.py:112-121 | from update n on, the loop returns iff some later update below 100 has a step under 0.01, and returns the first such iterate; otherwise it fails with the 100th iterate |
| SegmentModel.NewtonContract | Classes/Segment_Class.py:112-123 | `find_induction` returns iff one of updates 1..99 has a step under 0.01, and returns the iterate of the first such update; otherwise it raises the convergence failure carrying the 100th iterate and the tip-speed ratio |
| SegmentModel.TipLoss | Classes/Segment_Class.py:80-83 | without the tip flag the tip-loss factor is exactly 1 |
| SegmentModel.PropertySolve | Classes/Segment_Class.py:66-88 | the re-solve fails iff the chord is missing, Newton fails or the inflow is undefined at the Newton root; on success a is the Newton root, dT·C_m = dM·C_a, and without the tip flag the loads are the untipped ones |
| SegmentModel.PropertiesState | Classes/Segment_Class.py:65-100 | `calc_properties` keeps length, position and airfoil |
| SegmentModel.PropertiesContract | Classes/Segment_Class.py:65-100 | chord is always the argument and tsr = TSR·position; on any failure the nine derived fields are all NaN; on success they are all numbers related by the induction, twist and load identities, with a the Newton root |
| SegmentModel.SolvedFields | Classes/Segment_Class.py:71-88 | writing a successful solve into a segment gives numeric fields that satisfy the induction, twist and load identities |
| SegmentModel.ScaledShape | Classes/Segment_Class.py:174-187 | the scaled shape has one rotated point per outline point, in order |
| SegmentModel.RotationKeepsRadius | Classes/Segment_Class.py:182-184 | a rotation scaled by k multiplies squared distances from the origin by k² |
| SegmentModel.RotateGeometry | Classes/Segment_Class.py:174-187 | a NaN twist gives NaN coordinates; otherwise each scaled point lies at chord times its original distance from the origin |
| SegmentModel.AnyOutside | Classes/Segment_Class.py:132-138 | the early-return loop finds an outside coordinate iff one exists |
| SegmentModel.Classify | Classes/Segment_Class.py:126-140 | exactly one outcome: 'Other' iff the chord or thickness is too small, checked before any coordinate; False iff not undersized and some x or y lies on or beyond half the width or height; True otherwise |
| SegmentModel.UndefinedTwistNeverOversized | Classes/Segment_Class.py:126-140 | a NaN twist fails every comparison, so it is never reported outside the envelope |
| SegmentModel.VisitSteps | Classes/Segment_Class.py:147-155 | the chords visited are c·1.01^g·0.99^j |
| SegmentModel.GrowResult | Classes/Segment_Class.py:146-151 | a chord the grow phase returns fits and lies on the path of undersized growth steps then oversized shrink steps; a fall-through means the start fitted, or after n undersized growth steps and j−1 oversized shrink steps the j-th shrink was undersized, within the fuel |
| SegmentModel.ShrinkResult | Classes/Segment_Class.py:153-157 | a chord the shrink phase returns fits and follows only oversized chords; a fall-through means the start was not oversized, or the first shrunk chord that is not oversized, reached within the fuel, is undersized |
| SegmentModel.ShrinkReaches | Classes/Segment_Class.py:153-157 | conversely, the shrink phase returns the first fitting chord it reaches within the fuel over oversized chords, and falls through at the first undersized one |
| SegmentModel.ShrinkSpent | Classes/Segment_Class.py:153-157 | the shrink phase runs out of fuel only when every chord it could reach was oversized |
| SegmentModel.GrowReaches | Classes/Segment_Class.py:146-157 | conversely, the grow phase returns the first fitting chord on its path reached within the fuel, whether during growth or during the shrink that follows, and falls through when that shrink reaches an undersized chord |
| SegmentModel.GrowSpent | Classes/Segment_Class.py:146-157 | running out of fuel means the path used all of it: every growth step was undersized and either the last chord was still undersized or every shrink step was oversized |
| SegmentModel.ChordSearchContract | Classes/Segment_Class.py:143-157 | any chord `iter_chord` returns fits and is c·1.01^n·0.99^j after n undersized and j oversized steps; `None` only when c already fits, or the shrink after n undersized growth steps met an undersized chord after j−1 oversized ones; out of fuel only after fuel steps over chords that do not fit |
| SegmentModel.ChordSearchReaches | Classes/Segment_Class.py:143-157 | conversely, the first fitting chord on the grow-then-shrink path is returned whenever it is reached within the fuel, and `None` is returned whenever the shrink reaches an undersized chord |
| SegmentModel.ShrinkFuel | Classes/Segment_Class.py:153-157 | once the shrink phase finishes, more fuel does not change its result |
| SegmentModel.GrowFuel | Classes/Segment_Class.py:146-157 | once the search finishes, more fuel does not change its result |
| SegmentModel.FitChord | Classes/Segment_Class.py:146-157 | the two `while` loops compute the search specified by `Grow` |
| SegmentModel.TurnFrom | Classes/Segment_Class.py:163-171 | the twist search as written returns only twists lowered by a whole number of degrees, the first one not oversized |
| SegmentModel.TurnReaches | Classes/Segment_Class.py:163-171 | conversely, the first twist not oversized, reached within the fuel, is the one returned |
| SegmentModel.TwistSearchContract | Classes/Segment_Class.py:160-171 | as written, a returned twist is t0 lowered by j whole degrees, with every earlier twist oversized, and the first twist not oversized within the fuel is always returned; the full-turn guard never fires, so a section oversized at every twist never stops |
| SegmentModel.OversizedAtEveryTwist | Classes/Segment_Class.py:163-169 | for a section oversized at every twist the search as written runs out of any fuel, while the corrected search returns the original twist |
| SegmentModel.RevolveFrom | Classes/Segment_Class.py:163-171 | from step n, the corrected search returns the first twist not oversized within the turn, or t0 when none is |
| SegmentModel.RevolveContract | Classes/Segment_Class.py:160-171 | the corrected `iter_twist` always stops within a full turn: it returns the first twist, lowered by j < 360 degrees, that is not oversized, or the original twist when all 360 are oversized |
| SegmentModel.FitTwist | Classes/Segment_Class.py:163-171 | the `while` loop with the full-turn guard computes the corrected search `Revolve` |
| SegmentModel.UndefinedTwistUnchanged | Classes/Segment_Class.py:163-171 | a NaN twist is returned unchanged |
| SegmentModel.Segment.constructor | Classes/Segment_Class.py:13-19 | length, position and airfoil are stored; nothing is solved yet |
| SegmentModel.Segment.Copy | Classes/Segment_Class.py:144 | a deep copy has the same attributes as the original |
| SegmentModel.Segment.CalcDimensions | Classes/Segment_Class.py:37-62 | the segment's new attributes and the outcome are those of the closed-form solve |
| SegmentModel.Segment.FindInduction | Classes/Segment_Class.py:104-123 | the method returns the Newton result for the segment's own position, length and airfoil, and changes nothing |
| SegmentModel.Segment.CalcProperties | Classes/Segment_Class.py:65-101 | the segment's new attributes are those `PropertiesContract` describes; no error escapes |
| SegmentModel.Segment.IterChord | Classes/Segment_Class.py:143-157 | the method returns the chord search on a copy and leaves the receiver unchanged |
| SegmentModel.Segment.IterTwist | Classes/Segment_Class.py:160-171 | the method returns the corrected twist search on a copy and leaves the receiver unchanged |
| SegmentModel.NewSegment | Classes/Segment_Class.py:13-22 | a non-Airfoil argument raises TypeError; otherwise a fresh segment stores length and position as given |
| BladeModel.PositionOf | Classes/Blade_Class.py:45-48 | segment i sits at (i + 0.5)/n of the radius |
| BladeModel.UniformLayout | Classes/Blade_Class.py:45-48 | positions strictly increase with i and lie in (0, 1) |
| BladeModel.UniformTotal | Classes/Blade_Class.py:45-50 | n segments of equal length l have total length n·l |
| BladeModel.DimensionedContract | Classes/Blade_Class.py:48-49 | the per-segment solve keeps length, position and airfoil, and succeeds exactly when `calc_dimensions` does |
| BladeModel.DesignedSegment | Classes/Blade_Class.py:48-49 | each designed segment has length R/n, position (i + 0.5)/n and the blade's airfoil, and is the solve of a fresh segment |
| BladeModel.DesignPasses | Classes/Blade_Class.py:47-50 | a completed design has exactly n segments in order, with lengths summing to R |
| BladeModel.DesignedTotal | Classes/Blade_Class.py:45-50 | n segments of length R/n have total length R |
| BladeModel.DesignContract | Classes/Blade_Class.py:41-53 | a non-Airfoil airfoil raises TypeError with no segment added; n = 0 divides by zero; otherwise exactly n segments of length R/n at positions (i + 0.5)/n, summing to R |
| BladeModel.FixOne | Classes/Blade_Class.py:57-59 | a fitting segment is untouched; one outside the envelope is re-solved with the chord `iter_chord` found, or the pass fails with the error of the shape check, of the chord search, of a search that did not finish, or of an unset tip-speed ratio; length, position and airfoil never change |
| BladeModel.FixAll | Classes/Blade_Class.py:57-59 | the fix pass keeps the segment count |
| BladeModel.FixAllContract | Classes/Blade_Class.py:57-59 | each segment is kept or replaced by its fix; on failure, segments before the failing one are fixed and those from it on are untouched |
| BladeModel.FixAllIdle | Classes/Blade_Class.py:57-59 | if no segment needs a fix, the pass changes nothing |
| BladeModel.FixAllStops | Classes/Blade_Class.py:57-59 | after the first error, no later segment is touched |
| BladeModel.FixBladeContract | Classes/Blade_Class.py:56-59 | count and order are kept; fitting segments are untouched; on success every segment outside the envelope is the re-solve with the chord `iter_chord` found; on failure the error is that of the first failing segment, the ones before it are fixed and the rest untouched; with every segment fitting, the blade is unchanged |
| BladeModel.HubMask | Classes/Blade_Class.py:63-64 | a segment is a hub segment iff position·R ≤ 0.03 |
| BladeModel.KeptFrom | Classes/Blade_Class.py:63-65 | survivor indices are strictly increasing and in range |
| BladeModel.Pick | Classes/Blade_Class.py:63-65 | the survivors are the segments at the kept indices, in order |
| BladeModel.KeptFromContract | Classes/Blade_Class.py:63-65 | every non-hub segment survives, the segment after a removed one survives, and a hub segment examined by the loop (the first, or one after a survivor) is removed |
| BladeModel.KeptContract | Classes/Blade_Class.py:63-65 | a segment survives exactly when it is not a hub segment or the one before it was removed (the remove-while-iterating skip); survivors keep their order |
| BladeModel.ConsecutiveHubSegments | Classes/Blade_Class.py:63-65 | of two leading hub segments only the first is removed |
| BladeModel.CylinderRun | Classes/Blade_Class.py:68-71 | the cylinder has length 0.03, position 0.03/R, chord L_circ and the circular airfoil |
| BladeModel.PrepareRunSplits | Classes/Blade_Class.py:62-80 | R = 0 fails after the sweep; otherwise preparing is the sweep followed by the cylinder and the tip |
| BladeModel.WithTipContract | Classes/Blade_Class.py:75-80 | adding the tip keeps the body and appends the tip of the last segment; it fails only on a zero-length last segment, leaving the body |
| BladeModel.TipContract | Classes/Blade_Class.py:75-79 | the tip copies the last segment except position 1, length R(1 - last.position), and dT, dM scaled by the length ratio; a NaN load stays NaN |
| BladeModel.PreparedAround | Classes/Blade_Class.py:67-80 | around the swept list, a successful preparation puts the cylinder first and the tip last |
| BladeModel.AssembleAround | Classes/Blade_Class.py:67-80 | with a cylinder, the result is cylinder, swept segments, tip, or on failure cylinder and swept segments |
| BladeModel.PrepareContract | Classes/Blade_Class.py:62-80 | on success: survivors of the sweep in the middle, the cylinder first, the tip last, count = survivors + 2; on failure the survivors are still in place |
| BladeModel.Terms | Classes/Blade_Class.py:84-90 | one term per segment, in order |
| BladeModel.TermsRemove | Classes/Blade_Class.py:89-90 | the sum of the terms is the sum without one segment plus that segment's term |
| BladeModel.TermsLast | Classes/Blade_Class.py:89-90 | the sum of the terms is the sum of all but the last, plus the last |
| BladeModel.TermsPermutation | Classes/Blade_Class.py:89-90 | summing the per-segment terms does not depend on segment order |
| BladeModel.Ratio | Classes/Blade_Class.py:94-95 | a coefficient is a number iff its numerator is, and then coefficient × denominator = numerator |
| BladeModel.PowerIsLoadTimesSpeed | Classes/Blade_Class.py:91-95 | available power is the dynamic load times wind speed; both vanish iff density, wind speed or radius is zero |
| BladeModel.PowerContract | Classes/Blade_Class.py:83-105 | P_avail = ½ρV³πR², P_gen = (tsr·V/R)·Σ dM·position·R, Cp·P_avail = P_gen and Ct·½ρV²πR² = Σ dT; fails iff tsr is unset or R, ρ or V is zero |
| BladeModel.PowerOfOk | Classes/Blade_Class.py:83-105 | a successful report is built from the available power, the generated power and the two ratios |
| BladeModel.ReportOf | Classes/Blade_Class.py:94-95 | the report's coefficients satisfy Cp·P_avail = P_gen and Ct·load = T |
| BladeModel.PowerReorder | Classes/Blade_Class.py:83-105 | reordering the segments does not change the power report |
| BladeModel.TwoSegmentPower | Classes/Blade_Class.py:84-90 | worked example: loads 10 and 20 at r/R 0.25 and 0.75 give T = 30 and moments 1·0.25 + 2·0.75 = 1.75 |
| BladeModel.TabulatesStep | Classes/Blade_Class.py:151-159 | appending one segment's attributes to the eight lists keeps them a table of the segments |
| BladeModel.Moments | Classes/Blade_Class.py:84-90 | the moment terms are dM·(position·R), one per segment |
| BladeModel.TableTerms | Classes/Blade_Class.py:84-90 | summing the table's dT column and its dM·position·R products is summing over the segments |
| BladeModel.StatesOf | Classes/Blade_Class.py:141-161 | one snapshot per segment, in order |
| BladeModel.Blade.constructor | Classes/Blade_Class.py:17-22 | radius, segment count, blade count and airfoil are stored, with no segments |
| BladeModel.Blade.DesignBlade | Classes/Blade_Class.py:41-53 | tsr is recorded; the segments gained and the outcome are those `DesignContract` describes |
| BladeModel.Blade.DesignLoop | Classes/Blade_Class.py:47-50 | the loop appends the designed segments in order and stops at the first failing one |
| BladeModel.Blade.DesignNext | Classes/Blade_Class.py:48-50 | one iteration appends the next designed segment, or stops with its error |
| BladeModel.Blade.AppendSegment | Classes/Blade_Class.py:50 | the segment is added at the end; the others are unchanged |
| BladeModel.Blade.FixBlade | Classes/Blade_Class.py:56-59 | the segments' new attributes and the outcome are those `FixBladeContract` describes |
| BladeModel.Blade.RemoveHubSegments | Classes/Blade_Class.py:63-65 | the segment list becomes the survivors of the sweep, in order |
| BladeModel.Blade.PrepareBlade | Classes/Blade_Class.py:62-80 | the new segment list and the outcome are those `PrepareContract` describes |
| BladeModel.Blade.Surround | Classes/Blade_Class.py:67-80 | the cylinder is added at the front and then the tip at the back |
| BladeModel.Blade.AddCylinder | Classes/Blade_Class.py:68-72 | on success the cylinder is inserted at the front; on failure nothing changes |
| BladeModel.Blade.AddTip | Classes/Blade_Class.py:75-80 | the tip of the last segment is appended, or the error of a zero-length last segment is reported |
| BladeModel.Blade.PrependSegment | Classes/Blade_Class.py:72 | the segment is inserted at the front; the others are unchanged |
| BladeModel.Blade.ReadSegments | Classes/Blade_Class.py:141-161 | eight equal-length lists, one entry per segment in order, with twist in degrees and the rest copied |
| BladeModel.Blade.CalcPower | Classes/Blade_Class.py:83-105 | the method returns the report `PowerContract` describes and changes no segment |
| BladeModel.DesignSegment | Classes/Blade_Class.py:48-49 | the new segment holds the solve of segment i, or the solve's error is reported |
| BladeModel.NewCylinder | Classes/Blade_Class.py:68-71 | the new cylinder holds the solved cylinder with chord L_circ, or the solve's error is reported |
| BladeModel.NewTip | Classes/Blade_Class.py:75-79 | the new tip holds the tip of the last segment; a zero-length last segment divides by zero |
| BladeModel.FixSegment | Classes/Blade_Class.py:58-59 | the segment becomes its fix, or is left unchanged when the fix fails |
| BladeModel.SweepHub | Classes/Blade_Class.py:63-65 | the remove-while-iterating loop leaves exactly the survivors `KeptContract` describes |
| BladeModel.FixLoop | Classes/Blade_Class.py:57-59 | the loop over the segments leaves each in the state the fix pass specifies and reports its outcome |

## Left out

- Numerical kernels are parameters, and the only property assumed of them is that they return real numbers (never NaN or infinity). These are `np.roots`, `scipy.misc.derivative` with the Newton update, and sin, cos, arctan, arccos, exp and π in the flow, chord and tip-loss formulas.
- Reals are exact. Floating-point rounding and infinities are not modelled: a division by zero, which numpy turns into inf or NaN with a warning, is an error (`DivisionByZero`) instead. Examples are a = 1/4 in a', the chord denominator, Cp and Ct.
- Opening `Airfoil_Data/<name>` is a `files` parameter from path to lines, and `float()` is a `toFloat` parameter. `check_shape` reads the file on every call, but the model reads it once and assumes the same contents each time.
- `save_csv`, `import_blade`, `read_airfoils` and `display` are file export, file import and plotting, and are not part of this model. Note that `import_blade` stores the twist in degrees without converting it back.
- The `__str__` methods and the printed report of `calc_power` are output only and are not modelled.
- The driver scripts (`testing.py`, `Design_Blade.py`, `Optim_TSR.py`, `graph.py`, `Iterate_Re.py`, `Iter_Test.py`) are not part of this model.
- `Inputs.py` becomes named constants in `inputs.dfy`.
- A non-Airfoil argument is modelled as `None` of `Option<Airfoil>`; other Python types are not modelled.
- Attributes the code sets later start as NaN in the model, and the chord starts as `None`. Python would raise AttributeError on reading them early, and no modelled path does so.
- SegmentModel.DesignSolve: when no root qualifies, the code reuses a stale `a_lin` from an earlier solve, or raises AttributeError on a fresh segment. The model always reports `NoPhysicalRoot`. Every caller solves a fresh segment, where the two agree.
- SegmentModel.ChordSearchContract: `iter_chord` can loop forever, so the search carries a fuel bound. Running out of fuel is a result of its own, and `GrowFuel` shows that more fuel never changes a finished search.
- SegmentModel.TwistSearchContract: the twist search as written is bounded by fuel for the same reason.
- SegmentModel.NewtonContract: the Newton update is real-valued, so a NaN step is not modelled. In `find_induction` a NaN step makes `diff >= 0.01` false, so the loop stops and returns NaN without raising; the model instead keeps iterating. Either way the segment's later attributes are not real numbers.
- The keyword defaults `air_density`, `wind_speed` and `viscosity` of `calc_dimensions`, `calc_properties` and `find_induction` are fixed to the constants of `inputs.dfy`; calls with other values are not modelled.
- BladeModel.FixOne: `fix_blade` evaluates `check_shape` twice in one condition. Both calls give the same answer here, so the model evaluates it once.
- The blade's tip-speed ratio before `design_blade` sets it is modelled as `None`. Python's AttributeError on reading it in `fix_blade` becomes the error `TsrUnset`, and in `calc_power` a failed report.
- `no_segments` is a mathematical integer and the segment count is unbounded.

## Findings

| source | as written | input that shows it | evidently intended | confidence | as-written member | corrected member |
|---|---|---|---|---|---|---|
| Classes/Segment_Class.py:163-169 | the full-turn guard compares the lowered twist with the original, unwrapped twist, which never equals it after a non-zero number of 1° steps | a section that is outside the envelope at every twist, e.g. from twist 0 | give up after a full 360° turn and return the original twist | high, not executed | SegmentModel.OversizedAtEveryTwist | SegmentModel.RevolveContract |
