/** One radial station of the blade (Classes/Segment_Class.py): the
    closed-form and the Newton solve of its induction factors, the derived
    aerodynamic fields, and the manufacturing-envelope test with the chord
    and twist searches built on it. The numerical kernels (np.roots, the
    Newton update, trigonometry) are parameters; only the control logic and
    the exact algebra around them are modelled. */
module SegmentModel {
  import opened Numeric
  import opened AirfoilModel
  import Inputs

  /** Everything the Newton update a - f(a)/f'(a) of find_induction depends on. */
  datatype NewtonArgs = NewtonArgs(chord: real, tsr: real, blades: real, radius: real,
                                   position: real, length: real, polar: Airfoil, windSpeed: real)

  /** The collaborators the segment calls into: numpy's functions, the cubic
      root finder, the Newton update, and the outline files with the
      text-to-float conversion used to read them. */
  datatype Kernels = Kernels(math: Math,
                             roots: seq<real> -> seq<Complex>,
                             newtonStep: (NewtonArgs, real) -> real,
                             files: string -> Option<seq<string>>,
                             toFloat: string -> Option<real>)

  /** A snapshot of a segment's attributes. */
  datatype SegState = SegState(length: real, position: real, airfoil: Airfoil, tsr: Float,
                               aLin: Float, aAng: Float, flow: Float, twist: Float,
                               cA: Float, cM: Float, chord: Option<real>,
                               dM: Float, dT: Float, re: Float)

  /** A segment as the constructor leaves it: attributes the code assigns
      later start as NaN (the chord as None). */
  function Unsolved(length: real, position: real, airfoil: Airfoil): SegState {
    SegState(length, position, airfoil, NaN, NaN, NaN, NaN, NaN, NaN, NaN, None, NaN, NaN, NaN)
  }

  // ---------------------------------------------------------------------
  // Closed-form solve (calc_dimensions)

  /** Coefficients of 16a^3 - 24a^2 + (9 - 3 tsr^2) a + (tsr^2 - 1). */
  function Cubic(tsr: real): seq<real> {
    [16.0, -24.0, 9.0 - 3.0 * tsr * tsr, -1.0 + tsr * tsr]
  }

  /** The local tip-speed ratio TSR * r/R both solves record. */
  function LocalTsr(st: SegState, tsrG: real): real {
    tsrG * st.position
  }

  /** np.roots of the cubic at local tip-speed ratio tsr. */
  function RootsOf(k: Kernels, tsr: real): seq<Complex> {
    k.roots(Cubic(tsr))
  }

  /** np.isreal(a) and 0 <= a <= 0.5 */
  predicate Qualifies(z: Complex) {
    z.im == 0.0 && 0.0 <= z.re <= 0.5
  }

  /** The first root, in list order, that is real and lies in [0, 0.5]. */
  function FirstRoot(roots: seq<Complex>): (r: Option<real>)
    ensures r.Some? <==> exists i :: 0 <= i < |roots| && Qualifies(roots[i])
    ensures r.Some? ==> 0.0 <= r.value <= 0.5
    ensures r.Some? ==> exists i :: 0 <= i < |roots| && roots[i] == Complex(r.value, 0.0) && Qualifies(roots[i])
                          && forall j :: 0 <= j < i ==> !Qualifies(roots[j])
  {
    if roots == [] then None
    else if Qualifies(roots[0]) then Some(roots[0].re)
    else
      var r := FirstRoot(roots[1..]);
      assert forall i :: 1 <= i < |roots| ==> roots[i] == roots[1..][i - 1];
      r
  }

  /** The root-selection loop of calc_dimensions. */
  method SelectRoot(roots: seq<Complex>) returns (a: Option<real>)
    ensures a == FirstRoot(roots)
  {
    var i := 0;
    while i < |roots|
      invariant 0 <= i <= |roots|
      invariant FirstRoot(roots[i..]) == FirstRoot(roots)
    {
      if Qualifies(roots[i]) {
        return Some(roots[i].re);
      }
      assert roots[i..][1..] == roots[i + 1..];
      i := i + 1;
    }
    return None;
  }

  /** The fields derived from an axial induction factor a at local tip-speed ratio tsr. */
  datatype Inflow = Inflow(aAng: real, flow: real, relVelocity: real, twist: real, cA: real, cM: real)

  /** a_ang, flow, rel_velocity, twist, C_a and C_m as both solves compute
      them; None when one of the quotients has a zero divisor. */
  function InflowAt(m: Math, polar: Airfoil, a: real, tsr: real): (r: Option<Inflow>)
    ensures a == 0.25 || a == 0.0 || tsr == 0.0 ==> r.None?
    ensures r.Some? ==> r.value.aAng * (4.0 * a - 1.0) == 1.0 - 3.0 * a && 4.0 * a != 1.0
    ensures r.Some? ==> (1.0 + r.value.aAng) * (4.0 * a - 1.0) == a
    ensures r.Some? ==> r.value.twist + polar.aoaOpt == r.value.flow
    ensures r.Some? ==> m.sin(r.value.flow) != 0.0 && tsr != 0.0
    ensures r.Some? ==> r.value.relVelocity * m.sin(r.value.flow) == Inputs.WindSpeed * (1.0 - a)
  {
    if 4.0 * a - 1.0 == 0.0 then None
    else
      var aAng := (1.0 - 3.0 * a) / (4.0 * a - 1.0);
      assert (1.0 + aAng) * (4.0 * a - 1.0) == a;
      if (1.0 + aAng) * tsr == 0.0 then None
      else
        var flow := m.atan((1.0 - a) / ((1.0 + aAng) * tsr));
        var s := m.sin(flow);
        if s == 0.0 then None
        else
          var v := Inputs.WindSpeed * (1.0 - a) / s;
          Some(Inflow(aAng, flow, v, flow - polar.aoaOpt,
                      polar.cl * m.cos(flow) + polar.cd * s,
                      polar.cl * s - polar.cd * m.cos(flow)))
  }

  /** A complete solution of a segment. */
  datatype Aero = Aero(aLin: real, inflow: Inflow, chord: real, dM: real, dT: real, re: real)

  /** 0.5 * rho * v^2 * chord * length * B * tip_loss, the factor dM and dT share. */
  function LoadFactor(v: real, chord: real, length: real, blades: real, tipLoss: real): real {
    0.5 * Inputs.AirDensity * v * v * chord * length * blades * tipLoss
  }

  /** dM, dT and Re from the inflow and the chord. */
  function LoadsOf(x: Inflow, a: real, chord: real, length: real, blades: real, tipLoss: real): (r: Aero)
    ensures r.aLin == a && r.inflow == x && r.chord == chord
    ensures r.dT * x.cM == r.dM * x.cA
    ensures r.re * Inputs.Viscosity == Inputs.AirDensity * x.relVelocity * chord
  {
    var k := LoadFactor(x.relVelocity, chord, length, blades, tipLoss);
    Aero(a, x, chord, k * x.cM, k * x.cA, Inputs.AirDensity * x.relVelocity * chord / Inputs.Viscosity)
  }

  /** The numerator 8 pi a tsr sin^2(flow) R of the optimum-rotor chord. */
  function ChordNumerator(a: real, tsr: real, s: real, radius: real): real {
    8.0 * Pi * a * tsr * s * s * radius
  }

  /** The denominator (1 - a) B C_a TSR of the optimum-rotor chord. */
  function ChordDenominator(a: real, blades: real, cA: real, tsrG: real): real {
    (1.0 - a) * blades * cA * tsrG
  }

  function Quotient(n: real, d: real): (q: real)
    requires d != 0.0
    ensures q * d == n
  {
    n / d
  }

  /** calc_dimensions: the optimum-rotor solve at the design tip-speed
      ratio. Without a root that is real and in [0, 0.5] it fails with
      NoPhysicalRoot; on success a is the first such root. */
  function DesignSolve(k: Kernels, st: SegState, tsrG: real, blades: real, radius: real): (r: Result<Aero>)
    ensures FirstRoot(RootsOf(k, LocalTsr(st, tsrG))).None? <==> r == Err(NoPhysicalRoot)
    ensures r.Ok? ==> FirstRoot(RootsOf(k, LocalTsr(st, tsrG))) == Some(r.value.aLin) && 0.0 <= r.value.aLin <= 0.5
  {
    RootSolve(k.math, st, FirstRoot(RootsOf(k, LocalTsr(st, tsrG))), tsrG, blades, radius)
  }

  /** The rest of calc_dimensions once the root loop has picked root. It
      succeeds exactly when there is a root and no divisor is zero; then the
      inflow fields follow from a, the chord solves the optimum-rotor chord
      equation and the loads carry no tip-loss factor. */
  function RootSolve(m: Math, st: SegState, root: Option<real>, tsrG: real, blades: real, radius: real): (r: Result<Aero>)
    ensures root.None? <==> r == Err(NoPhysicalRoot)
    ensures r.Err? ==> r.error == NoPhysicalRoot || r.error == DivisionByZero
    ensures r.Ok? <==> (root.Some? && InflowAt(m, st.airfoil, root.value, LocalTsr(st, tsrG)).Some? &&
      ChordDenominator(root.value, blades, InflowAt(m, st.airfoil, root.value, LocalTsr(st, tsrG)).value.cA, tsrG) != 0.0)
    ensures r.Ok? ==>
      root == Some(r.value.aLin) &&
      InflowAt(m, st.airfoil, r.value.aLin, LocalTsr(st, tsrG)) == Some(r.value.inflow) &&
      r.value.chord * ChordDenominator(r.value.aLin, blades, r.value.inflow.cA, tsrG) ==
        ChordNumerator(r.value.aLin, LocalTsr(st, tsrG), m.sin(r.value.inflow.flow), radius) &&
      r.value == LoadsOf(r.value.inflow, r.value.aLin, r.value.chord, st.length, blades, 1.0)
  {
    var tsr := LocalTsr(st, tsrG);
    match root
    case None => Err(NoPhysicalRoot)
    case Some(a) =>
      match InflowAt(m, st.airfoil, a, tsr)
      case None => Err(DivisionByZero)
      case Some(x) =>
        var den := ChordDenominator(a, blades, x.cA, tsrG);
        if den == 0.0 then Err(DivisionByZero)
        else
          var chord := Quotient(ChordNumerator(a, tsr, m.sin(x.flow), radius), den);
          Ok(LoadsOf(x, a, chord, st.length, blades, 1.0))
  }

  /** Whether calc_dimensions returns or raises. */
  function DimensionsOutcome(k: Kernels, st: SegState, tsrG: real, blades: real, radius: real): Outcome {
    match DesignSolve(k, st, tsrG, blades, radius)
    case Ok(_) => Pass
    case Err(e) => Fail(e)
  }

  /** The state calc_dimensions leaves behind: solved, or with only tsr set. */
  function DimensionsState(k: Kernels, st: SegState, tsrG: real, blades: real, radius: real): (s: SegState)
    ensures s.length == st.length && s.position == st.position && s.airfoil == st.airfoil
    ensures s.tsr == Num(LocalTsr(st, tsrG))
  {
    match DesignSolve(k, st, tsrG, blades, radius)
    case Ok(x) => Solved(st, LocalTsr(st, tsrG), x)
    case Err(_) => st.(tsr := Num(LocalTsr(st, tsrG)))
  }

  /** The state after a successful solve at local tip-speed ratio tsr. */
  function Solved(st: SegState, tsr: real, x: Aero): SegState {
    st.(tsr := Num(tsr), aLin := Num(x.aLin), aAng := Num(x.inflow.aAng), flow := Num(x.inflow.flow),
        twist := Num(x.inflow.twist), cA := Num(x.inflow.cA), cM := Num(x.inflow.cM),
        chord := Some(x.chord), dM := Num(x.dM), dT := Num(x.dT), re := Num(x.re))
  }

  /** The sentinel state of calc_properties' except branch. */
  function Undefined(st: SegState, chord: Option<real>, tsr: real): SegState {
    st.(chord := chord, tsr := Num(tsr), aLin := NaN, aAng := NaN, flow := NaN, twist := NaN,
        cA := NaN, cM := NaN, dM := NaN, dT := NaN, re := NaN)
  }

  // ---------------------------------------------------------------------
  // Newton solve (find_induction)

  /** The n-th Newton iterate, starting at 1/3. */
  function Iterate(step: (NewtonArgs, real) -> real, args: NewtonArgs, n: nat): real {
    if n == 0 then 1.0 / 3.0 else step(args, Iterate(step, args, n - 1))
  }

  /** The size of the n-th update. */
  function StepSize(step: (NewtonArgs, real) -> real, args: NewtonArgs, n: nat): real
    requires n >= 1
  {
    Abs(Iterate(step, args, n - 1) - Iterate(step, args, n))
  }

  /** The loop from update n on: converged when an update moves by less
      than 0.01, failing at the 100th update whatever its size. */
  function NewtonFrom(step: (NewtonArgs, real) -> real, args: NewtonArgs, n: nat): Result<real>
    requires 1 <= n <= 100
    decreases 100 - n
  {
    if n == 100 then Err(ConvergenceFailure(Iterate(step, args, 100), args.tsr))
    else if StepSize(step, args, n) < 0.01 then Ok(Iterate(step, args, n))
    else NewtonFrom(step, args, n + 1)
  }

  function Newton(step: (NewtonArgs, real) -> real, args: NewtonArgs): Result<real> {
    NewtonFrom(step, args, 1)
  }

  lemma {:induction false} NewtonFromCharacterisation(step: (NewtonArgs, real) -> real, args: NewtonArgs, n: nat)
    requires 1 <= n <= 100
    ensures NewtonFrom(step, args, n).Ok? <==>
      exists j :: n <= j < 100 && StepSize(step, args, j) < 0.01
    ensures NewtonFrom(step, args, n).Ok? ==>
      exists j :: n <= j < 100 && StepSize(step, args, j) < 0.01 &&
        NewtonFrom(step, args, n).value == Iterate(step, args, j) &&
        forall i :: n <= i < j ==> StepSize(step, args, i) >= 0.01
    ensures NewtonFrom(step, args, n).Err? ==>
      NewtonFrom(step, args, n).error == ConvergenceFailure(Iterate(step, args, 100), args.tsr)
    decreases 100 - n
  {
    if n < 100 {
      if StepSize(step, args, n) < 0.01 {
        assert NewtonFrom(step, args, n) == Ok(Iterate(step, args, n));
      } else {
        assert NewtonFrom(step, args, n) == NewtonFrom(step, args, n + 1);
        NewtonFromCharacterisation(step, args, n + 1);
        if exists j :: n <= j < 100 && StepSize(step, args, j) < 0.01 {
          var j :| n <= j < 100 && StepSize(step, args, j) < 0.01;
          assert n + 1 <= j;
        }
        if NewtonFrom(step, args, n).Ok? {
          var j :| n + 1 <= j < 100 && StepSize(step, args, j) < 0.01 &&
            NewtonFrom(step, args, n + 1).value == Iterate(step, args, j) &&
            forall i :: n + 1 <= i < j ==> StepSize(step, args, i) >= 0.01;
          assert forall i :: n <= i < j ==> StepSize(step, args, i) >= 0.01;
        }
      }
    }
  }

  /** find_induction returns the first iterate reached by an update smaller
      than 0.01, provided that happens within the first 99 updates; in every
      other case it raises, reporting the 100th iterate and the TSR. */
  lemma NewtonContract(step: (NewtonArgs, real) -> real, args: NewtonArgs)
    ensures Newton(step, args).Ok? <==> exists j :: 1 <= j <= 99 && StepSize(step, args, j) < 0.01
    ensures Newton(step, args).Ok? ==>
      exists j :: 1 <= j <= 99 && Newton(step, args).value == Iterate(step, args, j) &&
        StepSize(step, args, j) < 0.01 && forall i :: 1 <= i < j ==> StepSize(step, args, i) >= 0.01
    ensures Newton(step, args).Err? ==>
      Newton(step, args).error == ConvergenceFailure(Iterate(step, args, 100), args.tsr)
  {
    NewtonFromCharacterisation(step, args, 1);
  }

  /** The tip-loss factor: 2/pi acos(exp(-B (1 - r/R) / (2 r/R sin phi))) when
      requested, exactly 1 otherwise. */
  function TipLoss(m: Math, tip: bool, blades: real, position: real, flow: real): (r: real)
    requires position != 0.0 && m.sin(flow) != 0.0
    ensures !tip ==> r == 1.0
  {
    if tip then 2.0 / Pi * m.acos(m.exp(-1.0 * (blades * (1.0 - position)) / (2.0 * position * m.sin(flow))))
    else 1.0
  }

  /** The arguments find_induction hands to its update: the segment's own
      length, position and polar and the configured wind speed. */
  function NewtonArgsOf(st: SegState, chord: real, tsrG: real, blades: real, radius: real): NewtonArgs {
    NewtonArgs(chord, tsrG, blades, radius, st.position, st.length, st.airfoil, Inputs.WindSpeed)
  }

  /** calc_properties: the solve for a given chord. It succeeds exactly when
      the chord is a number, the Newton solve converges and the inflow has
      no zero divisor; then a is the Newton solution, the inflow fields
      follow from it and, without tip loss, the loads carry the factor 1. */
  function PropertySolve(k: Kernels, st: SegState, chord: Option<real>, tsrG: real, blades: real,
                         radius: real, tip: bool): (r: Result<Aero>)
    ensures r.Err? <==> (chord.None? || Newton(k.newtonStep, NewtonArgsOf(st, chord.value, tsrG, blades, radius)).Err? ||
      InflowAt(k.math, st.airfoil, Newton(k.newtonStep, NewtonArgsOf(st, chord.value, tsrG, blades, radius)).value,
               LocalTsr(st, tsrG)).None?)
    ensures chord.None? ==> r == Err(NoChord)
    ensures r.Ok? ==> (chord.Some? && r.value.chord == chord.value &&
      Newton(k.newtonStep, NewtonArgsOf(st, chord.value, tsrG, blades, radius)) == Ok(r.value.aLin) &&
      InflowAt(k.math, st.airfoil, r.value.aLin, LocalTsr(st, tsrG)) == Some(r.value.inflow) &&
      r.value.dT * r.value.inflow.cM == r.value.dM * r.value.inflow.cA &&
      (!tip ==> r.value == LoadsOf(r.value.inflow, r.value.aLin, chord.value, st.length, blades, 1.0)))
  {
    match chord
    case None => Err(NoChord)
    case Some(c) =>
      match Newton(k.newtonStep, NewtonArgsOf(st, c, tsrG, blades, radius))
      case Err(e) => Err(e)
      case Ok(a) =>
        var tsr := LocalTsr(st, tsrG);
        match InflowAt(k.math, st.airfoil, a, tsr)
        case None => Err(DivisionByZero)
        case Some(x) =>
          assert st.position != 0.0;
          Ok(LoadsOf(x, a, c, st.length, blades, TipLoss(k.math, tip, blades, st.position, x.flow)))
  }

  /** The state calc_properties leaves behind. */
  function PropertiesState(k: Kernels, st: SegState, chord: Option<real>, tsrG: real, blades: real,
                           radius: real, tip: bool): (s: SegState)
    ensures s.length == st.length && s.position == st.position && s.airfoil == st.airfoil
  {
    match PropertySolve(k, st, chord, tsrG, blades, radius, tip)
    case Ok(x) => Solved(st, LocalTsr(st, tsrG), x)
    case Err(_) => Undefined(st, chord, LocalTsr(st, tsrG))
  }

  /** What calc_properties promises: the chord is always its argument and
      tsr is TSR * position; on success a is the Newton solution for that
      chord, a' and twist follow from it and dT : dM = C_a : C_m; on any
      failure the nine derived fields are NaN. Length, position and polar
      never change. */
  lemma PropertiesContract(k: Kernels, st: SegState, chord: Option<real>, tsrG: real, blades: real,
                           radius: real, tip: bool)
    ensures var s' := PropertiesState(k, st, chord, tsrG, blades, radius, tip);
      s'.chord == chord && s'.tsr == Num(LocalTsr(st, tsrG)) &&
      s'.length == st.length && s'.position == st.position && s'.airfoil == st.airfoil
    ensures var s' := PropertiesState(k, st, chord, tsrG, blades, radius, tip);
      PropertySolve(k, st, chord, tsrG, blades, radius, tip).Err? ==>
        s'.aLin.NaN? && s'.aAng.NaN? && s'.flow.NaN? && s'.twist.NaN? && s'.cA.NaN? &&
        s'.cM.NaN? && s'.dM.NaN? && s'.dT.NaN? && s'.re.NaN?
    ensures var s' := PropertiesState(k, st, chord, tsrG, blades, radius, tip);
      PropertySolve(k, st, chord, tsrG, blades, radius, tip).Ok? ==>
        chord.Some? && Induced(s') &&
        Newton(k.newtonStep, NewtonArgsOf(st, chord.value, tsrG, blades, radius)) == Ok(s'.aLin.val)
  {
    var r := PropertySolve(k, st, chord, tsrG, blades, radius, tip);
    var tsr := LocalTsr(st, tsrG);
    if r.Ok? {
      var x := r.value;
      var s' := PropertiesState(k, st, chord, tsrG, blades, radius, tip);
      assert s' == Solved(st, tsr, x);
      SolvedFields(k.math, st, tsr, x);
    } else {
      assert PropertiesState(k, st, chord, tsrG, blades, radius, tip) == Undefined(st, chord, tsr);
    }
  }

  /** A solved state carries numbers whose a' and twist follow from a. */
  lemma SolvedFields(m: Math, st: SegState, tsr: real, x: Aero)
    requires InflowAt(m, st.airfoil, x.aLin, tsr) == Some(x.inflow)
    requires x.dT * x.inflow.cM == x.dM * x.inflow.cA
    ensures Solved(st, tsr, x).aLin == Num(x.aLin) && Induced(Solved(st, tsr, x))
  {
  }

  /** The relations a solved segment's fields keep: all are numbers,
      a' (4a - 1) = 1 - 3a, twist + the optimum angle of attack is the
      inflow angle, and dT : dM = C_a : C_m. */
  ghost predicate Induced(s: SegState) {
    s.aLin.Num? && s.aAng.Num? && s.twist.Num? && s.flow.Num? && s.dM.Num? && s.dT.Num? &&
    s.cA.Num? && s.cM.Num? && s.re.Num? &&
    s.aAng.val * (4.0 * s.aLin.val - 1.0) == 1.0 - 3.0 * s.aLin.val &&
    s.twist.val + s.airfoil.aoaOpt == s.flow.val &&
    s.dT.val * s.cM.val == s.dM.val * s.cA.val
  }

  // ---------------------------------------------------------------------
  // Manufacturing envelope (scaled_shape, check_shape)

  /** One outline point scaled by the chord and rotated by the twist. */
  function Rotate(m: Math, chord: real, twist: Float, x: real, y: real): (Float, Float) {
    var c, s := FCos(m, twist), FSin(m, twist);
    (Sub(Mul(Num(chord * x), c), Mul(Num(chord * y), s)), Add(Mul(Num(chord * x), s), Mul(Num(chord * y), c)))
  }

  /** The outline scaled and rotated point by point, order kept. */
  function ScaledShape(m: Math, chord: real, twist: Float, o: Outline): (r: (seq<Float>, seq<Float>))
    ensures |r.0| == |o.xs| && |r.1| == |o.xs|
    ensures forall i :: 0 <= i < |o.xs| ==> (r.0[i], r.1[i]) == Rotate(m, chord, twist, o.xs[i], o.ys[i])
  {
    (seq(|o.xs|, i requires 0 <= i < |o.xs| => Rotate(m, chord, twist, o.xs[i], o.ys[i]).0),
     seq(|o.xs|, i requires 0 <= i < |o.xs| => Rotate(m, chord, twist, o.xs[i], o.ys[i]).1))
  }

  lemma RotationKeepsRadius(x: real, y: real, c: real, s: real, k: real)
    requires s * s + c * c == 1.0
    ensures (k * x * c - k * y * s) * (k * x * c - k * y * s) + (k * x * s + k * y * c) * (k * x * s + k * y * c)
            == k * k * (x * x + y * y)
  {
    calc {
      (k * x * c - k * y * s) * (k * x * c - k * y * s) + (k * x * s + k * y * c) * (k * x * s + k * y * c);
      k * k * (x * x * (c * c + s * s) + y * y * (s * s + c * c));
      k * k * (x * x + y * y);
    }
  }

  /** A rotated point: with a real twist whose sine and cosine satisfy
      sin^2 + cos^2 = 1 its distance from the centroid is the chord times
      the outline point's; a NaN twist makes both coordinates NaN. */
  lemma RotateGeometry(m: Math, chord: real, twist: Float, x: real, y: real)
    ensures twist.NaN? ==> Rotate(m, chord, twist, x, y).0.NaN? && Rotate(m, chord, twist, x, y).1.NaN?
    ensures twist.Num? && m.sin(twist.val) * m.sin(twist.val) + m.cos(twist.val) * m.cos(twist.val) == 1.0 ==>
      var p := Rotate(m, chord, twist, x, y);
      p.0.Num? && p.1.Num? && p.0.val * p.0.val + p.1.val * p.1.val == chord * chord * (x * x + y * y)
  {
    if twist.Num? && m.sin(twist.val) * m.sin(twist.val) + m.cos(twist.val) * m.cos(twist.val) == 1.0 {
      var c, s := m.cos(twist.val), m.sin(twist.val);
      var p := Rotate(m, chord, twist, x, y);
      assert p.0.val == chord * x * c - chord * y * s;
      assert p.1.val == chord * x * s + chord * y * c;
      RotationKeepsRadius(x, y, c, s, chord);
    }
  }

  /** The three outcomes of check_shape: 'Other', False and True. */
  datatype ShapeCheck = Undersized | Oversized | Fits

  /** Lc_min and the envelope width and height. */
  datatype Envelope = Envelope(lc: real, width: real, height: real)

  /** chord <= Lc or chord * max_thickness <= t_min */
  predicate IsUndersized(chord: real, lc: real) {
    chord <= lc || chord * Inputs.MaxThickness <= Inputs.TMin
  }

  /** v >= size/2 or v <= -size/2; false for NaN, as IEEE comparisons are. */
  predicate OutsideHalf(v: Float, size: real) {
    v.Num? && (v.val >= size / 2.0 || v.val <= -size / 2.0)
  }

  /** The early-return scan of one coordinate list. */
  function AnyOutside(vs: seq<Float>, size: real): (b: bool)
    ensures b <==> exists i :: 0 <= i < |vs| && OutsideHalf(vs[i], size)
  {
    if vs == [] then false
    else
      var rest := AnyOutside(vs[1..], size);
      assert forall i :: 1 <= i < |vs| ==> vs[i] == vs[1..][i - 1];
      OutsideHalf(vs[0], size) || rest
  }

  /** check_shape on already scaled coordinates: the size floor is tested
      before any coordinate, and a point on the boundary counts as outside. */
  function Classify(chord: real, xs: seq<Float>, ys: seq<Float>, env: Envelope): (r: ShapeCheck)
    ensures r == Undersized <==> IsUndersized(chord, env.lc)
    ensures r == Oversized <==> (!IsUndersized(chord, env.lc) &&
      ((exists i :: 0 <= i < |xs| && OutsideHalf(xs[i], env.width)) ||
       (exists j :: 0 <= j < |ys| && OutsideHalf(ys[j], env.height))))
    ensures r == Fits <==> (!IsUndersized(chord, env.lc) &&
      (forall i :: 0 <= i < |xs| ==> !OutsideHalf(xs[i], env.width)) &&
      (forall j :: 0 <= j < |ys| ==> !OutsideHalf(ys[j], env.height)))
  {
    if IsUndersized(chord, env.lc) then Undersized
    else if AnyOutside(xs, env.width) || AnyOutside(ys, env.height) then Oversized
    else Fits
  }

  /** The numerics and outline a shape test works with. */
  datatype Section = Section(m: Math, outline: Outline, env: Envelope)

  function CheckAt(sec: Section, chord: real, twist: Float): ShapeCheck {
    var sh := ScaledShape(sec.m, chord, twist, sec.outline);
    Classify(chord, sh.0, sh.1, sec.env)
  }

  /** check_shape of a segment: the outline file is read first, then the
      chord is used; a None chord raises. */
  function ShapeCheckOf(k: Kernels, st: SegState, env: Envelope): Result<ShapeCheck> {
    match ShapeOf(k.files, k.toFloat, st.airfoil)
    case Err(e) => Err(e)
    case Ok(o) =>
      if st.chord.None? then Err(NoChord)
      else Ok(CheckAt(Section(k.math, o, env), st.chord.value, st.twist))
  }

  /** A NaN twist is never reported outside the envelope: its rotated
      coordinates are all NaN and fail every comparison. */
  lemma UndefinedTwistNeverOversized(sec: Section, chord: real)
    ensures CheckAt(sec, chord, NaN) != Oversized
    ensures CheckAt(sec, chord, NaN) == Fits <==> !IsUndersized(chord, sec.env.lc)
  {
    var sh := ScaledShape(sec.m, chord, NaN, sec.outline);
    forall i | 0 <= i < |sec.outline.xs|
      ensures sh.0[i].NaN? && sh.1[i].NaN?
    {
      RotateGeometry(sec.m, chord, NaN, sec.outline.xs[i], sec.outline.ys[i]);
    }
  }

  // ---------------------------------------------------------------------
  // Chord search (iter_chord)

  /** Outcome of iter_chord: a fitting chord, Python's None when the loops
      fall through, or the model's fuel running out where the code would
      loop on. */
  datatype ChordFit = Found(chord: real) | FellThrough | OutOfFuel

  /** check_shape of the copy as a function of its chord. */
  function ChordTest(sec: Section, twist: Float): real -> ShapeCheck {
    c => CheckAt(sec, c, twist)
  }

  /** The second loop: multiply by 0.99 while the section is too large. */
  function Shrink(test: real -> ShapeCheck, c: real, fuel: nat): ChordFit
    decreases fuel
  {
    if test(c) != Oversized then FellThrough
    else if fuel == 0 then OutOfFuel
    else if test(c * 0.99) == Fits then Found(c * 0.99)
    else Shrink(test, c * 0.99, fuel - 1)
  }

  /** The first loop: multiply by 1.01 while the section is undersized. */
  function Grow(test: real -> ShapeCheck, c: real, fuel: nat): ChordFit
    decreases fuel
  {
    if test(c) != Undersized then Shrink(test, c, fuel)
    else if fuel == 0 then OutOfFuel
    else if test(c * 1.01) == Fits then Found(c * 1.01)
    else Grow(test, c * 1.01, fuel - 1)
  }

  /** iter_chord of a segment: the outline is read, then the search starts
      from the segment's chord at its twist. */
  function ChordSearch(k: Kernels, st: SegState, env: Envelope, fuel: nat): Result<ChordFit> {
    match ShapeOf(k.files, k.toFloat, st.airfoil)
    case Err(e) => Err(e)
    case Ok(o) =>
      if st.chord.None? then Err(NoChord)
      else Ok(Grow(ChordTest(Section(k.math, o, env), st.twist), st.chord.value, fuel))
  }

  function Pow(x: real, n: nat): real {
    if n == 0 then 1.0 else x * Pow(x, n - 1)
  }

  /** The shrink loop passed steps m .. j-1 after g growth steps, all of
      them over oversized chords. */
  predicate ShrankOver(test: real -> ShapeCheck, c: real, g: nat, m: nat, j: nat) {
    forall i: nat :: m <= i < j ==> test(Visit(c, g, i)) == Oversized
  }

  /** The grow loop passed steps g .. n-1, all of them over undersized
      chords. */
  predicate GrewOver(test: real -> ShapeCheck, c: real, g: nat, n: nat) {
    forall i: nat :: g <= i < n ==> test(Visit(c, i, 0)) == Undersized
  }

  /** The chord after g growth steps and then j shrink steps. */
  function Visit(c: real, g: nat, j: nat): real {
    c * Pow(1.01, g) * Pow(0.99, j)
  }

  lemma VisitSteps(c: real, g: nat, j: nat)
    ensures Visit(c, g, 0) * 1.01 == Visit(c, g + 1, 0)
    ensures Visit(c, g, j) * 0.99 == Visit(c, g, j + 1)
    ensures Visit(c, 0, 0) == c
  {
    var p, q := Pow(1.01, g), Pow(0.99, j);
    assert Pow(1.01, g + 1) == 1.01 * p;
    assert Pow(0.99, j + 1) == 0.99 * q;
    assert Visit(c, g, j) * 0.99 == c * p * (0.99 * q);
    assert Visit(c, g, 0) * 1.01 == c * (1.01 * p) * 1.0;
  }

  /** The shrink loop entered at the chord Visit(c, g, m): a chord it returns
      fits and was reached by shrinking only oversized chords; a fall
      through means the section was not oversized on entry or a shrink step
      made it undersized. */
  lemma {:induction false} ShrinkResult(test: real -> ShapeCheck, c: real, g: nat, m: nat, fuel: nat)
    ensures Shrink(test, Visit(c, g, m), fuel).Found? ==>
      test(Shrink(test, Visit(c, g, m), fuel).chord) == Fits &&
      exists j: nat :: m < j <= m + fuel && Shrink(test, Visit(c, g, m), fuel).chord == Visit(c, g, j) &&
        forall i: nat :: m <= i < j ==> test(Visit(c, g, i)) == Oversized
    ensures Shrink(test, Visit(c, g, m), fuel).FellThrough? ==>
      test(Visit(c, g, m)) != Oversized ||
      exists j: nat :: m < j <= m + fuel && ShrankOver(test, c, g, m, j) && test(Visit(c, g, j)) == Undersized
    decreases fuel
  {
    var d := Visit(c, g, m);
    VisitSteps(c, g, m);
    if test(d) == Oversized && fuel > 0 && test(d * 0.99) != Fits {
      ShrinkResult(test, c, g, m + 1, fuel - 1);
      var r := Shrink(test, Visit(c, g, m + 1), fuel - 1);
      if r.Found? {
        var j: nat :| m + 1 < j <= m + fuel && r.chord == Visit(c, g, j) &&
          forall i: nat :: m + 1 <= i < j ==> test(Visit(c, g, i)) == Oversized;
        assert forall i: nat :: m <= i < j ==> test(Visit(c, g, i)) == Oversized;
      } else if r.FellThrough? {
        if test(Visit(c, g, m + 1)) != Oversized {
          assert ShrankOver(test, c, g, m, m + 1);
        } else {
          var j: nat :| m + 1 < j <= m + fuel && ShrankOver(test, c, g, m + 1, j) &&
            test(Visit(c, g, j)) == Undersized;
          assert ShrankOver(test, c, g, m, j);
        }
      }
    }
  }

  /** The shrink loop entered at Visit(c, g, m), reaching step j within its
      fuel over oversized chords only, returns that chord if it fits and
      falls through if it is undersized. */
  lemma {:induction false} ShrinkReaches(test: real -> ShapeCheck, c: real, g: nat, m: nat, fuel: nat)
    ensures forall j: nat :: m < j <= m + fuel && ShrankOver(test, c, g, m, j) && test(Visit(c, g, j)) == Fits ==>
      Shrink(test, Visit(c, g, m), fuel) == Found(Visit(c, g, j))
    ensures forall j: nat :: m < j <= m + fuel && ShrankOver(test, c, g, m, j) && test(Visit(c, g, j)) == Undersized ==>
      Shrink(test, Visit(c, g, m), fuel) == FellThrough
    decreases fuel
  {
    var d := Visit(c, g, m);
    VisitSteps(c, g, m);
    if test(d) == Oversized && fuel > 0 && test(Visit(c, g, m + 1)) != Fits {
      assert Shrink(test, d, fuel) == Shrink(test, Visit(c, g, m + 1), fuel - 1);
      ShrinkReaches(test, c, g, m + 1, fuel - 1);
      forall j: nat | m + 1 < j && ShrankOver(test, c, g, m, j)
        ensures ShrankOver(test, c, g, m + 1, j)
      {
      }
    }
  }

  /** The grow loop entered at Visit(c, g, 0) after g growth steps over
      undersized chords. */
  lemma {:induction false} GrowResult(test: real -> ShapeCheck, c: real, g: nat, fuel: nat)
    requires forall i: nat :: i < g ==> test(Visit(c, i, 0)) == Undersized
    ensures Grow(test, Visit(c, g, 0), fuel).Found? ==>
      test(Grow(test, Visit(c, g, 0), fuel).chord) == Fits &&
      exists n: nat, j: nat :: g <= n && 1 <= n + j <= g + fuel &&
        Grow(test, Visit(c, g, 0), fuel).chord == Visit(c, n, j) &&
        (forall i: nat :: i < n ==> test(Visit(c, i, 0)) == Undersized) &&
        (forall i: nat :: i < j ==> test(Visit(c, n, i)) == Oversized)
    ensures Grow(test, Visit(c, g, 0), fuel).FellThrough? ==>
      test(Visit(c, g, 0)) == Fits ||
      exists n: nat, j: nat :: g <= n && 0 < j && n - g + j <= fuel && GrewOver(test, c, 0, n) &&
        ShrankOver(test, c, n, 0, j) && test(Visit(c, n, j)) == Undersized
    decreases fuel
  {
    var d := Visit(c, g, 0);
    VisitSteps(c, g, 0);
    if test(d) != Undersized {
      ShrinkResult(test, c, g, 0, fuel);
      var r := Shrink(test, d, fuel);
      if r.Found? {
        var j: nat :| 0 < j <= fuel && r.chord == Visit(c, g, j) &&
          forall i: nat :: i < j ==> test(Visit(c, g, i)) == Oversized;
        assert 1 <= g + j <= g + fuel;
      } else if r.FellThrough? && test(d) == Oversized {
        var j: nat :| 0 < j <= fuel && ShrankOver(test, c, g, 0, j) && test(Visit(c, g, j)) == Undersized;
        assert GrewOver(test, c, 0, g);
      }
    } else if fuel > 0 {
      assert forall i: nat :: i < g + 1 ==> test(Visit(c, i, 0)) == Undersized;
      if test(d * 1.01) != Fits {
        GrowResult(test, c, g + 1, fuel - 1);
      }
    }
  }

  /** A shrink loop entered at Visit(c, g, m) that runs out of fuel has
      met only oversized chords, all fuel + 1 of them. */
  lemma {:induction false} ShrinkSpent(test: real -> ShapeCheck, c: real, g: nat, m: nat, fuel: nat)
    ensures Shrink(test, Visit(c, g, m), fuel) == OutOfFuel ==> ShrankOver(test, c, g, m, m + fuel + 1)
    decreases fuel
  {
    var d := Visit(c, g, m);
    VisitSteps(c, g, m);
    if test(d) == Oversized && fuel > 0 && test(Visit(c, g, m + 1)) != Fits {
      assert Shrink(test, d, fuel) == Shrink(test, Visit(c, g, m + 1), fuel - 1);
      ShrinkSpent(test, c, g, m + 1, fuel - 1);
    }
  }

  /** The grow loop entered at Visit(c, g, 0): a search that reaches a
      fitting chord within its fuel, growing over undersized chords and then
      shrinking over oversized ones, returns it; one whose shrink reaches an
      undersized chord falls through. */
  lemma {:induction false} GrowReaches(test: real -> ShapeCheck, c: real, g: nat, fuel: nat)
    ensures forall n: nat :: g < n <= g + fuel && GrewOver(test, c, g, n) && test(Visit(c, n, 0)) == Fits ==>
      Grow(test, Visit(c, g, 0), fuel) == Found(Visit(c, n, 0))
    ensures forall n: nat, j: nat ::
      g <= n && 0 < j && n - g + j <= fuel && GrewOver(test, c, g, n) && ShrankOver(test, c, n, 0, j) &&
      test(Visit(c, n, j)) == Fits ==>
      Grow(test, Visit(c, g, 0), fuel) == Found(Visit(c, n, j))
    ensures forall n: nat, j: nat ::
      g <= n && 0 < j && n - g + j <= fuel && GrewOver(test, c, g, n) && ShrankOver(test, c, n, 0, j) &&
      test(Visit(c, n, j)) == Undersized ==>
      Grow(test, Visit(c, g, 0), fuel) == FellThrough
    decreases fuel
  {
    var d := Visit(c, g, 0);
    VisitSteps(c, g, 0);
    if test(d) != Undersized {
      ShrinkReaches(test, c, g, 0, fuel);
      forall n: nat | g < n
        ensures !GrewOver(test, c, g, n)
      {
        assert test(Visit(c, g, 0)) != Undersized;
      }
    } else {
      forall j: nat | 0 < j
        ensures !ShrankOver(test, c, g, 0, j)
      {
        assert test(Visit(c, g, 0)) != Oversized;
      }
      if fuel > 0 && test(d * 1.01) != Fits {
        GrowReaches(test, c, g + 1, fuel - 1);
        forall n: nat | g < n && GrewOver(test, c, g, n)
          ensures GrewOver(test, c, g + 1, n)
        {
        }
      }
    }
  }

  /** A grow loop entered at Visit(c, g, 0) that runs out of fuel has used
      all of it: n - g growth steps over undersized chords, then either the
      last chord was still undersized or the shrink loop spent the rest of
      the fuel over oversized chords. */
  lemma {:induction false} GrowSpent(test: real -> ShapeCheck, c: real, g: nat, fuel: nat)
    ensures Grow(test, Visit(c, g, 0), fuel) == OutOfFuel ==>
      exists n: nat :: g <= n <= g + fuel && GrewOver(test, c, g, n) &&
        ((n == g + fuel && test(Visit(c, n, 0)) == Undersized) || ShrankOver(test, c, n, 0, g + fuel - n + 1))
    decreases fuel
  {
    var d := Visit(c, g, 0);
    VisitSteps(c, g, 0);
    if Grow(test, d, fuel) == OutOfFuel {
      if test(d) != Undersized {
        ShrinkSpent(test, c, g, 0, fuel);
        assert GrewOver(test, c, g, g);
      } else if fuel == 0 {
        assert GrewOver(test, c, g, g);
      } else {
        var d' := Visit(c, g + 1, 0);
        assert test(d') != Fits && Grow(test, d', fuel - 1) == OutOfFuel;
        GrowSpent(test, c, g + 1, fuel - 1);
        var g', f' := g + 1, fuel - 1;
        var n: nat :| g' <= n <= g' + f' && GrewOver(test, c, g', n) &&
          ((n == g' + f' && test(Visit(c, n, 0)) == Undersized) || ShrankOver(test, c, n, 0, g' + f' - n + 1));
        assert g' + f' == g + fuel;
        assert GrewOver(test, c, g, n);
      }
    }
  }

  /** What iter_chord promises, starting from chord c: a chord it returns
      classifies Fits and is c grown by 1.01 over undersized chords only,
      then shrunk by 0.99 over oversized chords only, in at most fuel steps;
      it returns None only when c already fits or when shrinking reaches an
      undersized chord; and when c fits it always returns None. */
  lemma ChordSearchContract(test: real -> ShapeCheck, c: real, fuel: nat)
    ensures Grow(test, c, fuel).Found? ==>
      test(Grow(test, c, fuel).chord) == Fits &&
      exists n: nat, j: nat :: 1 <= n + j <= fuel && Grow(test, c, fuel).chord == Visit(c, n, j) &&
        (forall i: nat :: i < n ==> test(Visit(c, i, 0)) == Undersized) &&
        (forall i: nat :: i < j ==> test(Visit(c, n, i)) == Oversized)
    ensures Grow(test, c, fuel).FellThrough? ==>
      test(c) == Fits ||
      exists n: nat, j: nat :: 0 < j && n + j <= fuel && GrewOver(test, c, 0, n) &&
        ShrankOver(test, c, n, 0, j) && test(Visit(c, n, j)) == Undersized
    ensures test(c) == Fits ==> Grow(test, c, fuel) == FellThrough
    ensures Grow(test, c, fuel) == OutOfFuel ==>
      exists n: nat :: n <= fuel && GrewOver(test, c, 0, n) &&
        ((n == fuel && test(Visit(c, n, 0)) == Undersized) || ShrankOver(test, c, n, 0, fuel - n + 1))
  {
    VisitSteps(c, 0, 0);
    GrowResult(test, c, 0, fuel);
    GrowSpent(test, c, 0, fuel);
  }

  /** Conversely, the first chord on the grow-then-shrink path from c that
      fits is returned when it is reached within the fuel, and the search
      gives up with None when its shrink reaches an undersized chord. */
  lemma ChordSearchReaches(test: real -> ShapeCheck, c: real, fuel: nat)
    ensures forall n: nat :: 0 < n <= fuel && GrewOver(test, c, 0, n) && test(Visit(c, n, 0)) == Fits ==>
      Grow(test, c, fuel) == Found(Visit(c, n, 0))
    ensures forall n: nat, j: nat ::
      0 < j && n + j <= fuel && GrewOver(test, c, 0, n) && ShrankOver(test, c, n, 0, j) &&
      test(Visit(c, n, j)) == Fits ==>
      Grow(test, c, fuel) == Found(Visit(c, n, j))
    ensures forall n: nat, j: nat ::
      0 < j && n + j <= fuel && GrewOver(test, c, 0, n) && ShrankOver(test, c, n, 0, j) &&
      test(Visit(c, n, j)) == Undersized ==>
      Grow(test, c, fuel) == FellThrough
  {
    VisitSteps(c, 0, 0);
    GrowReaches(test, c, 0, fuel);
  }

  /** The fuel bound only cuts the search short: with more fuel a search
      that finished finishes with the same answer. */
  lemma {:induction false} ShrinkFuel(test: real -> ShapeCheck, c: real, fuel: nat, more: nat)
    requires fuel <= more && Shrink(test, c, fuel) != OutOfFuel
    ensures Shrink(test, c, more) == Shrink(test, c, fuel)
    decreases fuel
  {
    if test(c) == Oversized && test(c * 0.99) != Fits {
      ShrinkFuel(test, c * 0.99, fuel - 1, more - 1);
    }
  }

  lemma {:induction false} GrowFuel(test: real -> ShapeCheck, c: real, fuel: nat, more: nat)
    requires fuel <= more && Grow(test, c, fuel) != OutOfFuel
    ensures Grow(test, c, more) == Grow(test, c, fuel)
    decreases fuel
  {
    if test(c) != Undersized {
      ShrinkFuel(test, c, fuel, more);
    } else if test(c * 1.01) != Fits {
      GrowFuel(test, c * 1.01, fuel - 1, more - 1);
    }
  }

  /** The two loops of iter_chord on the copy's chord c. */
  method FitChord(test: real -> ShapeCheck, c0: real, fuel: nat) returns (r: ChordFit)
    ensures r == Grow(test, c0, fuel)
  {
    var c, left := c0, fuel;
    var check := test(c);
    while check == Undersized
      invariant check == test(c)
      invariant Grow(test, c0, fuel) == Grow(test, c, left)
      decreases left
    {
      if left == 0 {
        return OutOfFuel;
      }
      c := c * 1.01;
      check := test(c);
      left := left - 1;
      if check == Fits {
        return Found(c);
      }
    }
    while check == Oversized
      invariant check == test(c)
      invariant Grow(test, c0, fuel) == Shrink(test, c, left)
      decreases left
    {
      if left == 0 {
        return OutOfFuel;
      }
      c := c * 0.99;
      check := test(c);
      left := left - 1;
      if check == Fits {
        return Found(c);
      }
    }
    return FellThrough;
  }

  // ---------------------------------------------------------------------
  // Twist search (iter_twist)

  /** Outcome of iter_twist as written: a twist, or the model's fuel running
      out where the code would loop on. */
  datatype TwistFit = Turned(twist: Float) | TwistOutOfFuel

  /** np.deg2rad(1), the step of the twist search. */
  const TwistStep: real := DegToRad(1.0)

  /** check_shape of the copy as a function of its twist. */
  function TwistTest(sec: Section, chord: real): Float -> ShapeCheck {
    t => CheckAt(sec, chord, t)
  }

  /** The loop of iter_twist as written, from twist t, t0 being the
      receiver's twist: the guard compares the lowered twist with t0. */
  function Turn(test: Float -> ShapeCheck, t0: Float, t: Float, fuel: nat): TwistFit
    decreases fuel
  {
    if test(t) != Oversized then Turned(t)
    else if fuel == 0 then TwistOutOfFuel
    else
      var t' := Sub(t, Num(TwistStep));
      if SameNumber(t', t0) then Turned(t0)
      else Turn(test, t0, t', fuel - 1)
  }

  /** The twist after n steps from t0. */
  function TwistAfter(t0: real, n: nat): real {
    t0 - n as real * TwistStep
  }

  lemma {:induction false} TurnFrom(test: Float -> ShapeCheck, t0: real, n: nat, fuel: nat)
    ensures Turn(test, Num(t0), Num(TwistAfter(t0, n)), fuel).Turned? ==>
      exists j: nat :: n <= j <= n + fuel &&
        Turn(test, Num(t0), Num(TwistAfter(t0, n)), fuel).twist == Num(TwistAfter(t0, j)) &&
        test(Num(TwistAfter(t0, j))) != Oversized &&
        forall i: nat :: n <= i < j ==> test(Num(TwistAfter(t0, i))) == Oversized
    ensures (forall i: nat :: n <= i <= n + fuel ==> test(Num(TwistAfter(t0, i))) == Oversized) ==>
      Turn(test, Num(t0), Num(TwistAfter(t0, n)), fuel) == TwistOutOfFuel
    decreases fuel
  {
    var t := Num(TwistAfter(t0, n));
    var t' := Sub(t, Num(TwistStep));
    assert t' == Num(TwistAfter(t0, n + 1));
    assert !SameNumber(t', Num(t0));
    if test(t) == Oversized && fuel > 0 {
      TurnFrom(test, t0, n + 1, fuel - 1);
      var r := Turn(test, Num(t0), t', fuel - 1);
      if r.Turned? {
        var j: nat :| n + 1 <= j <= n + fuel && r.twist == Num(TwistAfter(t0, j)) &&
          test(Num(TwistAfter(t0, j))) != Oversized &&
          forall i: nat :: n + 1 <= i < j ==> test(Num(TwistAfter(t0, i))) == Oversized;
        assert forall i: nat :: n <= i < j ==> test(Num(TwistAfter(t0, i))) == Oversized;
      }
    }
  }

  /** The twist search as written, reaching step j within its fuel over
      oversized twists only, returns the twist of step j when that one is
      not oversized. */
  lemma {:induction false} TurnReaches(test: Float -> ShapeCheck, t0: real, n: nat, fuel: nat)
    ensures forall j: nat ::
      n <= j <= n + fuel && test(Num(TwistAfter(t0, j))) != Oversized &&
      (forall i: nat :: n <= i < j ==> test(Num(TwistAfter(t0, i))) == Oversized) ==>
      Turn(test, Num(t0), Num(TwistAfter(t0, n)), fuel) == Turned(Num(TwistAfter(t0, j)))
    decreases fuel
  {
    var t := Num(TwistAfter(t0, n));
    if test(t) == Oversized && fuel > 0 {
      var t' := Sub(t, Num(TwistStep));
      assert t' == Num(TwistAfter(t0, n + 1));
      assert !SameNumber(t', Num(t0));
      TurnReaches(test, t0, n + 1, fuel - 1);
      forall j: nat | n <= j <= n + fuel && test(Num(TwistAfter(t0, j))) != Oversized &&
        (forall i: nat :: n <= i < j ==> test(Num(TwistAfter(t0, i))) == Oversized)
        ensures Turn(test, Num(t0), t, fuel) == Turned(Num(TwistAfter(t0, j)))
      {
        assert n < j;
      }
    }
  }

  /** What iter_twist does from a real twist t0: a twist it returns is t0
      lowered by a whole number j of degrees, the first such twist that is
      not oversized; since a lowered twist never equals the original one,
      the full-turn guard never fires, and a section oversized at every
      twist keeps the search going for as long as the fuel lasts. */
  lemma TwistSearchContract(test: Float -> ShapeCheck, t0: real, fuel: nat)
    ensures Turn(test, Num(t0), Num(t0), fuel).Turned? ==>
      exists j: nat :: j <= fuel &&
        Turn(test, Num(t0), Num(t0), fuel).twist == Num(TwistAfter(t0, j)) &&
        test(Num(TwistAfter(t0, j))) != Oversized &&
        forall i: nat :: i < j ==> test(Num(TwistAfter(t0, i))) == Oversized
    ensures (forall i: nat :: i <= fuel ==> test(Num(TwistAfter(t0, i))) == Oversized) ==>
      Turn(test, Num(t0), Num(t0), fuel) == TwistOutOfFuel
    ensures forall j: nat ::
      j <= fuel && test(Num(TwistAfter(t0, j))) != Oversized &&
      (forall i: nat :: i < j ==> test(Num(TwistAfter(t0, i))) == Oversized) ==>
      Turn(test, Num(t0), Num(t0), fuel) == Turned(Num(TwistAfter(t0, j)))
  {
    assert Num(TwistAfter(t0, 0)) == Num(t0);
    TurnFrom(test, t0, 0, fuel);
    TurnReaches(test, t0, 0, fuel);
  }

  /** A section oversized at every twist: the search as written never
      stops on it, for any fuel, where a search that gives up after a full
      turn gives back the original twist. */
  lemma OversizedAtEveryTwist(fuel: nat)
    ensures Turn(_ => Oversized, Num(0.0), Num(0.0), fuel) == TwistOutOfFuel
    ensures Revolve(_ => Oversized, Num(0.0), Num(0.0), 0) == Num(0.0)
  {
    TwistSearchContract(_ => Oversized, 0.0, fuel);
    RevolveContract(_ => Oversized, 0.0);
  }

  /** Number of one-degree steps in a full turn. */
  const StepsPerTurn: nat := 360

  /** The loop of iter_twist with the full-turn guard doing what it is
      there for: t is the twist reached after n steps from t0, and the
      search gives t0 back once the next step would complete a full turn. */
  function Revolve(test: Float -> ShapeCheck, t0: Float, t: Float, n: nat): Float
    decreases StepsPerTurn - n
  {
    if test(t) != Oversized then t
    else if n + 1 >= StepsPerTurn then t0
    else Revolve(test, t0, Sub(t, Num(TwistStep)), n + 1)
  }

  lemma {:induction false} RevolveFrom(test: Float -> ShapeCheck, t0: real, n: nat)
    requires n < StepsPerTurn
    ensures forall j: nat ::
      n <= j < StepsPerTurn && test(Num(TwistAfter(t0, j))) != Oversized &&
      (forall i: nat :: n <= i < j ==> test(Num(TwistAfter(t0, i))) == Oversized) ==>
      Revolve(test, Num(t0), Num(TwistAfter(t0, n)), n) == Num(TwistAfter(t0, j))
    ensures (forall i: nat :: n <= i < StepsPerTurn ==> test(Num(TwistAfter(t0, i))) == Oversized) ==>
      Revolve(test, Num(t0), Num(TwistAfter(t0, n)), n) == Num(t0)
    decreases StepsPerTurn - n
  {
    var t := Num(TwistAfter(t0, n));
    if test(t) == Oversized && n + 1 < StepsPerTurn {
      assert Sub(t, Num(TwistStep)) == Num(TwistAfter(t0, n + 1));
      RevolveFrom(test, t0, n + 1);
    }
  }

  /** The corrected iter_twist from a real twist t0 always stops: it returns
      the first twist t0 lowered by a whole number j < 360 of degrees that
      is not oversized, and t0 itself when every twist of the full turn is
      oversized. */
  lemma RevolveContract(test: Float -> ShapeCheck, t0: real)
    ensures forall j: nat ::
      j < StepsPerTurn && test(Num(TwistAfter(t0, j))) != Oversized &&
      (forall i: nat :: i < j ==> test(Num(TwistAfter(t0, i))) == Oversized) ==>
      Revolve(test, Num(t0), Num(t0), 0) == Num(TwistAfter(t0, j))
    ensures (forall i: nat :: i < StepsPerTurn ==> test(Num(TwistAfter(t0, i))) == Oversized) ==>
      Revolve(test, Num(t0), Num(t0), 0) == Num(t0)
  {
    assert Num(TwistAfter(t0, 0)) == Num(t0);
    RevolveFrom(test, t0, 0);
  }

  /** The loop of iter_twist on the copy's twist, t0 being the receiver's,
      with the full-turn guard as intended. */
  method FitTwist(test: Float -> ShapeCheck, t0: Float) returns (r: Float)
    ensures r == Revolve(test, t0, t0, 0)
  {
    var t, n := t0, 0;
    var check := test(t);
    while check == Oversized
      invariant n < StepsPerTurn
      invariant check == test(t)
      invariant Revolve(test, t0, t0, 0) == Revolve(test, t0, t, n)
      decreases StepsPerTurn - n
    {
      if n + 1 >= StepsPerTurn {
        return t0;
      }
      t := Sub(t, Num(TwistStep));
      n := n + 1;
      check := test(t);
    }
    return t;
  }

  /** iter_twist of a segment, with the full-turn guard as intended. */
  function TwistSearch(k: Kernels, st: SegState, env: Envelope): Result<Float> {
    match ShapeOf(k.files, k.toFloat, st.airfoil)
    case Err(e) => Err(e)
    case Ok(o) =>
      if st.chord.None? then Err(NoChord)
      else Ok(Revolve(TwistTest(Section(k.math, o, env), st.chord.value), st.twist, st.twist, 0))
  }

  /** A NaN twist is never oversized, so iter_twist returns it unchanged. */
  lemma UndefinedTwistUnchanged(sec: Section, chord: real)
    ensures Revolve(TwistTest(sec, chord), NaN, NaN, 0) == NaN
  {
    UndefinedTwistNeverOversized(sec, chord);
  }

  // ---------------------------------------------------------------------
  // The segment object

  class Segment {
    var length: real
    var position: real
    var airfoil: Airfoil
    var tsr: Float
    var aLin: Float
    var aAng: Float
    var flow: Float
    var twist: Float
    var cA: Float
    var cM: Float
    var chord: Option<real>
    var dM: Float
    var dT: Float
    var re: Float

    function State(): SegState
      reads this
    {
      SegState(length, position, airfoil, tsr, aLin, aAng, flow, twist, cA, cM, chord, dM, dT, re)
    }

    /** Segment(length, position, airfoil) for an Airfoil argument. */
    constructor(length: real, position: real, airfoil: Airfoil)
      ensures State() == Unsolved(length, position, airfoil)
    {
      this.length, this.position, this.airfoil := length, position, airfoil;
      tsr, aLin, aAng, flow, twist, cA, cM := NaN, NaN, NaN, NaN, NaN, NaN, NaN;
      chord, dM, dT, re := None, NaN, NaN, NaN;
    }

    /** copy.deepcopy of a segment: a new object with the same attributes. */
    constructor Copy(s: Segment)
      ensures State() == s.State()
    {
      length, position, airfoil, tsr := s.length, s.position, s.airfoil, s.tsr;
      aLin, aAng, flow, twist, cA, cM := s.aLin, s.aAng, s.flow, s.twist, s.cA, s.cM;
      chord, dM, dT, re := s.chord, s.dM, s.dT, s.re;
    }

    /** Overwrites every attribute with the snapshot st. */
    method Assign(st: SegState)
      modifies this
      ensures State() == st
    {
      length := st.length;
      position := st.position;
      airfoil := st.airfoil;
      tsr := st.tsr;
      aLin := st.aLin;
      aAng := st.aAng;
      flow := st.flow;
      twist := st.twist;
      cA := st.cA;
      cM := st.cM;
      chord := st.chord;
      dM := st.dM;
      dT := st.dT;
      re := st.re;
      assert State() == SegState(st.length, st.position, st.airfoil, st.tsr, st.aLin, st.aAng, st.flow, st.twist,
                                 st.cA, st.cM, st.chord, st.dM, st.dT, st.re);
    }

    /** calc_dimensions: tsr is recorded first; a failed solve raises and
        leaves every other attribute as it was. */
    method CalcDimensions(k: Kernels, tsrG: real, blades: real, radius: real) returns (o: Outcome)
      modifies this
      ensures o == DimensionsOutcome(k, old(State()), tsrG, blades, radius)
      ensures State() == DimensionsState(k, old(State()), tsrG, blades, radius)
    {
      var st := State();
      var t := LocalTsr(st, tsrG);
      var a := SelectRoot(RootsOf(k, t));
      var r := RootSolve(k.math, st, a, tsrG, blades, radius);
      if r.Err? {
        tsr := Num(t);
        return Fail(r.error);
      }
      Assign(Solved(st, t, r.value));
      return Pass;
    }

    /** find_induction: Newton's method from 1/3, stopping at the first
        update that moves by less than 0.01, raising at the 100th. */
    method FindInduction(k: Kernels, c: real, tsrG: real, blades: real, radius: real) returns (r: Result<real>)
      ensures r == Newton(k.newtonStep, NewtonArgsOf(State(), c, tsrG, blades, radius))
    {
      var args := NewtonArgsOf(State(), c, tsrG, blades, radius);
      var diff := 1.0;
      var a := 1.0 / 3.0;
      var i := 0;
      while diff >= 0.01
        invariant 0 <= i < 100
        invariant a == Iterate(k.newtonStep, args, i)
        invariant i == 0 ==> diff == 1.0
        invariant i >= 1 ==> diff == StepSize(k.newtonStep, args, i) &&
                             Newton(k.newtonStep, args) == NewtonFrom(k.newtonStep, args, i)
        decreases 100 - i
      {
        i := i + 1;
        var aNew := k.newtonStep(args, a);
        diff := Abs(a - aNew);
        a := aNew;
        if i >= 100 {
          return Err(ConvergenceFailure(a, tsrG));
        }
      }
      return Ok(a);
    }

    /** calc_properties: the chord is stored, tsr is recorded, and any
        failure of the solve turns the derived attributes into NaN. */
    method CalcProperties(k: Kernels, c: Option<real>, tsrG: real, blades: real, radius: real, tip: bool)
      modifies this
      ensures State() == PropertiesState(k, old(State()), c, tsrG, blades, radius, tip)
    {
      var st := State();
      var t := LocalTsr(st, tsrG);
      var failed := Undefined(st, c, t);
      if c.None? {
        Assign(failed);
        return;
      }
      var a := FindInduction(k, c.value, tsrG, blades, radius);
      if a.Err? {
        Assign(failed);
        return;
      }
      var x := InflowAt(k.math, st.airfoil, a.value, t);
      if x.None? {
        Assign(failed);
        return;
      }
      var tipLoss := TipLoss(k.math, tip, blades, st.position, x.value.flow);
      Assign(Solved(st, t, LoadsOf(x.value, a.value, c.value, st.length, blades, tipLoss)));
    }

    /** iter_chord: the search runs on a copy of the chord, so the receiver
        is not changed. */
    method IterChord(k: Kernels, env: Envelope, fuel: nat) returns (r: Result<ChordFit>)
      ensures r == ChordSearch(k, State(), env, fuel)
    {
      var o := airfoil.Shape(k.files, k.toFloat);
      if o.Err? {
        return Err(o.error);
      }
      if chord.None? {
        return Err(NoChord);
      }
      var fit := FitChord(ChordTest(Section(k.math, o.value, env), twist), chord.value, fuel);
      return Ok(fit);
    }

    /** iter_twist: the search runs on a copy of the twist, so the receiver
        is not changed. */
    method IterTwist(k: Kernels, env: Envelope) returns (r: Result<Float>)
      ensures r == TwistSearch(k, State(), env)
    {
      var o := airfoil.Shape(k.files, k.toFloat);
      if o.Err? {
        return Err(o.error);
      }
      if chord.None? {
        return Err(NoChord);
      }
      var fit := FitTwist(TwistTest(Section(k.math, o.value, env), chord.value), twist);
      return Ok(fit);
    }
  }

  /** Segment(length, position, airfoil): a non-Airfoil argument raises
      TypeError; otherwise length and position are stored as given and no
      derived attribute is set yet. */
  method NewSegment(length: real, position: real, airfoil: Option<Airfoil>) returns (r: Result<Segment>)
    ensures r.Err? <==> airfoil.None?
    ensures r.Err? ==> r.error == NotAnAirfoil
    ensures r.Ok? ==> fresh(r.value) && r.value.State() == Unsolved(length, position, airfoil.value)
  {
    if airfoil.None? {
      return Err(NotAnAirfoil);
    }
    var s := new Segment(length, position, airfoil.value);
    return Ok(s);
  }
}
