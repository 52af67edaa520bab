/** The whole blade (Classes/Blade_Class.py): the uniform layout of its
    segments, the pass that refits segments outside the manufacturing
    envelope, the preparation step that drops hub segments and adds the
    cylinder and the tip, the power reduction and the per-segment table. */
module BladeModel {
  import opened Numeric
  import opened AirfoilModel
  import opened SegmentModel
  import Inputs

  // ---------------------------------------------------------------------
  // Layout (design_blade)

  /** The constructor arguments of segment i of n on a blade of radius R:
      length R/n and position dr (i + 0.5) / R, computed as the code does. */
  function SegmentLength(radius: real, n: int): real
    requires n != 0
  {
    radius / n as real
  }

  function SegmentPosition(radius: real, n: int, i: nat): real
    requires n != 0 && radius != 0.0
  {
    SegmentLength(radius, n) * (i as real + 0.5) / radius
  }

  lemma PositionOf(radius: real, n: int, i: nat)
    requires n > 0 && radius != 0.0
    ensures SegmentPosition(radius, n, i) == (i as real + 0.5) / n as real
  {
    var dr := SegmentLength(radius, n);
    var p := SegmentPosition(radius, n, i);
    var h := i as real + 0.5;
    assert dr * n as real == radius;
    assert p * radius == dr * h;
    calc {
      p * n as real * radius;
      (p * radius) * n as real;
      dr * h * n as real;
      (dr * n as real) * h;
      radius * h;
    }
    assert p * n as real == h;
  }

  /** x < y from x n < y n with n > 0. */
  lemma ScaleBack(x: real, y: real, n: real)
    requires n > 0.0 && x * n < y * n
    ensures x < y
  {
  }

  /** The layout the code computes is the uniform one: segment i sits at
      (i + 0.5)/n, so the positions strictly increase and all lie strictly
      between 0 and 1. */
  lemma UniformLayout(radius: real, n: int, i: nat, j: nat)
    requires n > 0 && radius != 0.0 && i < j < n
    ensures 0.0 < SegmentPosition(radius, n, i) < SegmentPosition(radius, n, j) < 1.0
  {
    PositionOf(radius, n, i);
    PositionOf(radius, n, j);
    var p, q := SegmentPosition(radius, n, i), SegmentPosition(radius, n, j);
    var m := n as real;
    assert p * m == i as real + 0.5;
    assert q * m == j as real + 0.5;
    ScaleBack(0.0, p, m);
    ScaleBack(p, q, m);
    assert 1.0 * m == m;
    ScaleBack(q, 1.0, m);
  }

  /** Sum of the segment lengths. */
  function TotalLength(ss: seq<SegState>): real {
    if ss == [] then 0.0 else TotalLength(ss[..|ss| - 1]) + ss[|ss| - 1].length
  }

  lemma {:induction false} UniformTotal(ss: seq<SegState>, len: real)
    requires forall i :: 0 <= i < |ss| ==> ss[i].length == len
    ensures TotalLength(ss) == |ss| as real * len
    decreases |ss|
  {
    if ss != [] {
      UniformTotal(ss[..|ss| - 1], len);
    }
  }

  /** The first m iterations of a loop that appends the segment step(i)
      builds, or stops at the first step that raises; what was appended
      before stays. */
  function Run<T>(step: nat -> Result<T>, m: nat): (r: (seq<T>, Outcome))
    ensures |r.0| <= m
  {
    if m == 0 then ([], Pass)
    else
      var prev := Run(step, m - 1);
      if prev.1.Fail? then prev
      else match step(m - 1)
        case Err(e) => (prev.0, Fail(e))
        case Ok(st) => (prev.0 + [st], Pass)
  }

  lemma {:induction false} RunStops<T>(step: nat -> Result<T>, j: nat, m: nat)
    requires j <= m && Run(step, j).1.Fail?
    ensures Run(step, m) == Run(step, j)
    decreases m
  {
    if j < m {
      RunStops(step, j, m - 1);
    }
  }

  /** A loop that completes has appended one segment per step, in order. */
  lemma {:induction false} RunPasses<T>(step: nat -> Result<T>, m: nat)
    requires Run(step, m).1.Pass?
    ensures |Run(step, m).0| == m
    ensures forall i :: 0 <= i < m ==> step(i) == Ok(Run(step, m).0[i])
    decreases m
  {
    if m > 0 {
      RunPasses(step, m - 1);
      assert Run(step, m).0[..m - 1] == Run(step, m - 1).0;
    }
  }

  /** The first m steps succeeded, giving made. */
  ghost predicate Ran<T>(step: nat -> Result<T>, made: seq<T>, m: nat) {
    |made| == m && forall j {:trigger step(j)} :: 0 <= j < m ==> step(j) == Ok(made[j])
  }

  /** The steps before |made| succeeded, giving made, and step |made|
      raised e. */
  ghost predicate Stopped<T>(step: nat -> Result<T>, made: seq<T>, e: Error) {
    forall j {:trigger step(j)} :: 0 <= j <= |made| ==> step(j) == if j < |made| then Ok(made[j]) else Err(e)
  }

  lemma Regroup<T>(a: seq<T>, b: seq<T>, x: T)
    ensures a + b + [x] == a + (b + [x])
  {
  }

  lemma RanExtends<T>(step: nat -> Result<T>, made: seq<T>, x: T)
    requires Ran(step, made, |made|) && step(|made|) == Ok(x)
    ensures Ran(step, made + [x], |made| + 1)
  {
    forall j | 0 <= j < |made| + 1 ensures step(j) == Ok((made + [x])[j]) {
      if j < |made| {
        assert step(j) == Ok(made[j]);
      }
    }
  }

  lemma RanStops<T>(step: nat -> Result<T>, made: seq<T>, e: Error)
    requires Ran(step, made, |made|) && step(|made|) == Err(e)
    ensures Stopped(step, made, e)
  {
    forall j | 0 <= j <= |made| ensures step(j) == if j < |made| then Ok(made[j]) else Err(e) {
      if j < |made| {
        assert step(j) == Ok(made[j]);
      }
    }
  }

  lemma {:induction false} RanIsRun<T>(step: nat -> Result<T>, made: seq<T>, m: nat)
    requires Ran(step, made, m)
    ensures Run(step, m) == (made, Pass)
    decreases m
  {
    if m > 0 {
      var init := made[..m - 1];
      assert Ran(step, init, m - 1) by {
        forall j | 0 <= j < m - 1 ensures step(j) == Ok(init[j]) {
          assert step(j) == Ok(made[j]);
        }
      }
      RanIsRun(step, init, m - 1);
      assert step(m - 1) == Ok(made[m - 1]);
      assert init + [made[m - 1]] == made;
    }
  }

  lemma StoppedIsRun<T>(step: nat -> Result<T>, made: seq<T>, e: Error, m: nat)
    requires Stopped(step, made, e) && |made| < m
    ensures Run(step, m) == (made, Fail(e))
  {
    var i := |made|;
    assert Ran(step, made, i) by {
      forall j | 0 <= j < i ensures step(j) == Ok(made[j]) {
        assert step(j) == if j < i then Ok(made[j]) else Err(e);
      }
    }
    RanIsRun(step, made, i);
    assert step(i) == Err(e);
    RunStops(step, i + 1, m);
  }

  /** calc_dimensions as a step that gives the new state or raises. */
  function Dimensioned(k: Kernels, tsrG: real, blades: real, radius: real): SegState -> Result<SegState> {
    (st: SegState) =>
      match DimensionsOutcome(k, st, tsrG, blades, radius)
      case Fail(e) => Err(e)
      case Pass => Ok(DimensionsState(k, st, tsrG, blades, radius))
  }

  /** A step that never moves a segment or changes its polar. */
  ghost predicate Keeps(solve: SegState -> Result<SegState>) {
    forall st :: solve(st).Ok? ==>
      solve(st).value.length == st.length && solve(st).value.position == st.position && solve(st).value.airfoil == st.airfoil
  }

  /** The step is calc_dimensions: it returns exactly when calc_dimensions
      does, with the state calc_dimensions leaves, which keeps the length,
      position and polar of the segment. */
  lemma DimensionedContract(k: Kernels, tsrG: real, blades: real, radius: real)
    ensures Keeps(Dimensioned(k, tsrG, blades, radius))
    ensures forall st :: Dimensioned(k, tsrG, blades, radius)(st).Ok? <==> DimensionsOutcome(k, st, tsrG, blades, radius).Pass?
    ensures forall st :: Dimensioned(k, tsrG, blades, radius)(st).Ok? ==>
      Dimensioned(k, tsrG, blades, radius)(st).value == DimensionsState(k, st, tsrG, blades, radius)
    ensures forall st :: Dimensioned(k, tsrG, blades, radius)(st).Err? ==>
      DimensionsOutcome(k, st, tsrG, blades, radius) == Fail(Dimensioned(k, tsrG, blades, radius)(st).error)
  {
  }

  /** One step of the design loop for segment i: the constructor's division
      by the radius, then calc_dimensions. */
  function DesignStep(solve: SegState -> Result<SegState>, af: Airfoil, radius: real, n: int, i: nat): Result<SegState>
    requires n != 0
  {
    if radius == 0.0 then Err(DivisionByZero)
    else solve(Unsolved(SegmentLength(radius, n), SegmentPosition(radius, n, i), af))
  }

  function DesignSteps(solve: SegState -> Result<SegState>, af: Airfoil, radius: real, n: int): nat -> Result<SegState>
    requires n != 0
  {
    (i: nat) => DesignStep(solve, af, radius, n, i)
  }

  /** design_blade: the segments it appends and whether it raises. */
  function DesignRun(solve: SegState -> Result<SegState>, af: Option<Airfoil>, radius: real, n: int): (seq<SegState>, Outcome) {
    if af.None? then ([], Fail(NotAnAirfoil))
    else if n == 0 then ([], Fail(DivisionByZero))
    else Run(DesignSteps(solve, af.value, radius, n), if n < 0 then 0 else n)
  }

  /** Segment i as design_blade builds it. */
  lemma DesignedSegment(solve: SegState -> Result<SegState>, af: Airfoil, radius: real, n: int, i: nat, s: SegState)
    requires Keeps(solve) && n > 0 && DesignStep(solve, af, radius, n, i) == Ok(s)
    ensures radius != 0.0 && s.length == radius / n as real && s.position == (i as real + 0.5) / n as real
    ensures s.airfoil == af && solve(Unsolved(s.length, s.position, af)) == Ok(s)
  {
    var st := Unsolved(SegmentLength(radius, n), SegmentPosition(radius, n, i), af);
    assert solve(st) == Ok(s);
    PositionOf(radius, n, i);
  }

  /** A design loop that ran to the end made n segments: segment i with
      length R/n at position (i + 0.5)/n, in the state the solve gives it;
      their lengths add up to R. */
  lemma DesignPasses(solve: SegState -> Result<SegState>, af: Airfoil, radius: real, n: nat)
    requires Keeps(solve) && n > 0 && Run(DesignSteps(solve, af, radius, n), n).1.Pass?
    ensures var ss := Run(DesignSteps(solve, af, radius, n), n).0;
      |ss| == n && radius != 0.0 && TotalLength(ss) == radius &&
      forall i :: 0 <= i < n ==>
        ss[i].length == radius / n as real && ss[i].position == (i as real + 0.5) / n as real &&
        ss[i].airfoil == af && solve(Unsolved(ss[i].length, ss[i].position, af)) == Ok(ss[i])
  {
    var step := DesignSteps(solve, af, radius, n);
    var ss := Run(step, n).0;
    RunPasses(step, n);
    forall i | 0 <= i < n
      ensures ss[i].length == radius / n as real && ss[i].position == (i as real + 0.5) / n as real &&
        ss[i].airfoil == af && solve(Unsolved(ss[i].length, ss[i].position, af)) == Ok(ss[i])
    {
      DesignedSegment(solve, af, radius, n, i, ss[i]);
    }
    DesignedTotal(ss, radius, n);
  }

  /** n segments of length R/n add up to R. */
  lemma DesignedTotal(ss: seq<SegState>, radius: real, n: nat)
    requires n > 0 && |ss| == n && forall i :: 0 <= i < n ==> ss[i].length == radius / n as real
    ensures TotalLength(ss) == radius
  {
    UniformTotal(ss, radius / n as real);
    assert n as real * (radius / n as real) == radius;
  }

  /** What design_blade promises: it raises TypeError, appending nothing,
      without an Airfoil, and ZeroDivisionError without segments; when it
      returns, it has appended exactly n segments, segment i with length R/n
      at position (i + 0.5)/n in the state calc_dimensions gives it, and the
      appended lengths sum to R. */
  lemma DesignContract(solve: SegState -> Result<SegState>, af: Option<Airfoil>, radius: real, n: int)
    requires Keeps(solve)
    ensures af.None? ==> DesignRun(solve, af, radius, n) == ([], Fail(NotAnAirfoil))
    ensures af.Some? && n == 0 ==> DesignRun(solve, af, radius, n) == ([], Fail(DivisionByZero))
    ensures DesignRun(solve, af, radius, n).1.Pass? && n > 0 ==> (
      var ss := DesignRun(solve, af, radius, n).0;
      |ss| == n && radius != 0.0 && TotalLength(ss) == radius &&
      forall i :: 0 <= i < n ==>
        ss[i].length == radius / n as real && ss[i].position == (i as real + 0.5) / n as real &&
        ss[i].airfoil == af.value && solve(Unsolved(ss[i].length, ss[i].position, af.value)) == Ok(ss[i]))
  {
    if af.Some? && n > 0 && DesignRun(solve, af, radius, n).1.Pass? {
      DesignPasses(solve, af.value, radius, n);
    }
  }

  // ---------------------------------------------------------------------
  // Refitting (fix_blade)

  /** What fix_blade hands to calc_properties: the chord iter_chord found,
      or None when it fell through. */
  function FoundChord(fit: ChordFit): Option<real> {
    if fit.Found? then Some(fit.chord) else None
  }

  /** calc_properties of a segment with the chord iter_chord found for it
      (None when the search fell through). */
  function Refit(k: Kernels, st: SegState, env: Envelope, tsr: real, blades: real, radius: real,
                 tip: bool, fuel: nat): SegState
    requires ChordSearch(k, st, env, fuel).Ok?
  {
    PropertiesState(k, st, FoundChord(ChordSearch(k, st, env, fuel).value), tsr, blades, radius, tip)
  }

  /** One iteration of fix_blade's loop on a segment in state st: a segment
      that fits is left alone; otherwise iter_chord runs, then the blade's
      tsr is looked up, then calc_properties. Length, position and polar
      never change. */
  function FixOne(k: Kernels, st: SegState, env: Envelope, tsr: Option<real>, blades: real, radius: real,
                  tip: bool, fuel: nat): (r: Result<SegState>)
    ensures ShapeCheckOf(k, st, env) == Ok(Fits) ==> r == Ok(st)
    ensures ShapeCheckOf(k, st, env).Err? ==> r == Err(ShapeCheckOf(k, st, env).error)
    ensures ShapeCheckOf(k, st, env).Ok? && ShapeCheckOf(k, st, env).value != Fits ==>
      (ChordSearch(k, st, env, fuel).Err? ==> r == Err(ChordSearch(k, st, env, fuel).error)) &&
      (ChordSearch(k, st, env, fuel) == Ok(OutOfFuel) ==> r == Err(FitNotTerminated)) &&
      (ChordSearch(k, st, env, fuel).Ok? && !ChordSearch(k, st, env, fuel).value.OutOfFuel? ==>
        (tsr.None? ==> r == Err(TsrUnset)) &&
        (tsr.Some? ==> r == Ok(Refit(k, st, env, tsr.value, blades, radius, tip, fuel))))
    ensures r.Ok? ==> r.value.length == st.length && r.value.position == st.position && r.value.airfoil == st.airfoil
    ensures r.Ok? && r.value != st ==>
      ShapeCheckOf(k, st, env).Ok? && ShapeCheckOf(k, st, env).value != Fits &&
      tsr.Some? && ChordSearch(k, st, env, fuel).Ok? && !ChordSearch(k, st, env, fuel).value.OutOfFuel? &&
      r.value == Refit(k, st, env, tsr.value, blades, radius, tip, fuel)
  {
    match ShapeCheckOf(k, st, env)
    case Err(e) => Err(e)
    case Ok(check) =>
      if check == Fits then Ok(st)
      else match ChordSearch(k, st, env, fuel)
        case Err(e) => Err(e)
        case Ok(fit) =>
          if fit.OutOfFuel? then Err(FitNotTerminated)
          else if tsr.None? then Err(TsrUnset)
          else Ok(PropertiesState(k, st, FoundChord(fit), tsr.value, blades, radius, tip))
  }

  function Fixer(k: Kernels, env: Envelope, tsr: Option<real>, blades: real, radius: real, tip: bool, fuel: nat):
    SegState -> Result<SegState>
  {
    st => FixOne(k, st, env, tsr, blades, radius, tip, fuel)
  }

  /** A pass over the segment states in order that replaces each by fix's
      result; the first failure stops it, leaving the segments from there on
      as they were. */
  function FixAll<T>(fix: T -> Result<T>, ss: seq<T>): (r: (seq<T>, Outcome))
    ensures |r.0| == |ss|
    decreases |ss|
  {
    if ss == [] then ([], Pass)
    else
      var prev := FixAll(fix, ss[..|ss| - 1]);
      var last := ss[|ss| - 1];
      if prev.1.Fail? then (prev.0 + [last], prev.1)
      else match fix(last)
        case Err(e) => (prev.0 + [last], Fail(e))
        case Ok(st) => (prev.0 + [st], Pass)
  }

  /** A completed pass replaced every segment by fix's result; a failed one
      applied fix up to the segment that raised and kept the rest. */
  lemma {:induction false} FixAllContract<T>(fix: T -> Result<T>, ss: seq<T>)
    ensures var r := FixAll(fix, ss);
      forall i :: 0 <= i < |ss| ==> r.0[i] == ss[i] || fix(ss[i]) == Ok(r.0[i])
    ensures var r := FixAll(fix, ss);
      r.1.Pass? ==> forall i :: 0 <= i < |ss| ==> fix(ss[i]) == Ok(r.0[i])
    ensures var r := FixAll(fix, ss);
      r.1.Fail? ==> exists j :: (0 <= j < |ss| && fix(ss[j]) == Err(r.1.error) &&
        (forall i :: 0 <= i < j ==> fix(ss[i]) == Ok(r.0[i])) &&
        (forall i :: j <= i < |ss| ==> r.0[i] == ss[i]))
    decreases |ss|
  {
    if ss != [] {
      var init := ss[..|ss| - 1];
      FixAllContract(fix, init);
      var prev := FixAll(fix, init);
      var r := FixAll(fix, ss);
      assert r.0[..|init|] == prev.0;
      assert forall i :: 0 <= i < |init| ==> r.0[i] == prev.0[i] && ss[i] == init[i];
      if prev.1.Pass? && r.1.Fail? {
        assert fix(ss[|init|]) == Err(r.1.error);
      }
    }
  }

  /** When fix leaves every segment as it is, the pass changes nothing. */
  lemma {:induction false} FixAllIdle<T>(fix: T -> Result<T>, ss: seq<T>)
    requires forall i :: 0 <= i < |ss| ==> fix(ss[i]) == Ok(ss[i])
    ensures FixAll(fix, ss) == (ss, Pass)
    decreases |ss|
  {
    if ss != [] {
      var init := ss[..|ss| - 1];
      FixAllIdle(fix, init);
      assert init + [ss[|ss| - 1]] == ss;
    }
  }

  /** A failure stops the pass: later segments are kept as they are. */
  lemma {:induction false} FixAllStops<T>(fix: T -> Result<T>, ss: seq<T>, j: nat)
    requires j <= |ss| && FixAll(fix, ss[..j]).1.Fail?
    ensures FixAll(fix, ss) == (FixAll(fix, ss[..j]).0 + ss[j..], FixAll(fix, ss[..j]).1)
    decreases |ss|
  {
    if j == |ss| {
      assert ss[..j] == ss;
      assert ss[j..] == [];
      assert FixAll(fix, ss[..j]).0 + ss[j..] == FixAll(fix, ss[..j]).0;
    } else {
      var init := ss[..|ss| - 1];
      assert init[..j] == ss[..j];
      FixAllStops(fix, init, j);
      assert init[j..] + [ss[|ss| - 1]] == ss[j..];
      assert FixAll(fix, ss[..j]).0 + init[j..] + [ss[|ss| - 1]] == FixAll(fix, ss[..j]).0 + ss[j..];
    }
  }

  /** What fix_blade promises: count, order, lengths, positions and polars
      are kept; a segment that fits is never touched; a blade whose every
      segment fits comes back unchanged; every segment that was changed is
      calc_properties' result for the chord iter_chord returned. */
  lemma FixBladeContract(k: Kernels, ss: seq<SegState>, env: Envelope, tsr: Option<real>,
                         blades: real, radius: real, tip: bool, fuel: nat)
    ensures var r := FixAll(Fixer(k, env, tsr, blades, radius, tip, fuel), ss);
      |r.0| == |ss| &&
      forall i :: 0 <= i < |ss| ==>
        r.0[i].length == ss[i].length && r.0[i].position == ss[i].position && r.0[i].airfoil == ss[i].airfoil &&
        (ShapeCheckOf(k, ss[i], env) == Ok(Fits) ==> r.0[i] == ss[i]) &&
        (r.0[i] != ss[i] ==> (tsr.Some? && ChordSearch(k, ss[i], env, fuel).Ok? &&
           r.0[i] == Refit(k, ss[i], env, tsr.value, blades, radius, tip, fuel)))
    ensures var r := FixAll(Fixer(k, env, tsr, blades, radius, tip, fuel), ss);
      r.1.Pass? ==> forall i :: 0 <= i < |ss| && ShapeCheckOf(k, ss[i], env) != Ok(Fits) ==>
        ShapeCheckOf(k, ss[i], env).Ok? && tsr.Some? && ChordSearch(k, ss[i], env, fuel).Ok? &&
        !ChordSearch(k, ss[i], env, fuel).value.OutOfFuel? &&
        r.0[i] == Refit(k, ss[i], env, tsr.value, blades, radius, tip, fuel)
    ensures var r := FixAll(Fixer(k, env, tsr, blades, radius, tip, fuel), ss);
      r.1.Fail? ==> exists j :: (0 <= j < |ss| &&
        FixOne(k, ss[j], env, tsr, blades, radius, tip, fuel) == Err(r.1.error) &&
        (forall i :: 0 <= i < j ==> FixOne(k, ss[i], env, tsr, blades, radius, tip, fuel) == Ok(r.0[i])) &&
        (forall i :: j <= i < |ss| ==> r.0[i] == ss[i]))
    ensures (forall i :: 0 <= i < |ss| ==> ShapeCheckOf(k, ss[i], env) == Ok(Fits)) ==>
      FixAll(Fixer(k, env, tsr, blades, radius, tip, fuel), ss) == (ss, Pass)
  {
    var fix := Fixer(k, env, tsr, blades, radius, tip, fuel);
    FixAllContract(fix, ss);
    var r := FixAll(fix, ss);
    assert forall st :: fix(st) == FixOne(k, st, env, tsr, blades, radius, tip, fuel);
    forall i | 0 <= i < |ss|
      ensures r.0[i].length == ss[i].length && r.0[i].position == ss[i].position && r.0[i].airfoil == ss[i].airfoil &&
        (ShapeCheckOf(k, ss[i], env) == Ok(Fits) ==> r.0[i] == ss[i])
    {
      assert fix(ss[i]) == FixOne(k, ss[i], env, tsr, blades, radius, tip, fuel);
    }
    if forall i :: 0 <= i < |ss| ==> ShapeCheckOf(k, ss[i], env) == Ok(Fits) {
      forall i | 0 <= i < |ss| ensures fix(ss[i]) == Ok(ss[i]) {
        assert fix(ss[i]) == FixOne(k, ss[i], env, tsr, blades, radius, tip, fuel);
      }
      FixAllIdle(fix, ss);
    }
  }

  // ---------------------------------------------------------------------
  // Hub removal (the first loop of prepare_blade)

  /** The radius r of a segment, r/R times R. */
  function Lever(st: SegState, radius: real): real {
    st.position * radius
  }

  /** position * radius <= 0.03 for every segment: the removal test. */
  function HubMask(ss: seq<SegState>, radius: real): (hub: seq<bool>)
    ensures |hub| == |ss| && forall i :: 0 <= i < |ss| ==> (hub[i] <==> Lever(ss[i], radius) <= 0.03)
  {
    seq(|ss|, i requires 0 <= i < |ss| => Lever(ss[i], radius) <= 0.03)
  }

  /** The indices, from p on, of the segments that survive removing while
      iterating: a removed segment's successor moves into the slot the
      iterator has just passed, so it survives without being examined. */
  function KeptFrom(hub: seq<bool>, p: nat): (ks: seq<nat>)
    requires p <= |hub|
    ensures forall j :: 0 <= j < |ks| ==> p <= ks[j] < |hub|
    ensures forall j, j' :: 0 <= j < j' < |ks| ==> ks[j] < ks[j']
    decreases |hub| - p
  {
    if p == |hub| then []
    else if !hub[p] then [p] + KeptFrom(hub, p + 1)
    else if p + 1 == |hub| then []
    else [p + 1] + KeptFrom(hub, p + 2)
  }

  /** One step of the survivor list: the unfolding KeptFrom makes at p. */
  lemma KeptFromStep(done: seq<nat>, hub: seq<bool>, p: nat)
    requires p < |hub|
    ensures !hub[p] ==> done + KeptFrom(hub, p) == (done + [p]) + KeptFrom(hub, p + 1)
    ensures hub[p] && p + 1 < |hub| ==> done + KeptFrom(hub, p) == (done + [p + 1]) + KeptFrom(hub, p + 2)
    ensures hub[p] && p + 1 == |hub| ==> done + KeptFrom(hub, p) == done + KeptFrom(hub, |hub|)
  {
  }

  function Kept(hub: seq<bool>): seq<nat> {
    KeptFrom(hub, 0)
  }

  /** The elements of xs at the indices idx, in that order. */
  function Pick<T>(xs: seq<T>, idx: seq<nat>): (r: seq<T>)
    requires forall j :: 0 <= j < |idx| ==> idx[j] < |xs|
    ensures |r| == |idx| && forall j :: 0 <= j < |idx| ==> r[j] == xs[idx[j]]
  {
    seq(|idx|, j requires 0 <= j < |idx| => xs[idx[j]])
  }

  /** A segment that stays: it moves from the unexamined rest to the
      survivors. */
  lemma KeepStep<T>(xs: seq<T>, idx: seq<nat>, p: nat)
    requires p < |xs| && forall j :: 0 <= j < |idx| ==> idx[j] < p
    ensures Pick(xs, idx) + xs[p..] == Pick(xs, idx + [p]) + xs[p + 1..]
  {
    assert xs[p..] == [xs[p]] + xs[p + 1..];
    assert Pick(xs, idx + [p]) == Pick(xs, idx) + [xs[p]];
  }

  /** A segment that is removed while iterating: its successor slides into
      its slot and survives unexamined. */
  lemma SkipStep<T>(xs: seq<T>, idx: seq<nat>, p: nat)
    requires p + 1 < |xs| && forall j :: 0 <= j < |idx| ==> idx[j] < p
    ensures var cur := Pick(xs, idx) + xs[p..];
      cur[..|idx|] + cur[|idx| + 1..] == Pick(xs, idx + [p + 1]) + xs[p + 2..]
  {
    var cur := Pick(xs, idx) + xs[p..];
    assert cur[..|idx|] == Pick(xs, idx);
    assert cur[|idx| + 1..] == xs[p + 1..];
    assert xs[p + 1..] == [xs[p + 1]] + xs[p + 2..];
    assert Pick(xs, idx + [p + 1]) == Pick(xs, idx) + [xs[p + 1]];
  }

  /** Removing the last segment. */
  lemma SkipLast<T>(xs: seq<T>, idx: seq<nat>, p: nat)
    requires p + 1 == |xs| && forall j :: 0 <= j < |idx| ==> idx[j] < p
    ensures var cur := Pick(xs, idx) + xs[p..];
      cur[..|idx|] + cur[|idx| + 1..] == Pick(xs, idx) + xs[|xs|..]
  {
    var cur := Pick(xs, idx) + xs[p..];
    assert cur[..|idx|] == Pick(xs, idx);
    assert cur[|idx| + 1..] == [];
  }

  /** Which segments survive from p on: every segment failing the test
      survives, so only segments within 0.03 of the hub are removed; the
      segment right after a removed one survives unexamined; and a hub
      segment the iterator examines (the first, or one after a survivor) is
      removed. */
  lemma {:induction false} KeptFromContract(hub: seq<bool>, p: nat)
    requires p <= |hub|
    ensures forall i :: p <= i < |hub| && !hub[i] ==> i in KeptFrom(hub, p)
    ensures forall i :: p <= i < |hub| - 1 && i !in KeptFrom(hub, p) ==> i + 1 in KeptFrom(hub, p)
    ensures forall i :: p <= i < |hub| && hub[i] && (i == p || i - 1 in KeptFrom(hub, p)) ==> i !in KeptFrom(hub, p)
    decreases |hub| - p
  {
    if p < |hub| {
      var ks := KeptFrom(hub, p);
      if !hub[p] {
        var rest := KeptFrom(hub, p + 1);
        KeptFromContract(hub, p + 1);
        assert ks == [p] + rest;
        forall i | p < i < |hub| && !hub[i]
          ensures i in ks
        {
          assert i in rest;
        }
        forall i | p <= i < |hub| - 1 && i !in ks
          ensures i + 1 in ks
        {
          assert p < i && i !in rest;
        }
        forall i | p <= i < |hub| && hub[i] && (i == p || i - 1 in ks)
          ensures i !in ks
        {
          assert p < i && (i == p + 1 || i - 1 in rest);
          assert i !in rest;
        }
      } else if p + 1 < |hub| {
        var rest := KeptFrom(hub, p + 2);
        KeptFromContract(hub, p + 2);
        assert ks == [p + 1] + rest;
        forall i | p + 1 < i < |hub| && !hub[i]
          ensures i in ks
        {
          assert i in rest;
        }
        forall i | p + 1 < i < |hub| - 1 && i !in ks
          ensures i + 1 in ks
        {
          assert i !in rest;
        }
        assert p !in ks;
        forall i | p < i < |hub| && hub[i] && i - 1 in ks
          ensures i !in ks
        {
          assert p + 2 <= i && (i == p + 2 || i - 1 in rest);
          assert i !in rest;
        }
      }
    }
  }

  /** Which segments survive the sweep, exactly: a segment survives iff it
      is not a hub segment, or the segment before it was removed (so the
      iterator skipped it); survivors keep their order. */
  lemma KeptContract(hub: seq<bool>)
    ensures forall i :: 0 <= i < |hub| ==>
      (i in Kept(hub) <==> !hub[i] || (0 < i && i - 1 !in Kept(hub)))
    ensures forall j, j' :: 0 <= j < j' < |Kept(hub)| ==> Kept(hub)[j] < Kept(hub)[j']
  {
    var ks := Kept(hub);
    KeptFromContract(hub, 0);
    forall i | 0 <= i < |hub|
      ensures i in ks <==> !hub[i] || (0 < i && i - 1 !in ks)
    {
      if 0 < i && i - 1 !in ks {
        assert i - 1 < |hub| - 1;
        assert i in ks;
      }
      if hub[i] && (i == 0 || i - 1 in ks) {
        assert i !in ks;
      }
    }
  }

  /** Two hub segments in a row: the second one escapes removal. */
  lemma ConsecutiveHubSegments()
    ensures Kept([true, true, false]) == [1, 2]
  {
    assert KeptFrom([true, true, false], 2) == [2] + KeptFrom([true, true, false], 3);
  }

  // ---------------------------------------------------------------------
  // Cylinder and tip (the rest of prepare_blade)

  /** R (1 - r/R): the rest of the blade beyond the segment st. */
  function TipLength(st: SegState, radius: real): real {
    radius * (1.0 - st.position)
  }

  /** The tip segment: a copy of the last segment at position 1, stretched
      to the remaining length, with dM and dT scaled by the length ratio. */
  function TipOf(last: SegState, radius: real): SegState
    requires last.length != 0.0
  {
    var len := TipLength(last, radius);
    last.(position := 1.0, length := len, dM := Scale(len / last.length, last.dM), dT := Scale(len / last.length, last.dT))
  }

  /** The cylinder after calc_dimensions, with its chord overwritten. */
  function CylinderRun(solve: SegState -> Result<SegState>, circ: Airfoil, radius: real, lCirc: real): (r: Result<SegState>)
    requires radius != 0.0 && Keeps(solve)
    ensures r.Ok? ==> (r.value.length == 0.03 && r.value.position == 0.03 / radius &&
      r.value.chord == Some(lCirc) && r.value.airfoil == circ)
  {
    match solve(Unsolved(0.03, 0.03 / radius, circ))
    case Err(e) => Err(e)
    case Ok(st) => Ok(st.(chord := Some(lCirc)))
  }

  /** The tip appended after the last segment of body; a last segment of
      length zero raises before anything is appended. */
  function WithTip(body: seq<SegState>, radius: real): (seq<SegState>, Outcome)
    requires body != []
  {
    var last := body[|body| - 1];
    if last.length == 0.0 then (body, Fail(DivisionByZero))
    else (body + [TipOf(last, radius)], Pass)
  }

  /** The cylinder in front of the swept segments, then the tip. */
  function Assemble(swept: seq<SegState>, cyl: Result<SegState>, radius: real): (seq<SegState>, Outcome) {
    match cyl
    case Err(e) => (swept, Fail(e))
    case Ok(c) => WithTip([c] + swept, radius)
  }

  /** prepare_blade over the segment states: the sweep, the cylinder at
      the front, the tip at the back; a failure leaves what was done. */
  function PrepareRun(solve: SegState -> Result<SegState>, ss: seq<SegState>, circ: Airfoil, radius: real,
                      lCirc: real): (seq<SegState>, Outcome)
    requires Keeps(solve)
  {
    var swept := Pick(ss, Kept(HubMask(ss, radius)));
    if radius == 0.0 then (swept, Fail(DivisionByZero))
    else Assemble(swept, CylinderRun(solve, circ, radius, lCirc), radius)
  }

  /** prepare_blade after the sweep left swept: the cylinder and the tip
      are assembled around it. */
  lemma PrepareRunSplits(solve: SegState -> Result<SegState>, ss: seq<SegState>, swept: seq<SegState>, circ: Airfoil,
                         radius: real, lCirc: real)
    requires Keeps(solve) && swept == Pick(ss, Kept(HubMask(ss, radius)))
    ensures radius == 0.0 ==> PrepareRun(solve, ss, circ, radius, lCirc) == (swept, Fail(DivisionByZero))
    ensures radius != 0.0 ==>
      PrepareRun(solve, ss, circ, radius, lCirc) == Assemble(swept, CylinderRun(solve, circ, radius, lCirc), radius)
  {
  }

  /** The tip goes behind the body, which is otherwise kept. */
  lemma WithTipContract(body: seq<SegState>, radius: real)
    requires body != []
    ensures WithTip(body, radius).1.Pass? ==>
      |WithTip(body, radius).0| == |body| + 1 && WithTip(body, radius).0[..|body|] == body &&
      body[|body| - 1].length != 0.0 && WithTip(body, radius).0[|body|] == TipOf(body[|body| - 1], radius)
    ensures WithTip(body, radius).1.Fail? ==> WithTip(body, radius).0 == body
  {
    if body[|body| - 1].length != 0.0 {
      assert (body + [TipOf(body[|body| - 1], radius)])[..|body|] == body;
    }
  }

  /** The tip copies the segment before it except for position 1, length
      R (1 - r/R of that segment), and dM and dT scaled by the ratio of the
      lengths. */
  lemma TipContract(last: SegState, radius: real)
    requires last.length != 0.0
    ensures var t := TipOf(last, radius);
      t.position == 1.0 && t.length == radius * (1.0 - last.position) &&
      t == last.(position := t.position, length := t.length, dM := t.dM, dT := t.dT) &&
      (t.dM.Num? <==> last.dM.Num?) && (t.dM.Num? ==> t.dM.val * last.length == t.length * last.dM.val) &&
      (t.dT.Num? <==> last.dT.Num?) && (t.dT.Num? ==> t.dT.val * last.length == t.length * last.dT.val)
  {
    var len := TipLength(last, radius);
    assert (len / last.length) * last.length == len;
  }

  /** What prepare_blade promises of the blade r it leaves, given the
      survivors swept of the sweep: on success the cylinder (length 0.03,
      position 0.03/R, chord L_circ), then swept in its order, then the tip
      made from the segment before it; on failure swept is still the tail. */
  ghost predicate Prepared(r: (seq<SegState>, Outcome), swept: seq<SegState>, circ: Airfoil, radius: real, lCirc: real) {
    (r.1.Pass? ==> (
      |r.0| == |swept| + 2 && r.0[1..|r.0| - 1] == swept &&
      r.0[0].length == 0.03 && r.0[0].position * radius == 0.03 && r.0[0].chord == Some(lCirc) &&
      r.0[0].airfoil == circ &&
      r.0[|r.0| - 2].length != 0.0 && r.0[|r.0| - 1] == TipOf(r.0[|r.0| - 2], radius))) &&
    (r.1.Fail? ==> |swept| <= |r.0| && r.0[|r.0| - |swept|..] == swept)
  }

  lemma PrepareContract(solve: SegState -> Result<SegState>, ss: seq<SegState>, circ: Airfoil, radius: real, lCirc: real)
    requires Keeps(solve)
    ensures Prepared(PrepareRun(solve, ss, circ, radius, lCirc), Pick(ss, Kept(HubMask(ss, radius))), circ, radius, lCirc)
  {
    var swept := Pick(ss, Kept(HubMask(ss, radius)));
    PrepareRunSplits(solve, ss, swept, circ, radius, lCirc);
    if radius == 0.0 {
      assert swept[0..] == swept;
    } else {
      PreparedAround(solve, swept, circ, radius, lCirc);
    }
  }

  /** The same around any swept sequence, without the sweep in view. */
  lemma PreparedAround(solve: SegState -> Result<SegState>, swept: seq<SegState>, circ: Airfoil, radius: real, lCirc: real)
    requires Keeps(solve) && radius != 0.0
    ensures Prepared(Assemble(swept, CylinderRun(solve, circ, radius, lCirc), radius), swept, circ, radius, lCirc)
  {
    var cyl := CylinderRun(solve, circ, radius, lCirc);
    if cyl.Ok? {
      AssembleAround(swept, cyl.value, radius);
      assert (0.03 / radius) * radius == 0.03;
      var r := Assemble(swept, cyl, radius);
      if r.1.Fail? {
        assert r.0[1..] == swept;
      }
    } else {
      assert swept[0..] == swept;
    }
  }

  /** With a cylinder c: c, then swept, then the tip when it can be made. */
  lemma AssembleAround(swept: seq<SegState>, c: SegState, radius: real)
    ensures var r := Assemble(swept, Ok(c), radius);
      r.1.Pass? ==> (|r.0| == |swept| + 2 && r.0[0] == c && r.0[1..|r.0| - 1] == swept &&
        r.0[|r.0| - 2].length != 0.0 && r.0[|r.0| - 1] == TipOf(r.0[|r.0| - 2], radius))
    ensures var r := Assemble(swept, Ok(c), radius);
      r.1.Fail? ==> r.0 == [c] + swept
  {
    var body := [c] + swept;
    WithTipContract(body, radius);
    assert body[1..] == swept;
  }

  // ---------------------------------------------------------------------
  // Power (calc_power)

  datatype PowerReport = PowerReport(pAvail: real, pGen: Float, cp: Float, ct: Float)

  /** f applied to every segment, in order: the arrays calc_power sums. */
  function Terms<T>(f: T -> Float, ss: seq<T>): (ts: seq<Float>)
    ensures |ts| == |ss| && forall i :: 0 <= i < |ss| ==> ts[i] == f(ss[i])
  {
    seq(|ss|, i requires 0 <= i < |ss| => f(ss[i]))
  }

  /** dM * r of a segment, a term of np.dot(dM_list, pos_list). */
  function MomentOf(radius: real): SegState -> Float {
    (st: SegState) => Mul(st.dM, Num(Lever(st, radius)))
  }

  function Thrust(st: SegState): Float {
    st.dT
  }

  /** Taking segment j out and adding its term back last. */
  lemma TermsRemove<T>(f: T -> Float, ys: seq<T>, j: nat)
    requires j < |ys|
    ensures Sum(Terms(f, ys)) == Add(Sum(Terms(f, ys[..j] + ys[j + 1..])), f(ys[j]))
  {
    var ts := Terms(f, ys);
    SumRemove(ts, j);
    assert ts[..j] + ts[j + 1..] == Terms(f, ys[..j] + ys[j + 1..]);
  }

  lemma TermsLast<T>(f: T -> Float, xs: seq<T>)
    requires xs != []
    ensures Sum(Terms(f, xs)) == Add(Sum(Terms(f, xs[..|xs| - 1])), f(xs[|xs| - 1]))
  {
    assert Terms(f, xs)[..|xs| - 1] == Terms(f, xs[..|xs| - 1]);
  }

  /** Reordering the segments does not change the sum of any of their terms. */
  lemma {:induction false} TermsPermutation<T>(f: T -> Float, xs: seq<T>, ys: seq<T>)
    requires multiset(xs) == multiset(ys)
    ensures Sum(Terms(f, xs)) == Sum(Terms(f, ys))
    decreases |xs|
  {
    if xs != [] {
      var last := xs[|xs| - 1];
      var init := xs[..|xs| - 1];
      assert xs == init + [last];
      assert last in multiset(ys);
      var j :| 0 <= j < |ys| && ys[j] == last;
      var rest := ys[..j] + ys[j + 1..];
      assert ys == ys[..j] + [last] + ys[j + 1..];
      calc {
        multiset(init);
        multiset(xs) - multiset{last};
        multiset(ys) - multiset{last};
        multiset(rest);
      }
      TermsPermutation(f, init, rest);
      TermsRemove(f, ys, j);
      TermsLast(f, xs);
    }
  }

  lemma NonZeroProduct(x: real, y: real)
    requires x != 0.0 && y != 0.0
    ensures x * y != 0.0
  {
  }

  /** x / d for a double x and a non-zero divisor. */
  function Ratio(x: Float, d: real): (r: Float)
    requires d != 0.0
    ensures r.Num? <==> x.Num?
    ensures r.Num? ==> r.val * d == x.val
  {
    if x.Num? then Num(Quotient(x.val, d)) else NaN
  }

  /** 0.5 rho V^2 pi R^2, the divisor of the thrust coefficient. */
  function DynamicLoad(density: real, windSpeed: real, radius: real): real {
    0.5 * density * windSpeed * windSpeed * Pi * radius * radius
  }

  /** 0.5 rho V^3 pi R^2, the power in the wind through the rotor disc. */
  function AvailablePower(density: real, windSpeed: real, radius: real): real {
    0.5 * density * windSpeed * windSpeed * windSpeed * Pi * radius * radius
  }

  /** The available power is the dynamic load times the wind speed, and
      both vanish exactly when the density, the wind speed or the radius
      does. */
  lemma PowerIsLoadTimesSpeed(density: real, windSpeed: real, radius: real)
    ensures AvailablePower(density, windSpeed, radius) == DynamicLoad(density, windSpeed, radius) * windSpeed
    ensures DynamicLoad(density, windSpeed, radius) == 0.0 <==> (density == 0.0 || windSpeed == 0.0 || radius == 0.0)
    ensures AvailablePower(density, windSpeed, radius) == 0.0 <==> (density == 0.0 || windSpeed == 0.0 || radius == 0.0)
  {
    if density != 0.0 && windSpeed != 0.0 && radius != 0.0 {
      NonZeroProduct(0.5, density);
      NonZeroProduct(0.5 * density, windSpeed);
      NonZeroProduct(0.5 * density * windSpeed, windSpeed);
      NonZeroProduct(0.5 * density * windSpeed * windSpeed, Pi);
      NonZeroProduct(0.5 * density * windSpeed * windSpeed * Pi, radius);
      NonZeroProduct(0.5 * density * windSpeed * windSpeed * Pi * radius, radius);
      NonZeroProduct(DynamicLoad(density, windSpeed, radius), windSpeed);
    }
  }

  /** calc_power: an unset tsr and a zero radius raise before anything is
      divided by the results; the coefficients divide by the available
      power and by the dynamic load. */
  function PowerOf(ss: seq<SegState>, tsr: Option<real>, radius: real, windSpeed: real, density: real): Result<PowerReport> {
    if tsr.None? then Err(TsrUnset)
    else if radius == 0.0 then Err(DivisionByZero)
    else
      var omega := tsr.value * windSpeed / radius;
      var thrust := Sum(Terms(Thrust, ss));
      var pGen := Scale(omega, Sum(Terms(MomentOf(radius), ss)));
      var pAvail := AvailablePower(density, windSpeed, radius);
      var load := DynamicLoad(density, windSpeed, radius);
      if pAvail == 0.0 || load == 0.0 then Err(DivisionByZero)
      else Ok(PowerReport(pAvail, pGen, Ratio(pGen, pAvail), Ratio(thrust, load)))
  }

  /** calc_power does not depend on the order of the segments. */
  lemma PowerReorder(ss: seq<SegState>, perm: seq<SegState>, tsr: Option<real>, radius: real, windSpeed: real, density: real)
    requires multiset(ss) == multiset(perm)
    ensures PowerOf(ss, tsr, radius, windSpeed, density) == PowerOf(perm, tsr, radius, windSpeed, density)
  {
    TermsPermutation(MomentOf(radius), ss, perm);
    TermsPermutation(Thrust, ss, perm);
  }

  /** The coefficients of a report: C_p P_avail = P_gen and C_t times the
      dynamic load is the thrust, each a number exactly when what it
      divides is. */
  ghost predicate Coefficients(p: PowerReport, load: real, thrust: Float) {
    (p.cp.Num? <==> p.pGen.Num?) && (p.cp.Num? ==> p.cp.val * p.pAvail == p.pGen.val) &&
    (p.ct.Num? <==> thrust.Num?) && (p.ct.Num? ==> p.ct.val * load == thrust.val)
  }

  /** calc_power: it raises exactly when tsr is unset or a divisor is
      zero; otherwise P_gen is omega = TSR V / R times the radius-weighted
      sum of dM, P_avail is the dynamic load times V, and the coefficients
      divide by P_avail and by the dynamic load. */
  lemma PowerContract(ss: seq<SegState>, tsr: Option<real>, radius: real, windSpeed: real, density: real)
    ensures PowerOf(ss, tsr, radius, windSpeed, density).Ok? ==> (
      var p := PowerOf(ss, tsr, radius, windSpeed, density).value;
      p.pAvail == DynamicLoad(density, windSpeed, radius) * windSpeed &&
      p.pGen == Scale(tsr.value * windSpeed / radius, Sum(Terms(MomentOf(radius), ss))) &&
      Coefficients(p, DynamicLoad(density, windSpeed, radius), Sum(Terms(Thrust, ss))))
    ensures PowerOf(ss, tsr, radius, windSpeed, density).Err? <==>
      (tsr.None? || radius == 0.0 || density == 0.0 || windSpeed == 0.0)
  {
    PowerIsLoadTimesSpeed(density, windSpeed, radius);
    if PowerOf(ss, tsr, radius, windSpeed, density).Ok? {
      var load, avail := DynamicLoad(density, windSpeed, radius), AvailablePower(density, windSpeed, radius);
      var pGen := Scale(tsr.value * windSpeed / radius, Sum(Terms(MomentOf(radius), ss)));
      PowerOfOk(ss, tsr, radius, windSpeed, density);
      ReportOf(avail, load, pGen, Sum(Terms(Thrust, ss)));
    }
  }

  lemma PowerOfOk(ss: seq<SegState>, tsr: Option<real>, radius: real, windSpeed: real, density: real)
    requires PowerOf(ss, tsr, radius, windSpeed, density).Ok?
    ensures tsr.Some? && radius != 0.0
    ensures AvailablePower(density, windSpeed, radius) != 0.0 && DynamicLoad(density, windSpeed, radius) != 0.0
    ensures var pGen := Scale(tsr.value * windSpeed / radius, Sum(Terms(MomentOf(radius), ss)));
      PowerOf(ss, tsr, radius, windSpeed, density).value ==
        PowerReport(AvailablePower(density, windSpeed, radius), pGen,
                    Ratio(pGen, AvailablePower(density, windSpeed, radius)),
                    Ratio(Sum(Terms(Thrust, ss)), DynamicLoad(density, windSpeed, radius)))
  {
  }

  lemma ReportOf(avail: real, load: real, pGen: Float, thrust: Float)
    requires avail != 0.0 && load != 0.0
    ensures Coefficients(PowerReport(avail, pGen, Ratio(pGen, avail), Ratio(thrust, load)), load, thrust)
  {
  }

  /** Two segments, at r/R 0.25 and 0.75 of a unit blade with dT 10 and 20
      and dM 1 and 2: the thrust is 30 and the moment sum 0.25 + 1.5. */
  lemma TwoSegmentPower(a: SegState, b: SegState)
    requires a.position == 0.25 && a.dT == Num(10.0) && a.dM == Num(1.0)
    requires b.position == 0.75 && b.dT == Num(20.0) && b.dM == Num(2.0)
    ensures Sum(Terms(Thrust, [a, b])) == Num(30.0)
    ensures Sum(Terms(MomentOf(1.0), [a, b])) == Num(1.75)
  {
    var t := Terms(Thrust, [a, b]);
    var m := Terms(MomentOf(1.0), [a, b]);
    assert t[..1][..0] == [] && m[..1][..0] == [];
    assert Sum(t[..1]) == Num(10.0);
    assert Sum(m[..1]) == Num(0.25);
  }

  // ---------------------------------------------------------------------
  // The per-segment table (read_segments)

  /** The eight lists of read_segments. */
  datatype Table = Table(pos: seq<real>, chord: seq<Option<real>>, twist: seq<Float>, aLin: seq<Float>,
                         aAng: seq<Float>, dT: seq<Float>, dM: seq<Float>, re: seq<Float>)

  /** One entry per segment, in segment order, twist converted to degrees,
      everything else copied. */
  predicate Tabulates(t: Table, ss: seq<SegState>) {
    |t.pos| == |ss| && |t.chord| == |ss| && |t.twist| == |ss| && |t.aLin| == |ss| &&
    |t.aAng| == |ss| && |t.dT| == |ss| && |t.dM| == |ss| && |t.re| == |ss| &&
    forall i :: 0 <= i < |ss| ==>
      t.pos[i] == ss[i].position && t.chord[i] == ss[i].chord && t.twist[i] == FRadToDeg(ss[i].twist) &&
      t.aLin[i] == ss[i].aLin && t.aAng[i] == ss[i].aAng && t.dT[i] == ss[i].dT &&
      t.dM[i] == ss[i].dM && t.re[i] == ss[i].re
  }

  /** A table row per segment and an appended row is one more segment. */
  lemma TabulatesStep(t: Table, ss: seq<SegState>, s: SegState)
    requires Tabulates(t, ss)
    ensures Tabulates(Table(t.pos + [s.position], t.chord + [s.chord], t.twist + [FRadToDeg(s.twist)],
                            t.aLin + [s.aLin], t.aAng + [s.aAng], t.dT + [s.dT], t.dM + [s.dM], t.re + [s.re]),
                      ss + [s])
  {
  }

  // ---------------------------------------------------------------------
  // The blade object

  /** The states of a list of segments. */
  function StatesOf(segs: seq<Segment>): (r: seq<SegState>)
    reads segs
    ensures |r| == |segs| && forall i :: 0 <= i < |segs| ==> r[i] == segs[i].State()
  {
    if segs == [] then [] else StatesOf(segs[..|segs| - 1]) + [segs[|segs| - 1].State()]
  }

  lemma StatesAppend(segs: seq<Segment>, x: Segment)
    ensures StatesOf(segs + [x]) == StatesOf(segs) + [x.State()]
  {
    assert (segs + [x])[..|segs|] == segs;
  }

  predicate Distinct(segs: seq<Segment>) {
    forall i, j :: 0 <= i < j < |segs| ==> segs[i] != segs[j]
  }

  /** Survivors of a list without repeats, picked at increasing indices,
      are again without repeats. */
  lemma PickDistinct(segs: seq<Segment>, idx: seq<nat>)
    requires Distinct(segs)
    requires forall j :: 0 <= j < |idx| ==> idx[j] < |segs|
    requires forall j, j' :: 0 <= j < j' < |idx| ==> idx[j] < idx[j']
    ensures Distinct(Pick(segs, idx))
  {
  }

  /** A blade: its dimensions and airfoil, the segments the design builds,
      and the tip-speed ratio design_blade records. */
  class Blade {
    var radius: real
    var noSegments: int
    var segments: seq<Segment>
    var airfoil: Option<Airfoil>
    var noBlades: real
    var tsr: Option<real>

    /** No segment object appears twice. */
    ghost predicate Valid()
      reads this
    {
      Distinct(segments)
    }

    function States(): seq<SegState>
      reads this, segments
    {
      StatesOf(segments)
    }

    /** Blade(radius, no_segments, No_Blades, airfoil): no segments yet and
        no tip-speed ratio recorded. */
    constructor(radius: real, noSegments: int, noBlades: real, airfoil: Option<Airfoil>)
      ensures this.radius == radius && this.noSegments == noSegments && this.noBlades == noBlades
      ensures this.airfoil == airfoil && segments == [] && tsr == None
      ensures Valid()
    {
      this.radius, this.noSegments, this.noBlades, this.airfoil := radius, noSegments, noBlades, airfoil;
      segments, tsr := [], None;
    }

    /** design_blade: records TSR, then appends the n uniformly spaced
        segments, each solved by calc_dimensions as it is made. */
    method DesignBlade(k: Kernels, tsrG: real) returns (o: Outcome)
      requires Valid()
      modifies this
      ensures Valid() && tsr == Some(tsrG)
      ensures radius == old(radius) && noSegments == old(noSegments) && noBlades == old(noBlades) && airfoil == old(airfoil)
      ensures States() == old(States()) + DesignRun(Dimensioned(k, tsrG, noBlades, radius), airfoil, radius, noSegments).0
      ensures o == DesignRun(Dimensioned(k, tsrG, noBlades, radius), airfoil, radius, noSegments).1
    {
      tsr := Some(tsrG);
      assert States() == old(States());
      if airfoil.None? {
        return Fail(NotAnAirfoil);
      }
      if noSegments == 0 {
        return Fail(DivisionByZero);
      }
      ghost var step := DesignSteps(Dimensioned(k, tsrG, noBlades, radius), airfoil.value, radius, noSegments);
      ghost var n: nat := if noSegments < 0 then 0 else noSegments;
      assert DesignRun(Dimensioned(k, tsrG, noBlades, radius), airfoil, radius, noSegments) == Run(step, n);
      ghost var made;
      o, made := DesignLoop(k, tsrG, step);
      if o.Pass? {
        RanIsRun(step, made, n);
      } else {
        StoppedIsRun(step, made, o.error, n);
      }
    }

    /** The for loop of design_blade: the segments made so far are the
        results of the first steps, and a step that raises ends the loop. */
    method DesignLoop(k: Kernels, tsrG: real, ghost step: nat -> Result<SegState>)
      returns (o: Outcome, ghost made: seq<SegState>)
      requires Valid() && airfoil.Some? && noSegments != 0
      requires step == DesignSteps(Dimensioned(k, tsrG, noBlades, radius), airfoil.value, radius, noSegments)
      modifies this
      ensures Valid()
      ensures radius == old(radius) && noSegments == old(noSegments) && noBlades == old(noBlades)
      ensures airfoil == old(airfoil) && tsr == old(tsr)
      ensures States() == old(States()) + made
      ensures o.Pass? ==> Ran(step, made, if noSegments < 0 then 0 else noSegments)
      ensures o.Fail? ==> |made| < noSegments && Stopped(step, made, o.error)
    {
      ghost var s0 := States();
      made := [];
      var i: nat := 0;
      while i < noSegments
        invariant i <= if noSegments < 0 then 0 else noSegments
        invariant Valid()
        invariant radius == old(radius) && noSegments == old(noSegments) && noBlades == old(noBlades)
        invariant airfoil == old(airfoil) && tsr == old(tsr)
        invariant i == |made| && Ran(step, made, i)
        invariant States() == s0 + made
        decreases noSegments - i
      {
        ghost var x;
        o, x := DesignNext(k, tsrG, step, i, made, s0);
        if o.Fail? {
          return;
        }
        made := made + [x];
        i := i + 1;
      }
      o := Pass;
    }

    /** Iteration i of the for loop of design_blade. */
    method DesignNext(k: Kernels, tsrG: real, ghost step: nat -> Result<SegState>, i: nat, ghost made: seq<SegState>,
                      ghost s0: seq<SegState>) returns (o: Outcome, ghost x: SegState)
      requires Valid() && airfoil.Some? && noSegments != 0 && i == |made|
      requires step == DesignSteps(Dimensioned(k, tsrG, noBlades, radius), airfoil.value, radius, noSegments)
      requires Ran(step, made, |made|) && States() == s0 + made
      modifies this
      ensures Valid()
      ensures radius == old(radius) && noSegments == old(noSegments) && noBlades == old(noBlades)
      ensures airfoil == old(airfoil) && tsr == old(tsr)
      ensures o.Pass? ==> Ran(step, made + [x], |made| + 1) && States() == s0 + (made + [x])
      ensures o.Fail? ==> Stopped(step, made, o.error) && States() == s0 + made
    {
      x :| true;
      if radius == 0.0 {
        assert step(i) == Err(DivisionByZero);
        RanStops(step, made, DivisionByZero);
        o := Fail(DivisionByZero);
        return;
      }
      var part, out := DesignSegment(k, tsrG, noBlades, airfoil.value, radius, noSegments, i);
      assert step(i) == DesignStep(Dimensioned(k, tsrG, noBlades, radius), airfoil.value, radius, noSegments, i);
      if out.Fail? {
        RanStops(step, made, out.error);
        o := out;
        return;
      }
      x := part.State();
      RanExtends(step, made, x);
      AppendSegment(part);
      Regroup(s0, made, x);
      return Pass, x;
    }

    /** list.append of a segment that is not yet on the blade. */
    method AppendSegment(part: Segment)
      requires Valid() && part !in segments
      modifies this
      ensures Valid() && segments == old(segments) + [part]
      ensures States() == old(States()) + [part.State()]
      ensures radius == old(radius) && noSegments == old(noSegments) && noBlades == old(noBlades)
      ensures airfoil == old(airfoil) && tsr == old(tsr)
    {
      StatesAppend(segments, part);
      SetSegments(segments + [part]);
    }

    /** fix_blade: every segment outside the manufacturing envelope gets
        calc_properties with the chord iter_chord finds, in order. */
    method FixBlade(k: Kernels, env: Envelope, tip: bool, fuel: nat) returns (o: Outcome)
      requires Valid()
      modifies segments
      ensures States() == FixAll(Fixer(k, env, tsr, noBlades, radius, tip, fuel), old(States())).0
      ensures o == FixAll(Fixer(k, env, tsr, noBlades, radius, tip, fuel), old(States())).1
    {
      ghost var ss := States();
      ghost var after;
      o, after := FixLoop(segments, ss, k, env, tsr, noBlades, radius, tip, fuel);
      StatesAre(segments, after);
    }

    /** The first loop of prepare_blade: removes the segments within 0.03 of
        the hub while iterating over the same list, so the successor of a
        removed segment is never examined. */
    method RemoveHubSegments()
      requires Valid()
      modifies this
      ensures Valid()
      ensures segments == Pick(old(segments), Kept(HubMask(old(States()), radius)))
      ensures States() == Pick(old(States()), Kept(HubMask(old(States()), radius)))
      ensures radius == old(radius) && noSegments == old(noSegments) && noBlades == old(noBlades)
      ensures airfoil == old(airfoil) && tsr == old(tsr)
    {
      ghost var ss := States();
      ghost var hub := HubMask(ss, radius);
      assert IsHubMask(segments, radius, hub) by {
        assert forall i :: 0 <= i < |segments| ==> ss[i] == segments[i].State();
      }
      var swept := SweepHub(segments, radius, hub);
      KeptContract(hub);
      PickDistinct(segments, Kept(hub));
      PickStates(segments, ss, Kept(hub));
      SetSegments(swept);
    }

    /** Replaces the segment list by one whose states were computed before. */
    method SetSegments(segs: seq<Segment>)
      requires Distinct(segs)
      modifies this
      ensures Valid() && segments == segs && States() == old(StatesOf(segs))
      ensures radius == old(radius) && noSegments == old(noSegments) && noBlades == old(noBlades)
      ensures airfoil == old(airfoil) && tsr == old(tsr)
    {
      segments := segs;
    }

    /** prepare_blade: drops the hub segments, puts the solved cylinder with
        chord L_circ in front and a copy of the last segment, stretched to
        the tip, at the back. */
    method PrepareBlade(k: Kernels, tsrG: real, circName: string, clCirc: real, cdCirc: real, aoaCirc: real,
                        lCirc: real) returns (o: Outcome)
      requires Valid()
      modifies this
      ensures Valid()
      ensures radius == old(radius) && noSegments == old(noSegments) && noBlades == old(noBlades)
      ensures airfoil == old(airfoil) && tsr == old(tsr)
      ensures States() == PrepareRun(Dimensioned(k, tsrG, noBlades, radius), old(States()),
                                     NewAirfoil(circName, clCirc, cdCirc, aoaCirc), radius, lCirc).0
      ensures o == PrepareRun(Dimensioned(k, tsrG, noBlades, radius), old(States()),
                              NewAirfoil(circName, clCirc, cdCirc, aoaCirc), radius, lCirc).1
    {
      ghost var ss := States();
      RemoveHubSegments();
      var circ := NewAirfoil(circName, clCirc, cdCirc, aoaCirc);
      PrepareRunSplits(Dimensioned(k, tsrG, noBlades, radius), ss, States(), circ, radius, lCirc);
      if radius == 0.0 {
        return Fail(DivisionByZero);
      }
      o := Surround(k, tsrG, circ, lCirc);
    }

    /** The second and third steps of prepare_blade: the cylinder in front,
        then the tip behind; a raise stops there. */
    method Surround(k: Kernels, tsrG: real, circ: Airfoil, lCirc: real) returns (o: Outcome)
      requires Valid() && radius != 0.0
      modifies this
      ensures Valid()
      ensures radius == old(radius) && noSegments == old(noSegments) && noBlades == old(noBlades)
      ensures airfoil == old(airfoil) && tsr == old(tsr)
      ensures Keeps(Dimensioned(k, tsrG, noBlades, radius))
      ensures (States(), o) == Assemble(old(States()), CylinderRun(Dimensioned(k, tsrG, noBlades, radius), circ, radius, lCirc), radius)
    {
      o := AddCylinder(k, tsrG, circ, lCirc);
      if o.Fail? {
        return;
      }
      o := AddTip();
    }

    /** The cylinder step of prepare_blade: the solved cylinder, chord
        L_circ, goes in front of the segments unless calc_dimensions raises. */
    method AddCylinder(k: Kernels, tsrG: real, circ: Airfoil, lCirc: real) returns (o: Outcome)
      requires Valid() && radius != 0.0
      modifies this
      ensures Valid()
      ensures radius == old(radius) && noSegments == old(noSegments) && noBlades == old(noBlades)
      ensures airfoil == old(airfoil) && tsr == old(tsr)
      ensures Keeps(Dimensioned(k, tsrG, noBlades, radius))
      ensures var cyl := CylinderRun(Dimensioned(k, tsrG, noBlades, radius), circ, radius, lCirc);
        (cyl.Err? ==> o == Fail(cyl.error) && States() == old(States())) &&
        (cyl.Ok? ==> o == Pass && States() == [cyl.value] + old(States()))
    {
      var cylinder;
      cylinder, o := NewCylinder(k, tsrG, noBlades, radius, circ, lCirc);
      if o.Pass? {
        PrependSegment(cylinder);
      }
    }

    /** The tip step of prepare_blade. */
    method AddTip() returns (o: Outcome)
      requires Valid() && segments != []
      modifies this
      ensures Valid()
      ensures radius == old(radius) && noSegments == old(noSegments) && noBlades == old(noBlades)
      ensures airfoil == old(airfoil) && tsr == old(tsr)
      ensures (States(), o) == WithTip(old(States()), radius)
    {
      var last := segments[|segments| - 1];
      assert last.State() == States()[|segments| - 1];
      var tipSeg;
      tipSeg, o := NewTip(last, radius);
      if o.Pass? {
        AppendSegment(tipSeg);
      }
    }

    /** list.insert(0, ...) of a segment that is not yet on the blade. */
    method PrependSegment(part: Segment)
      requires Valid() && part !in segments
      modifies this
      ensures Valid() && segments == [part] + old(segments)
      ensures States() == [part.State()] + old(States())
      ensures radius == old(radius) && noSegments == old(noSegments) && noBlades == old(noBlades)
      ensures airfoil == old(airfoil) && tsr == old(tsr)
    {
      StatesAre([part] + segments, [part.State()] + States());
      SetSegments([part] + segments);
    }

    /** read_segments: the eight per-segment lists, blade root to tip. */
    method ReadSegments() returns (t: Table)
      ensures Tabulates(t, States())
    {
      t := Table([], [], [], [], [], [], [], []);
      var i := 0;
      while i < |segments|
        invariant 0 <= i <= |segments|
        invariant Tabulates(t, States()[..i])
      {
        var s := segments[i];
        assert States()[..i + 1] == States()[..i] + [s.State()];
        t := Table(t.pos + [s.position], t.chord + [s.chord], t.twist + [FRadToDeg(s.twist)], t.aLin + [s.aLin],
                   t.aAng + [s.aAng], t.dT + [s.dT], t.dM + [s.dM], t.re + [s.re]);
        i := i + 1;
      }
      assert States()[..i] == States();
    }

    /** calc_power: reads the segment lists and reduces them. */
    method CalcPower(windSpeed: real, density: real) returns (r: Result<PowerReport>)
      ensures r == PowerOf(States(), tsr, radius, windSpeed, density)
    {
      var t := ReadSegments();
      if tsr.None? {
        return Err(TsrUnset);
      }
      if radius == 0.0 {
        return Err(DivisionByZero);
      }
      var omega := tsr.value * windSpeed / radius;
      TableTerms(t, States(), radius);
      var thrust := Sum(t.dT);
      var pGen := Scale(omega, Sum(Moments(t.dM, t.pos, radius)));
      var pAvail := AvailablePower(density, windSpeed, radius);
      var load := DynamicLoad(density, windSpeed, radius);
      if pAvail == 0.0 || load == 0.0 {
        return Err(DivisionByZero);
      }
      return Ok(PowerReport(pAvail, pGen, Ratio(pGen, pAvail), Ratio(thrust, load)));
    }
  }

  /** One iteration of design_blade: segment i of n, made from
      dr = R / n and solved by calc_dimensions; it completes exactly when
      the design step succeeds, with the state that step gives. */
  method DesignSegment(k: Kernels, tsrG: real, blades: real, af: Airfoil, radius: real, n: int, i: nat)
    returns (part: Segment, o: Outcome)
    requires n != 0 && radius != 0.0
    ensures fresh(part)
    ensures o.Pass? <==> DesignStep(Dimensioned(k, tsrG, blades, radius), af, radius, n, i).Ok?
    ensures o.Pass? ==> part.State() == DesignStep(Dimensioned(k, tsrG, blades, radius), af, radius, n, i).value
    ensures o.Fail? ==> o.error == DesignStep(Dimensioned(k, tsrG, blades, radius), af, radius, n, i).error
  {
    part := new Segment(SegmentLength(radius, n), SegmentPosition(radius, n, i), af);
    o := part.CalcDimensions(k, tsrG, blades, radius);
  }

  /** The hub cylinder of prepare_blade: a segment of length 0.03 at
      0.03/R with the cylinder's polar, solved by calc_dimensions, whose
      chord is then overwritten with L_circ. */
  method NewCylinder(k: Kernels, tsrG: real, blades: real, radius: real, circ: Airfoil, lCirc: real)
    returns (cylinder: Segment, o: Outcome)
    requires radius != 0.0
    ensures fresh(cylinder)
    ensures Keeps(Dimensioned(k, tsrG, blades, radius))
    ensures o.Pass? <==> CylinderRun(Dimensioned(k, tsrG, blades, radius), circ, radius, lCirc).Ok?
    ensures o.Pass? ==> cylinder.State() == CylinderRun(Dimensioned(k, tsrG, blades, radius), circ, radius, lCirc).value
    ensures o.Fail? ==> CylinderRun(Dimensioned(k, tsrG, blades, radius), circ, radius, lCirc) == Err(o.error)
  {
    DimensionedContract(k, tsrG, blades, radius);
    cylinder := new Segment(0.03, 0.03 / radius, circ);
    o := cylinder.CalcDimensions(k, tsrG, blades, radius);
    if o.Pass? {
      cylinder.chord := Some(lCirc);
    }
  }

  /** The tip segment of prepare_blade: a deep copy of the last segment,
      moved to position 1, stretched to R (1 - r/R) and with dM and dT
      scaled by the ratio of the lengths; a zero length of the last segment
      raises ZeroDivisionError. */
  method NewTip(last: Segment, radius: real) returns (tipSeg: Segment, o: Outcome)
    ensures fresh(tipSeg)
    ensures o.Pass? <==> last.length != 0.0
    ensures o.Fail? ==> o == Fail(DivisionByZero)
    ensures o.Pass? ==> tipSeg.State() == TipOf(last.State(), radius)
  {
    tipSeg := new Segment.Copy(last);
    tipSeg.position := 1.0;
    tipSeg.length := TipLength(last.State(), radius);
    if last.length == 0.0 {
      return tipSeg, Fail(DivisionByZero);
    }
    tipSeg.dM := Scale(tipSeg.length / last.length, tipSeg.dM);
    tipSeg.dT := Scale(tipSeg.length / last.length, tipSeg.dT);
    o := Pass;
  }

  /** One iteration of fix_blade: check_shape, and for a segment that
      does not fit, iter_chord, the lookup of the blade's tsr and
      calc_properties. Every failure comes before calc_properties, so a
      failing segment keeps its state. */
  method FixSegment(seg: Segment, k: Kernels, env: Envelope, tsr: Option<real>, blades: real, radius: real,
                    tip: bool, fuel: nat) returns (o: Outcome)
    modifies seg
    ensures o.Pass? <==> FixOne(k, old(seg.State()), env, tsr, blades, radius, tip, fuel).Ok?
    ensures o.Pass? ==> seg.State() == FixOne(k, old(seg.State()), env, tsr, blades, radius, tip, fuel).value
    ensures o.Fail? ==> (o.error == FixOne(k, old(seg.State()), env, tsr, blades, radius, tip, fuel).error &&
      seg.State() == old(seg.State()))
  {
    var check := ShapeCheckOf(k, seg.State(), env);
    if check.Err? {
      return Fail(check.error);
    }
    if check.value != Fits {
      var fit := seg.IterChord(k, env, fuel);
      if fit.Err? {
        return Fail(fit.error);
      }
      if fit.value.OutOfFuel? {
        return Fail(FitNotTerminated);
      }
      if tsr.None? {
        return Fail(TsrUnset);
      }
      seg.CalcProperties(k, FoundChord(fit.value), tsr.value, blades, radius, tip);
    }
    return Pass;
  }

  /** The removal test of prepare_blade: hub[i] says whether segment i
      lies within 0.03 of the hub. */
  ghost predicate IsHubMask(segs: seq<Segment>, radius: real, hub: seq<bool>)
    reads segs
  {
    |hub| == |segs| && forall i :: 0 <= i < |segs| ==> (hub[i] <==> segs[i].position * radius <= 0.03)
  }

  /** The state of the removal loop: the list holds the survivors among the
      first p original segments (at the indices done) followed by the
      segments not yet reached; i is the iteration index into the list,
      which runs one past the survivors once the last segment is removed. */
  ghost predicate SweepInv(segs: seq<Segment>, hub: seq<bool>, kept: seq<Segment>, i: nat, done: seq<nat>, p: nat) {
    p <= |segs| == |hub| && |done| <= i <= |done| + 1 && (i == |done| + 1 ==> p == |segs|) &&
    (forall j :: 0 <= j < |done| ==> done[j] < p) &&
    kept == Pick(segs, done) + segs[p..] && Kept(hub) == done + KeptFrom(hub, p)
  }

  /** One iteration of the removal loop keeps SweepInv, with the original
      index p moving forward. */
  lemma SweepStep(segs: seq<Segment>, radius: real, hub: seq<bool>, kept: seq<Segment>, i: nat, done: seq<nat>, p: nat)
    returns (done': seq<nat>, p': nat)
    requires IsHubMask(segs, radius, hub) && SweepInv(segs, hub, kept, i, done, p) && i < |kept|
    ensures p < p' && SweepInv(segs, hub, if kept[i].position * radius <= 0.03 then kept[..i] + kept[i + 1..] else kept,
                               i + 1, done', p')
  {
    assert i == |done| && p < |segs|;
    assert kept[i] == segs[p];
    if hub[p] {
      done', p' := SweepRemove(segs, hub, kept, done, p);
    } else {
      done', p' := SweepKeep(segs, hub, kept, done, p);
    }
  }

  /** The keeping branch of SweepStep. */
  lemma SweepKeep(segs: seq<Segment>, hub: seq<bool>, kept: seq<Segment>, done: seq<nat>, p: nat)
    returns (done': seq<nat>, p': nat)
    requires SweepInv(segs, hub, kept, |done|, done, p) && p < |segs| && !hub[p]
    ensures p < p' && SweepInv(segs, hub, kept, |done| + 1, done', p')
  {
    KeptFromStep(done, hub, p);
    KeepStep(segs, done, p);
    done', p' := done + [p], p + 1;
  }

  /** The removing branch of SweepStep. */
  lemma SweepRemove(segs: seq<Segment>, hub: seq<bool>, kept: seq<Segment>, done: seq<nat>, p: nat)
    returns (done': seq<nat>, p': nat)
    requires SweepInv(segs, hub, kept, |done|, done, p) && p < |segs| && hub[p]
    ensures p < p' && SweepInv(segs, hub, kept[..|done|] + kept[|done| + 1..], |done| + 1, done', p')
  {
    KeptFromStep(done, hub, p);
    if p + 1 < |segs| {
      SkipStep(segs, done, p);
      done', p' := done + [p + 1], p + 2;
    } else {
      SkipLast(segs, done, p);
      done', p' := done, |segs|;
    }
  }

  /** The removal loop of prepare_blade on the list segs: a segment whose
      r = r/R * R is at most 0.03 is deleted from the list being iterated,
      so the iteration index then points past its successor. The survivors
      are exactly those Kept selects from the removal test. */
  method SweepHub(segs: seq<Segment>, radius: real, ghost hub: seq<bool>) returns (kept: seq<Segment>)
    requires IsHubMask(segs, radius, hub)
    ensures kept == Pick(segs, Kept(hub))
  {
    ghost var done: seq<nat> := [];
    ghost var p: nat := 0;
    kept := segs;
    var i := 0;
    while i < |kept|
      invariant SweepInv(segs, hub, kept, i, done, p)
      decreases |segs| - p
    {
      done, p := SweepStep(segs, radius, hub, kept, i, done, p);
      if kept[i].position * radius <= 0.03 {
        kept := kept[..i] + kept[i + 1..];
      }
      i := i + 1;
    }
    assert segs[p..] == [];
  }

  /** The loop of fix_blade over the segments segs, whose states are ss:
      each segment is fixed in turn, and a segment that raises ends the loop
      with its own state and those after it unchanged. */
  method FixLoop(segs: seq<Segment>, ghost ss: seq<SegState>, k: Kernels, env: Envelope, tsr: Option<real>,
                 blades: real, radius: real, tip: bool, fuel: nat) returns (o: Outcome, ghost after: seq<SegState>)
    requires Distinct(segs) && |segs| == |ss| && forall j :: 0 <= j < |segs| ==> segs[j].State() == ss[j]
    modifies set s | s in segs
    ensures after == FixAll(Fixer(k, env, tsr, blades, radius, tip, fuel), ss).0
    ensures o == FixAll(Fixer(k, env, tsr, blades, radius, tip, fuel), ss).1
    ensures |segs| == |after| && forall j :: 0 <= j < |segs| ==> segs[j].State() == after[j]
  {
    ghost var fix := Fixer(k, env, tsr, blades, radius, tip, fuel);
    after := ss;
    o := Pass;
    var i := 0;
    while i < |segs|
      invariant 0 <= i <= |segs| == |ss| == |after| && o == Pass
      invariant forall j :: 0 <= j < i ==> fix(ss[j]) == Ok(after[j])
      invariant forall j :: i <= j < |ss| ==> after[j] == ss[j]
      invariant forall j :: 0 <= j < |segs| ==> segs[j].State() == after[j]
      decreases |segs| - i
    {
      var seg := segs[i];
      assert fix(ss[i]) == FixOne(k, ss[i], env, tsr, blades, radius, tip, fuel);
      o := FixSegment(seg, k, env, tsr, blades, radius, tip, fuel);
      if o.Fail? {
        FixFailed(fix, ss, after, i);
        return;
      }
      after := after[i := seg.State()];
      i := i + 1;
    }
    FixAllRan(fix, ss, after, i);
    assert ss[..i] == ss && after[..i] == after;
  }

  /** A pass that fixed the segments before i and stops at segment i
      leaves segment i and those after it as they were. */
  lemma FixFailed<T>(fix: T -> Result<T>, ss: seq<T>, xs: seq<T>, i: nat)
    requires i < |ss| == |xs| && forall j :: 0 <= j < i ==> fix(ss[j]) == Ok(xs[j])
    requires forall j :: i <= j < |ss| ==> xs[j] == ss[j]
    requires fix(ss[i]).Err?
    ensures FixAll(fix, ss) == (xs, Fail(fix(ss[i]).error))
  {
    FixAllRan(fix, ss, xs, i);
    FixStop(fix, ss, i);
    assert xs[..i] + ss[i..] == xs;
  }

  /** A pass over a prefix whose every segment fix turned into xs[j]
      completes with those states. */
  lemma {:induction false} FixAllRan<T>(fix: T -> Result<T>, ss: seq<T>, xs: seq<T>, i: nat)
    requires i <= |ss| == |xs| && forall j :: 0 <= j < i ==> fix(ss[j]) == Ok(xs[j])
    ensures FixAll(fix, ss[..i]) == (xs[..i], Pass)
    decreases i
  {
    if i > 0 {
      FixAllRan(fix, ss, xs, i - 1);
      assert ss[..i][..i - 1] == ss[..i - 1] && ss[..i][i - 1] == ss[i - 1];
      assert xs[..i - 1] + [xs[i - 1]] == xs[..i];
    }
  }

  /** A pass that stops at segment i leaves it and the rest as they were. */
  lemma FixStop<T>(fix: T -> Result<T>, ss: seq<T>, i: nat)
    requires i < |ss| && FixAll(fix, ss[..i]).1.Pass? && fix(ss[i]).Err?
    ensures FixAll(fix, ss) == (FixAll(fix, ss[..i]).0 + ss[i..], Fail(fix(ss[i]).error))
  {
    var front := FixAll(fix, ss[..i]).0;
    var r1 := FixAll(fix, ss[..i + 1]);
    FixStopsAt(fix, ss, i);
    FixAllStops(fix, ss, i + 1);
    assert FixAll(fix, ss) == (r1.0 + ss[i + 1..], r1.1);
    ConcatAt(front, ss, i);
  }

  lemma ConcatAt<T>(front: seq<T>, ss: seq<T>, i: nat)
    requires i < |ss|
    ensures front + [ss[i]] + ss[i + 1..] == front + ss[i..]
  {
    assert [ss[i]] + ss[i + 1..] == ss[i..];
  }

  /** The step of a pass at a segment that raises. */
  lemma FixStopsAt<T>(fix: T -> Result<T>, ss: seq<T>, i: nat)
    requires i < |ss| && FixAll(fix, ss[..i]).1.Pass? && fix(ss[i]).Err?
    ensures FixAll(fix, ss[..i + 1]) == (FixAll(fix, ss[..i]).0 + [ss[i]], Fail(fix(ss[i]).error))
  {
    var xs := ss[..i + 1];
    assert xs[..i] == ss[..i] && xs[i] == ss[i];
  }

  /** The states of the picked segments are the picked states. */
  lemma PickStates(segs: seq<Segment>, ss: seq<SegState>, idx: seq<nat>)
    requires ss == StatesOf(segs) && forall j :: 0 <= j < |idx| ==> idx[j] < |segs|
    ensures StatesOf(Pick(segs, idx)) == Pick(ss, idx)
  {
    StatesAre(Pick(segs, idx), Pick(ss, idx));
  }

  lemma StatesAre(segs: seq<Segment>, cur: seq<SegState>)
    requires |segs| == |cur| && forall j :: 0 <= j < |segs| ==> segs[j].State() == cur[j]
    ensures StatesOf(segs) == cur
  {
  }

  /** dM_i * (r/R_i * R) over the two table columns. */
  function Moments(dM: seq<Float>, pos: seq<real>, radius: real): (ts: seq<Float>)
    requires |dM| == |pos|
    ensures |ts| == |dM| && forall i :: 0 <= i < |dM| ==> ts[i] == Mul(dM[i], Num(pos[i] * radius))
    decreases |dM|
  {
    if dM == [] then []
    else Moments(dM[..|dM| - 1], pos[..|dM| - 1], radius) + [Mul(dM[|dM| - 1], Num(pos[|dM| - 1] * radius))]
  }

  /** The table's columns are the terms calc_power sums. */
  lemma TableTerms(t: Table, ss: seq<SegState>, radius: real)
    requires Tabulates(t, ss)
    ensures t.dT == Terms(Thrust, ss)
    ensures Moments(t.dM, t.pos, radius) == Terms(MomentOf(radius), ss)
  {
    var ms, ts := Moments(t.dM, t.pos, radius), Terms(MomentOf(radius), ss);
    forall i | 0 <= i < |ss| ensures ms[i] == ts[i] {
      assert t.dM[i] == ss[i].dM && t.pos[i] == ss[i].position;
      assert ts[i] == MomentOf(radius)(ss[i]) == Mul(ss[i].dM, Num(Lever(ss[i], radius)));
      assert ms[i] == Mul(t.dM[i], Num(t.pos[i] * radius));
    }
  }
}
