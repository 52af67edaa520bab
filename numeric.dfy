/** Shared vocabulary of the model: optional values, the ways a computation
    of the blade sizer can fail, a stand-in for IEEE doubles that can hold
    the NaN sentinel, and the transcendental kernels the code calls into. */
module Numeric {

  datatype Option<+T> = None | Some(value: T)

  /** The exceptions the modelled code can raise, named after their cause. */
  datatype Error =
    | NotAnAirfoil                        // TypeError: argument is not an Airfoil
    | DivisionByZero                      // a quotient whose divisor is zero
    | NoPhysicalRoot                      // no root of the cubic is real and in [0, 0.5]
    | ConvergenceFailure(last: real, tsr: real)  // Newton iteration hit its cap
    | FitNotTerminated                    // a perturb-and-test loop used up its fuel
    | FileNotFound                        // the outline file does not exist
    | MissingHeader                       // the outline file has no first line
    | MissingColumn                       // a data line has fewer than two columns
    | BadNumber                           // a column is not a floating-point literal
    | NoChord                             // arithmetic on a chord that is None
    | TsrUnset                            // the blade's tsr was never recorded

  datatype Result<+T> = Ok(value: T) | Err(error: Error)

  /** Completion of a procedure that returns nothing: it either returns or raises. */
  datatype Outcome = Pass | Fail(error: Error)

  /** A double as the model sees it: an exact real, or the NaN sentinel.
      Infinities are not modelled. */
  datatype Float = Num(val: real) | NaN

  function Add(x: Float, y: Float): (r: Float)
    ensures r.Num? <==> x.Num? && y.Num?
    ensures r.Num? ==> r.val == x.val + y.val
  {
    if x.Num? && y.Num? then Num(x.val + y.val) else NaN
  }

  function Sub(x: Float, y: Float): (r: Float)
    ensures r.Num? <==> x.Num? && y.Num?
    ensures r.Num? ==> r.val + y.val == x.val
  {
    if x.Num? && y.Num? then Num(x.val - y.val) else NaN
  }

  function Mul(x: Float, y: Float): (r: Float)
    ensures r.Num? <==> x.Num? && y.Num?
    ensures r.Num? ==> r.val == x.val * y.val
  {
    if x.Num? && y.Num? then Num(x.val * y.val) else NaN
  }

  /** k * x for an ordinary number k. */
  function Scale(k: real, x: Float): (r: Float)
    ensures r.Num? <==> x.Num?
    ensures r.Num? ==> r.val == k * x.val
  {
    if x.Num? then Num(k * x.val) else NaN
  }

  function Abs(x: real): (r: real)
    ensures r >= 0.0 && (r == x || r == -x)
  {
    if x < 0.0 then -x else x
  }

  /** IEEE equality: NaN equals nothing, not even itself. */
  predicate SameNumber(x: Float, y: Float) {
    x.Num? && y.Num? && x.val == y.val
  }

  /** Sum of a list of doubles, starting from 0 as Python's sum does;
      a single NaN makes the whole sum NaN. */
  function Sum(xs: seq<Float>): (r: Float)
    decreases |xs|
  {
    if xs == [] then Num(0.0) else Add(Sum(xs[..|xs| - 1]), xs[|xs| - 1])
  }

  lemma {:induction false} SumIsNaNExactly(xs: seq<Float>)
    ensures Sum(xs).NaN? <==> exists i :: 0 <= i < |xs| && xs[i].NaN?
    decreases |xs|
  {
    if xs != [] {
      var init := xs[..|xs| - 1];
      SumIsNaNExactly(init);
      assert forall i :: 0 <= i < |init| ==> init[i] == xs[i];
      if Sum(xs).NaN? && !Sum(init).NaN? {
        assert xs[|xs| - 1].NaN?;
      }
    }
  }

  lemma {:induction false} SumAppend(xs: seq<Float>, ys: seq<Float>)
    ensures Sum(xs + ys) == Add(Sum(xs), Sum(ys))
    decreases |ys|
  {
    if ys == [] {
      assert xs + ys == xs;
    } else {
      var ys' := ys[..|ys| - 1];
      assert (xs + ys)[..|xs + ys| - 1] == xs + ys';
      SumAppend(xs, ys');
    }
  }

  lemma SumSnoc(xs: seq<Float>, x: Float)
    ensures Sum(xs + [x]) == Add(Sum(xs), x)
  {
    assert (xs + [x])[..|xs|] == xs;
  }

  lemma AddSwap(a: Float, b: Float, c: Float)
    ensures Add(Add(a, b), c) == Add(Add(a, c), b)
  {
  }

  /** Taking term j out of a sum and adding it back last. */
  lemma SumRemove(ys: seq<Float>, j: nat)
    requires j < |ys|
    ensures Sum(ys) == Add(Sum(ys[..j] + ys[j + 1..]), ys[j])
  {
    SplitAt(ys, j);
    SumMiddle(ys[..j], ys[j], ys[j + 1..]);
  }

  lemma SplitAt<T>(ys: seq<T>, j: nat)
    requires j < |ys|
    ensures ys == ys[..j] + [ys[j]] + ys[j + 1..]
  {
  }

  lemma SumMiddle(a: seq<Float>, y: Float, b: seq<Float>)
    ensures Sum(a + [y] + b) == Add(Sum(a + b), y)
  {
    calc {
      Sum(a + [y] + b);
      { SumAppend(a + [y], b); }
      Add(Sum(a + [y]), Sum(b));
      { SumSnoc(a, y); }
      Add(Add(Sum(a), y), Sum(b));
      { AddSwap(Sum(a), y, Sum(b)); }
      Add(Add(Sum(a), Sum(b)), y);
      { SumAppend(a, b); }
      Add(Sum(a + b), y);
    }
  }

  /** The order of the terms does not change a sum: NaN-ness and the value
      only depend on the multiset of terms. */
  lemma {:induction false} SumPermutation(xs: seq<Float>, ys: seq<Float>)
    requires multiset(xs) == multiset(ys)
    ensures Sum(xs) == Sum(ys)
    decreases |xs|
  {
    if xs != [] {
      var last := xs[|xs| - 1];
      var init := xs[..|xs| - 1];
      MultisetWithout(xs, |xs| - 1);
      assert last in multiset(ys);
      var j :| 0 <= j < |ys| && ys[j] == last;
      var rest := ys[..j] + ys[j + 1..];
      MultisetWithout(ys, j);
      SumPermutation(init, rest);
      SumRemove(ys, j);
    }
  }

  /** Removing the element at j removes one occurrence from the multiset. */
  lemma MultisetWithout<T>(ys: seq<T>, j: nat)
    requires j < |ys|
    ensures multiset(ys[..j] + ys[j + 1..]) == multiset(ys) - multiset{ys[j]}
  {
    assert ys == ys[..j] + [ys[j]] + ys[j + 1..];
  }

  /** numpy's pi, as the double literal. */
  const Pi: real := 3.141592653589793

  /** np.deg2rad and np.rad2deg. */
  function DegToRad(d: real): real { d * Pi / 180.0 }
  function RadToDeg(r: real): real { r * 180.0 / Pi }

  function FRadToDeg(x: Float): (r: Float)
    ensures r.Num? <==> x.Num?
    ensures r.Num? ==> DegToRad(r.val) == x.val
  {
    if x.Num? then Num(RadToDeg(x.val)) else NaN
  }

  lemma DegreesRoundTrip(d: real)
    ensures RadToDeg(DegToRad(d)) == d && DegToRad(RadToDeg(d)) == d
  {
  }

  /** A complex number as np.roots returns it. */
  datatype Complex = Complex(re: real, im: real)

  /** The transcendental functions of numpy, left uninterpreted. */
  datatype Math = Math(sin: real -> real, cos: real -> real, atan: real -> real,
                       acos: real -> real, exp: real -> real)

  function FSin(m: Math, x: Float): Float {
    if x.Num? then Num(m.sin(x.val)) else NaN
  }

  function FCos(m: Math, x: Float): Float {
    if x.Num? then Num(m.cos(x.val)) else NaN
  }
}
