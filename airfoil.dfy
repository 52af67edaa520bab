/** The airfoil descriptor (Classes/Airfoil_Class.py): an immutable polar
    shared by every segment, and the reading and centering of its outline
    file. The file system and the text-to-float conversion are parameters. */
module AirfoilModel {
  import opened Numeric

  /** Lift and drag coefficients at the reference Reynolds number and the
      optimal angle of attack, stored in radians. */
  datatype Airfoil = Airfoil(name: string, cl: real, cd: real, aoaOpt: real) {

    /** Reads Airfoil_Data/<name>: skips the header line, takes x from the
        first and y from the second column of every other line, and centers
        both lists on their means. */
    method Shape(files: string -> Option<seq<string>>, toFloat: string -> Option<real>)
      returns (r: Result<Outline>)
      ensures r == ShapeOf(files, toFloat, this)
    {
      var file := files(OutlinePath(name));
      if file.None? {
        return Err(FileNotFound);
      }
      var lines := file.value;
      if |lines| == 0 {
        return Err(MissingHeader);
      }
      var points := ReadPoints(lines[1..], toFloat);
      if points.Err? {
        return Err(points.error);
      }
      var xs, ys := points.value.xs, points.value.ys;
      if |xs| == 0 {
        return Err(DivisionByZero);
      }
      var xMean := RSum(xs) / |xs| as real;
      var yMean := RSum(ys) / |ys| as real;
      r := Ok(Coords(Shift(xs, xMean), Shift(ys, yMean)));
      assert r == Ok(Centered(Coords(xs, ys)));
    }
  }

  /** The loop of shape() over the data lines: x and y of each line are
      appended in order; the first line that does not parse raises. */
  method ReadPoints(lines: seq<string>, toFloat: string -> Option<real>) returns (r: Result<Coords>)
    ensures r == Parsed(lines, toFloat)
  {
    var xs: seq<real> := [];
    var ys: seq<real> := [];
    var i := 0;
    while i < |lines|
      invariant 0 <= i <= |lines|
      invariant Parsed(lines[..i], toFloat) == Ok(Coords(xs, ys))
    {
      var point := ParseLine(lines[i], toFloat);
      assert lines[..i + 1] == lines[..i] + [lines[i]];
      ParsedStep(lines[..i], lines[i], toFloat);
      if point.Err? {
        ErrorPersists(lines, i + 1, toFloat);
        return Err(point.error);
      }
      xs := xs + [point.value.0];
      ys := ys + [point.value.1];
      i := i + 1;
    }
    assert lines[..i] == lines;
    return Ok(Coords(xs, ys));
  }

  /** np.deg2rad applied to the optimal angle; everything else stored as given. */
  function NewAirfoil(name: string, cl: real, cd: real, aoaDeg: real): (a: Airfoil)
    ensures a.name == name && a.cl == cl && a.cd == cd
    ensures a.aoaOpt * 180.0 == aoaDeg * Pi
    ensures RadToDeg(a.aoaOpt) == aoaDeg
  {
    Airfoil(name, cl, cd, DegToRad(aoaDeg))
  }

  function OutlinePath(name: string): string {
    "Airfoil_Data/" + name
  }

  /** Two parallel coordinate lists. */
  datatype Coords = Coords(xs: seq<real>, ys: seq<real>)

  /** An outline as shape() returns it: as many x as y coordinates. */
  type Outline = c: Coords | |c.xs| == |c.ys| witness Coords([], [])

  /** The whitespace characters Python's str.split() splits on. */
  predicate IsSpace(c: char) {
    var n := c as int;
    n == 32 || 9 <= n <= 13 || 28 <= n <= 31 || n == 0x85 || n == 0xA0 || n == 0x1680
    || 0x2000 <= n <= 0x200A || n == 0x2028 || n == 0x2029 || n == 0x202F
    || n == 0x205F || n == 0x3000
  }

  function TokenLength(s: string): (n: nat)
    ensures n <= |s|
    ensures forall i :: 0 <= i < n ==> !IsSpace(s[i])
    ensures n < |s| ==> IsSpace(s[n])
  {
    if s == [] || IsSpace(s[0]) then 0 else 1 + TokenLength(s[1..])
  }

  /** line.strip().split(): the maximal runs of non-whitespace characters. */
  function Words(s: string): (ws: seq<string>)
    ensures forall k :: 0 <= k < |ws| ==> |ws[k]| > 0
    ensures forall k, i :: 0 <= k < |ws| && 0 <= i < |ws[k]| ==> !IsSpace(ws[k][i])
    ensures (forall i :: 0 <= i < |s| ==> IsSpace(s[i])) <==> ws == []
    decreases |s|
  {
    if s == [] then []
    else if IsSpace(s[0]) then Words(s[1..])
    else
      var n := TokenLength(s);
      [s[..n]] + Words(s[n..])
  }

  /** A whitespace character ends the token it follows. */
  lemma {:induction false} TokenEndsAtSpace(a: string, c: char, b: string)
    requires IsSpace(c)
    ensures TokenLength(a + [c] + b) == TokenLength(a)
    decreases |a|
  {
    if a != [] && !IsSpace(a[0]) {
      assert (a + [c] + b)[1..] == a[1..] + [c] + b;
      TokenEndsAtSpace(a[1..], c, b);
    }
  }

  /** A token runs to the end of a line with no whitespace. */
  lemma {:induction false} TokenWhole(s: string)
    requires forall i :: 0 <= i < |s| ==> !IsSpace(s[i])
    ensures TokenLength(s) == |s|
    decreases |s|
  {
    if s != [] {
      assert !IsSpace(s[0]);
      TokenWhole(s[1..]);
    }
  }

  /** A run of non-whitespace characters is one word. */
  lemma WordsOfToken(s: string)
    requires |s| > 0 && forall i :: 0 <= i < |s| ==> !IsSpace(s[i])
    ensures Words(s) == [s]
  {
    TokenWhole(s);
    assert s[..|s|] == s;
    assert s[|s|..] == [];
  }

  /** Splitting at a whitespace character splits the words: the words of a
      line are those of the text before any space followed by those of the
      text after it. With WordsOfToken and Words("") == [] this pins down
      every word of every line. */
  lemma {:induction false} WordsSplit(a: string, c: char, b: string)
    requires IsSpace(c)
    ensures Words(a + [c] + b) == Words(a) + Words(b)
    decreases |a|
  {
    var s := a + [c] + b;
    if a == [] {
      assert s[1..] == b;
    } else if IsSpace(a[0]) {
      assert s[1..] == a[1..] + [c] + b;
      WordsSplit(a[1..], c, b);
    } else {
      var n := TokenLength(a);
      TokenEndsAtSpace(a, c, b);
      assert s[..n] == a[..n];
      assert s[n..] == a[n..] + [c] + b;
      WordsSplit(a[n..], c, b);
    }
  }

  /** One data line: x = float(columns[0]), y = float(columns[1]). An
      empty line or a single column raises IndexError, a bad literal
      ValueError, in the order the code evaluates them. */
  function ParseLine(line: string, toFloat: string -> Option<real>): (r: Result<(real, real)>)
    ensures r.Ok? <==> |Words(line)| >= 2 && toFloat(Words(line)[0]).Some? && toFloat(Words(line)[1]).Some?
    ensures r.Ok? ==> Some(r.value.0) == toFloat(Words(line)[0]) && Some(r.value.1) == toFloat(Words(line)[1])
    ensures r.Err? ==> r.error in {MissingColumn, BadNumber}
  {
    var cols := Words(line);
    if |cols| == 0 then Err(MissingColumn)
    else if toFloat(cols[0]).None? then Err(BadNumber)
    else if |cols| < 2 then Err(MissingColumn)
    else if toFloat(cols[1]).None? then Err(BadNumber)
    else Ok((toFloat(cols[0]).value, toFloat(cols[1]).value))
  }

  /** The data lines parsed in order; the first bad line decides the error. */
  function Parsed(lines: seq<string>, toFloat: string -> Option<real>): (r: Result<Coords>)
    ensures r.Ok? ==> |r.value.xs| == |lines| && |r.value.ys| == |lines|
    decreases |lines|
  {
    if lines == [] then Ok(Coords([], []))
    else
      match Parsed(lines[..|lines| - 1], toFloat)
      case Err(e) => Err(e)
      case Ok(c) =>
        match ParseLine(lines[|lines| - 1], toFloat)
        case Err(e) => Err(e)
        case Ok(p) => Ok(Coords(c.xs + [p.0], c.ys + [p.1]))
  }

  lemma ParsedStep(lines: seq<string>, line: string, toFloat: string -> Option<real>)
    requires Parsed(lines, toFloat).Ok?
    ensures ParseLine(line, toFloat).Err? ==> Parsed(lines + [line], toFloat) == Err(ParseLine(line, toFloat).error)
    ensures ParseLine(line, toFloat).Ok? ==>
      var c, p := Parsed(lines, toFloat).value, ParseLine(line, toFloat).value;
      Parsed(lines + [line], toFloat) == Ok(Coords(c.xs + [p.0], c.ys + [p.1]))
  {
    assert (lines + [line])[..|lines|] == lines;
  }

  lemma {:induction false} ErrorPersists(lines: seq<string>, k: nat, toFloat: string -> Option<real>)
    requires k <= |lines| && Parsed(lines[..k], toFloat).Err?
    ensures Parsed(lines, toFloat) == Parsed(lines[..k], toFloat)
    decreases |lines| - k
  {
    if k < |lines| {
      assert lines[..k + 1][..k] == lines[..k];
      ErrorPersists(lines, k + 1, toFloat);
    } else {
      assert lines[..k] == lines;
    }
  }

  /** Parsing succeeds exactly when every data line has two numeric columns;
      it then yields one point per line, x from column 0 and y from column 1.
      On failure the error is that of the first bad line. */
  lemma {:induction false} ParsedPoints(lines: seq<string>, toFloat: string -> Option<real>)
    ensures Parsed(lines, toFloat).Ok? <==> forall i :: 0 <= i < |lines| ==> ParseLine(lines[i], toFloat).Ok?
    ensures Parsed(lines, toFloat).Ok? ==>
      var c := Parsed(lines, toFloat).value;
      |c.xs| == |lines| && |c.ys| == |lines| &&
      forall i :: 0 <= i < |lines| ==> ParseLine(lines[i], toFloat) == Ok((c.xs[i], c.ys[i]))
    ensures Parsed(lines, toFloat).Err? ==>
      exists i :: 0 <= i < |lines| && ParseLine(lines[i], toFloat) == Err(Parsed(lines, toFloat).error)
        && forall j :: 0 <= j < i ==> ParseLine(lines[j], toFloat).Ok?
    decreases |lines|
  {
    if lines != [] {
      var n := |lines| - 1;
      var init := lines[..n];
      ParsedPoints(init, toFloat);
      assert forall i :: 0 <= i < n ==> init[i] == lines[i];
      match Parsed(init, toFloat)
      case Err(e) =>
        assert Parsed(lines, toFloat) == Err(e);
        var i :| 0 <= i < n && ParseLine(init[i], toFloat) == Err(e) && forall j :: 0 <= j < i ==> ParseLine(init[j], toFloat).Ok?;
        assert ParseLine(lines[i], toFloat) == Err(e);
      case Ok(c) =>
        match ParseLine(lines[n], toFloat)
        case Err(e) =>
          assert Parsed(lines, toFloat) == Err(e);
        case Ok(pt) =>
          var c' := Coords(c.xs + [pt.0], c.ys + [pt.1]);
          assert Parsed(lines, toFloat) == Ok(c');
          forall i | 0 <= i < |lines|
            ensures ParseLine(lines[i], toFloat) == Ok((c'.xs[i], c'.ys[i]))
          {
            if i < n {
              assert c'.xs[i] == c.xs[i] && c'.ys[i] == c.ys[i];
            }
          }
    }
  }

  /** Python's sum over a list of floats, starting from 0. */
  function RSum(xs: seq<real>): real
    decreases |xs|
  {
    if xs == [] then 0.0 else RSum(xs[..|xs| - 1]) + xs[|xs| - 1]
  }

  /** [x - m for x in xs] */
  function Shift(xs: seq<real>, m: real): (r: seq<real>)
    ensures |r| == |xs|
  {
    seq(|xs|, i requires 0 <= i < |xs| => xs[i] - m)
  }

  /** The outline of an airfoil, as shape() returns it or the exception it raises. */
  function ShapeOf(files: string -> Option<seq<string>>, toFloat: string -> Option<real>, a: Airfoil)
    : (r: Result<Outline>)
  {
    match files(OutlinePath(a.name))
    case None => Err(FileNotFound)
    case Some(lines) =>
      if lines == [] then Err(MissingHeader)
      else
        match Parsed(lines[1..], toFloat)
        case Err(e) => Err(e)
        case Ok(raw) =>
          if |raw.xs| == 0 then Err(DivisionByZero) else Ok(Centered(raw))
  }

  /** The coordinates centered on their means. */
  function Centered(raw: Coords): Outline
    requires |raw.xs| == |raw.ys| > 0
  {
    Coords(Shift(raw.xs, RSum(raw.xs) / |raw.xs| as real), Shift(raw.ys, RSum(raw.ys) / |raw.ys| as real))
  }

  lemma {:induction false} SumOfShift(xs: seq<real>, m: real)
    ensures RSum(Shift(xs, m)) == RSum(xs) - |xs| as real * m
    decreases |xs|
  {
    if xs != [] {
      var init := xs[..|xs| - 1];
      assert Shift(xs, m)[..|xs| - 1] == Shift(init, m);
      SumOfShift(init, m);
    }
  }

  /** Subtracting the mean leaves a list whose sum is zero. */
  lemma CenteredSumIsZero(xs: seq<real>)
    requires |xs| > 0
    ensures RSum(Shift(xs, RSum(xs) / |xs| as real)) == 0.0
  {
    var n := |xs| as real;
    SumOfShift(xs, RSum(xs) / n);
    assert n * (RSum(xs) / n) == RSum(xs);
  }

  /** Centering is a translation to the origin: both lists then sum to
      zero and the differences between points are unchanged. */
  lemma CenteringTranslates(raw: Coords)
    requires |raw.xs| == |raw.ys| > 0
    ensures RSum(Centered(raw).xs) == 0.0 && RSum(Centered(raw).ys) == 0.0
    ensures forall i, j :: 0 <= i < |raw.xs| && 0 <= j < |raw.xs| ==>
      Centered(raw).xs[i] - Centered(raw).xs[j] == raw.xs[i] - raw.xs[j] &&
      Centered(raw).ys[i] - Centered(raw).ys[j] == raw.ys[i] - raw.ys[j]
  {
    CenteredSumIsZero(raw.xs);
    CenteredSumIsZero(raw.ys);
  }

  /** What shape() promises: the file must exist and have a header line;
      it then succeeds exactly when there is at least one data line and
      every data line has two numeric columns. The result has one point
      per data line and is the parsed outline centered on its means. */
  lemma ShapeContract(files: string -> Option<seq<string>>, toFloat: string -> Option<real>, a: Airfoil)
    ensures ShapeOf(files, toFloat, a).Ok? <==>
      files(OutlinePath(a.name)).Some? && |files(OutlinePath(a.name)).value| >= 2 &&
      forall i :: 1 <= i < |files(OutlinePath(a.name)).value| ==>
        ParseLine(files(OutlinePath(a.name)).value[i], toFloat).Ok?
    ensures ShapeOf(files, toFloat, a).Ok? ==>
      var lines := files(OutlinePath(a.name)).value;
      var raw := Parsed(lines[1..], toFloat).value;
      |raw.xs| == |lines| - 1 && ShapeOf(files, toFloat, a).value == Centered(raw) &&
      forall i :: 0 <= i < |raw.xs| ==> ParseLine(lines[i + 1], toFloat) == Ok((raw.xs[i], raw.ys[i]))
  {
    var file := files(OutlinePath(a.name));
    if file.Some? && file.value != [] {
      var lines := file.value;
      var data := lines[1..];
      ParsedPoints(data, toFloat);
      assert forall i :: 1 <= i < |lines| ==> lines[i] == data[i - 1];
    }
  }
}
