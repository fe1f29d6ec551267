/** The drift estimator: linear regression over the last 200 fill levels. */
module Drift {
  import opened Audio

  const WINDOW_SIZE: nat := 200

  /** The window is one second of full packets. */
  lemma WindowIsOneSecond()
    ensures WINDOW_SIZE * DEFAULT_FRAMES_PER_PACKET == SAMPLE_RATE
  {
  }

  // ---------------------------------------------------------------- regression sums

  /** Sum of 0, 1, .., n - 1 and of their squares. */
  function SumX(n: nat): real { if n == 0 then 0.0 else SumX(n - 1) + (n - 1) as real }
  function SumXX(n: nat): real { if n == 0 then 0.0 else SumXX(n - 1) + (n - 1) as real * (n - 1) as real }

  /** Sums over a window whose oldest sample is at x = 0. */
  function SumY(ys: seq<real>): real {
    if ys == [] then 0.0 else SumY(ys[..|ys| - 1]) + ys[|ys| - 1]
  }

  function SumXY(ys: seq<real>): real {
    if ys == [] then 0.0 else SumXY(ys[..|ys| - 1]) + (|ys| - 1) as real * ys[|ys| - 1]
  }

  function SumYY(ys: seq<real>): real {
    if ys == [] then 0.0 else SumYY(ys[..|ys| - 1]) + Square(ys[|ys| - 1])
  }

  /** Numerator and denominator of the slope, from the sums over `n` samples. */
  function Cross(n: real, sx: real, sy: real, sxy: real): real { n * sxy - sx * sy }
  function Det(n: real, sx: real, sxx: real): real { n * sxx - sx * sx }

  function Ratio(x: real, d: real): real { if d == 0.0 then 0.0 else x / d }

  /** The estimate as the code computes it, with its guard against a vanishing denominator. */
  function Estimate(n: real, sx: real, sy: real, sxy: real, sxx: real): real {
    var denom := Det(n, sx, sxx);
    if -0.0000000001 < denom < 0.0000000001 then 0.0
    else
      var slope := Cross(n, sx, sy, sxy) / denom;
      slope / 221.0 * 1_000_000.0
  }

  function Ppm(ys: seq<real>): real {
    Estimate(|ys| as real, SumX(|ys|), SumY(ys), SumXY(ys), SumXX(|ys|))
  }

  function Numerator(ys: seq<real>): real { Cross(|ys| as real, SumX(|ys|), SumY(ys), SumXY(ys)) }

  function Denominator(n: nat): real { Det(n as real, SumX(n), SumXX(n)) }

  // ---------------------------------------------------------------- the estimator

  /** Each of the last pushes lies at its number modulo the size. */
  ghost predicate Circular(samples: seq<real>, history: seq<real>) {
    && |samples| == WINDOW_SIZE
    && forall k :: 0 <= k < |history| && |history| <= k + WINDOW_SIZE ==> samples[k % WINDOW_SIZE] == history[k]
  }

  class DriftEstimator {
    const samples: array<real>
    var writePos: nat
    var filled: bool
    ghost var history: seq<real>

    /** The circular buffer holds the last pushes, each at its number modulo the size. */
    ghost predicate Valid()
      reads this, samples
    {
      && samples.Length == WINDOW_SIZE
      && writePos == |history| % WINDOW_SIZE && filled == (|history| >= WINDOW_SIZE)
      && Circular(samples[..], history)
    }

    constructor ()
      ensures Valid() && history == [] && fresh(samples)
    {
      samples := new real[WINDOW_SIZE](_ => 0.0);
      writePos, filled, history := 0, false, [];
    }

    method Push(fillLevelFrames: nat)
      requires Valid()
      modifies this, samples
      ensures Valid() && history == old(history) + [fillLevelFrames as real]
    {
      hide Circular;
      ghost var n := |history|;
      samples[writePos] := fillLevelFrames as real;
      writePos := writePos + 1;
      if writePos >= WINDOW_SIZE {
        writePos := 0;
        filled := true;
      }
      history := history + [fillLevelFrames as real];
      PushCircular(old(samples[..]), old(history), fillLevelFrames as real);
      assert samples[..] == old(samples[..])[n % WINDOW_SIZE := fillLevelFrames as real];
      NextModulo(n);
    }

    /** None before 200 pushes; then the regression over exactly the last 200, oldest first. */
    method EstimatePpm() returns (r: Option<real>)
      requires Valid()
      ensures r == if |history| < WINDOW_SIZE then None else Some(Ppm(history[|history| - WINDOW_SIZE..]))
    {
      if !filled {
        return None;
      }
      hide Circular;
      hide Estimate;
      hide SumX;
      hide SumXX;
      hide SumY;
      hide SumXY;
      ghost var window := history[|history| - WINDOW_SIZE..];
      NoSums();
      var sumX, sumY, sumXY, sumXX := 0.0, 0.0, 0.0, 0.0;
      assert window[..0] == [];
      for i := 0 to WINDOW_SIZE
        invariant sumX == SumX(i) && sumXX == SumXX(i)
        invariant sumY == SumY(window[..i]) && sumXY == SumXY(window[..i])
      {
        var idx := (writePos + i) % WINDOW_SIZE;
        OldestFirst(samples[..], history, i);
        var x := i as real;
        var y := samples[idx];
        SumsStep(window, i, x, y);
        sumX := sumX + x;
        sumY := sumY + y;
        sumXY := sumXY + x * y;
        sumXX := sumXX + x * x;
      }
      assert window[..WINDOW_SIZE] == window;
      r := Some(Estimate(WINDOW_SIZE as real, sumX, sumY, sumXY, sumXX));
    }
  }

  lemma NoSums()
    ensures SumX(0) == SumXX(0) == SumY([]) == SumXY([]) == 0.0
  {
  }

  lemma SumsStep(ys: seq<real>, i: nat, x: real, y: real)
    requires i < |ys| && x == i as real && y == ys[i]
    ensures SumX(i + 1) == SumX(i) + x && SumXX(i + 1) == SumXX(i) + x * x
    ensures SumY(ys[..i + 1]) == SumY(ys[..i]) + y
    ensures SumXY(ys[..i + 1]) == SumXY(ys[..i]) + x * y
  {
    assert ys[..i + 1][..i] == ys[..i];
  }

  lemma NextModulo(n: nat)
    ensures (n + 1) % WINDOW_SIZE == if n % WINDOW_SIZE + 1 >= WINDOW_SIZE then 0 else n % WINDOW_SIZE + 1
    ensures n % WINDOW_SIZE + 1 >= WINDOW_SIZE ==> n + 1 >= WINDOW_SIZE
    ensures n + 1 >= WINDOW_SIZE ==> n >= WINDOW_SIZE || n % WINDOW_SIZE + 1 >= WINDOW_SIZE
  {
  }

  lemma PushCircular(samples: seq<real>, history: seq<real>, y: real)
    requires Circular(samples, history)
    ensures Circular(samples[|history| % WINDOW_SIZE := y], history + [y])
  {
    var n := |history|;
    forall k | 0 <= k < n && n < k + WINDOW_SIZE ensures k % WINDOW_SIZE != n % WINDOW_SIZE {
      assert n == WINDOW_SIZE * (n / WINDOW_SIZE) + n % WINDOW_SIZE;
      assert k == WINDOW_SIZE * (k / WINDOW_SIZE) + k % WINDOW_SIZE;
    }
  }

  /** The slot read in round `i` holds the `i`-th oldest of the last 200 pushes. */
  lemma OldestFirst(samples: seq<real>, history: seq<real>, i: nat)
    requires Circular(samples, history) && WINDOW_SIZE <= |history| && i < WINDOW_SIZE
    ensures samples[(|history| % WINDOW_SIZE + i) % WINDOW_SIZE] == history[|history| - WINDOW_SIZE..][i]
  {
    var n := |history|;
    assert (n % WINDOW_SIZE + i) % WINDOW_SIZE == (n - WINDOW_SIZE + i) % WINDOW_SIZE;
    assert samples[(n - WINDOW_SIZE + i) % WINDOW_SIZE] == history[n - WINDOW_SIZE + i];
  }

  // ---------------------------------------------------------------- the denominator

  lemma {:induction false} SumClosedForms(n: nat)
    ensures 2.0 * SumX(n) == n as real * (n as real - 1.0)
    ensures 6.0 * SumXX(n) == (n as real - 1.0) * n as real * (2.0 * n as real - 1.0)
  {
    if n > 0 {
      SumClosedForms(n - 1);
      var m := (n - 1) as real;
      assert n as real == m + 1.0;
      assert 6.0 * SumXX(n) == (m - 1.0) * m * (2.0 * m - 1.0) + 6.0 * (m * m);
      assert (m - 1.0) * m * (2.0 * m - 1.0) + 6.0 * (m * m) == m * (m + 1.0) * (2.0 * m + 1.0);
    }
  }

  /** The denominator is n^2 (n^2 - 1) / 12, so the guard never fires on two or more samples. */
  lemma DenominatorIs(n: nat)
    ensures 12.0 * Denominator(n) == n as real * n as real * (n as real * n as real - 1.0)
    ensures n >= 2 ==> Denominator(n) >= 1.0
  {
    SumClosedForms(n);
    var x := n as real;
    var sx, sxx := SumX(n), SumXX(n);
    assert sx == x * (x - 1.0) / 2.0;
    assert sxx == (x - 1.0) * x * (2.0 * x - 1.0) / 6.0;
    DenominatorAlgebra(x);
    if n >= 2 {
      assert x * x >= 4.0;
      assert (x * x) * (x * x - 1.0) >= 4.0 * 3.0;
    }
  }

  lemma DenominatorAlgebra(x: real)
    ensures 12.0 * (x * ((x - 1.0) * x * (2.0 * x - 1.0) / 6.0) - (x * (x - 1.0) / 2.0) * (x * (x - 1.0) / 2.0))
      == x * x * (x * x - 1.0)
  {
    var a := x * (x - 1.0);
    assert x * ((x - 1.0) * x * (2.0 * x - 1.0) / 6.0) == a * x * (2.0 * x - 1.0) / 6.0;
    assert (a / 2.0) * (a / 2.0) == a * a / 4.0;
    assert 12.0 * (a * x * (2.0 * x - 1.0) / 6.0) == a * (4.0 * x * x - 2.0 * x);
    assert 12.0 * (a * a / 4.0) == a * (3.0 * x * x - 3.0 * x);
    assert a * (4.0 * x * x - 2.0 * x) - a * (3.0 * x * x - 3.0 * x) == a * (x * x + x);
    assert a * (x * x + x) == x * x * (x * x - 1.0);
  }

  // ---------------------------------------------------------------- least squares

  /** Squared error of the line `a + b x` over the window. */
  function SquaredError(ys: seq<real>, a: real, b: real): real {
    if ys == [] then 0.0
    else SquaredError(ys[..|ys| - 1], a, b) + SquaredResidual(ys[|ys| - 1], a, b, (|ys| - 1) as real)
  }

  function SquaredResidual(y: real, a: real, b: real, x: real): real { Square(y - a - b * x) }

  /** The least-squares line through the window. */
  function Slope(ys: seq<real>): real { Ratio(Numerator(ys), Denominator(|ys|)) }

  function Intercept(ys: seq<real>): real { Offset(SumY(ys), Slope(ys), SumX(|ys|), |ys| as real) }

  function Offset(sy: real, b: real, sx: real, n: real): real { Ratio(sy - b * sx, n) }

  function Expanded(n: real, sx: real, sxx: real, sy: real, sxy: real, syy: real, a: real, b: real): real {
    syy - 2.0 * (a * sy) - 2.0 * (b * sxy) + n * (a * a) + 2.0 * (a * b * sx) + b * b * sxx
  }

  lemma SquareExpands(y: real, a: real, b: real, x: real)
    ensures SquaredResidual(y, a, b, x)
      == Square(y) - 2.0 * (a * y) - 2.0 * (b * (x * y)) + a * a + 2.0 * (a * b * x) + b * b * (x * x)
  {
    var c := b * x;
    assert (y - a - c) * (y - a - c) == y * y + a * a + c * c - 2.0 * (a * y) - 2.0 * (c * y) + 2.0 * (a * c);
    assert c * y == b * (x * y) && a * c == a * b * x && c * c == b * b * (x * x);
  }

  lemma ExpandedStep(n: real, sx: real, sxx: real, sy: real, sxy: real, syy: real, a: real, b: real, x: real, y: real)
    ensures Expanded(n + 1.0, sx + x, sxx + x * x, sy + y, sxy + x * y, syy + Square(y), a, b)
      == Expanded(n, sx, sxx, sy, sxy, syy, a, b)
         + (Square(y) - 2.0 * (a * y) - 2.0 * (b * (x * y)) + a * a + 2.0 * (a * b * x) + b * b * (x * x))
  {
    assert a * (sy + y) == a * sy + a * y;
    assert b * (sxy + x * y) == b * sxy + b * (x * y);
    assert (n + 1.0) * (a * a) == n * (a * a) + a * a;
    assert a * b * (sx + x) == a * b * sx + a * b * x;
    assert b * b * (sxx + x * x) == b * b * sxx + b * b * (x * x);
  }

  lemma ExpandedZero(a: real, b: real)
    ensures Expanded(0.0, 0.0, 0.0, 0.0, 0.0, 0.0, a, b) == 0.0
  {
    assert b * b * 0.0 == 0.0 && a * b * 0.0 == 0.0;
  }

  lemma {:induction false} ErrorExpands(ys: seq<real>, a: real, b: real)
    ensures SquaredError(ys, a, b)
      == Expanded(|ys| as real, SumX(|ys|), SumXX(|ys|), SumY(ys), SumXY(ys), SumYY(ys), a, b)
  {
    hide Expanded;
    if ys == [] {
      ExpandedZero(a, b);
    } else {
      hide SumX;
      hide SumXX;
      hide SumY;
      hide SumXY;
      hide SumYY;
      hide SquaredError;
      hide SquaredResidual;
      hide Square;
      var m := |ys| - 1;
      var front, x, y := ys[..m], m as real, ys[m];
      ErrorExpands(front, a, b);
      ErrorStep(ys, a, b, x, y);
      SquareExpands(y, a, b, x);
      ExpandedStep(x, SumX(m), SumXX(m), SumY(front), SumXY(front), SumYY(front), a, b, x, y);
      SumsStep(ys, m, x, y);
      assert ys[..m + 1] == ys && |ys| as real == x + 1.0;
    }
  }

  lemma ErrorStep(ys: seq<real>, a: real, b: real, x: real, y: real)
    requires ys != [] && x == (|ys| - 1) as real && y == ys[|ys| - 1]
    ensures SquaredError(ys, a, b) == SquaredError(ys[..|ys| - 1], a, b) + SquaredResidual(y, a, b, x)
    ensures SumYY(ys) == SumYY(ys[..|ys| - 1]) + Square(y)
  {
    hide SquaredResidual;
    hide Square;
  }

  /** The two normal equations. */
  lemma NormalEquations(n: real, sx: real, sxx: real, sy: real, sxy: real, a: real, b: real)
    requires n > 0.0 && Det(n, sx, sxx) > 0.0
    requires b == Ratio(Cross(n, sx, sy, sxy), Det(n, sx, sxx)) && a == Offset(sy, b, sx, n)
    ensures n * a + b * sx == sy
    ensures a * sx + b * sxx == sxy
  {
    var d := n * sxx - sx * sx;
    assert b * d == n * sxy - sx * sy;
    assert n * a == sy - b * sx;
    assert n * (a * sx + b * sxx) == (n * a) * sx + b * (n * sxx);
    assert (n * a) * sx == sy * sx - b * (sx * sx);
    assert b * (n * sxx) - b * (sx * sx) == b * d;
    assert n * (a * sx + b * sxx) == n * sxy;
    Cancel(n, a * sx + b * sxx, sxy);
  }

  lemma Cancel(n: real, u: real, v: real)
    requires n != 0.0 && n * u == n * v
    ensures u == v
  {
    assert n * (u - v) == 0.0;
  }

  function Gap(n: real, sx: real, sxx: real, da: real, db: real): real {
    n * (da * da) + 2.0 * (da * db * sx) + db * db * sxx
  }

  /** How much worse a line is than the one that satisfies the normal equations. */
  lemma ErrorGap(n: real, sx: real, sxx: real, sy: real, sxy: real, syy: real, a: real, b: real, a': real, b': real)
    requires n * a + b * sx == sy && a * sx + b * sxx == sxy
    ensures var da, db := a' - a, b' - b;
      Expanded(n, sx, sxx, sy, sxy, syy, a', b') - Expanded(n, sx, sxx, sy, sxy, syy, a, b)
      == Gap(n, sx, sxx, da, db)
  {
    var da, db := a' - a, b' - b;
    var linear := da * (n * a + b * sx - sy) + db * (a * sx + b * sxx - sxy);
    assert linear == 0.0;
    GapAlgebra(n, sx, sxx, sy, sxy, a, b, da, db);
    assert a' == a + da && b' == b + db;
  }

  lemma GapAlgebra(n: real, sx: real, sxx: real, sy: real, sxy: real, a: real, b: real, da: real, db: real)
    ensures Expanded(n, sx, sxx, sy, sxy, 0.0, a + da, b + db) - Expanded(n, sx, sxx, sy, sxy, 0.0, a, b)
      == n * (da * da) + 2.0 * (da * db * sx) + db * db * sxx
         + 2.0 * (da * (n * a + b * sx - sy) + db * (a * sx + b * sxx - sxy))
  {
    assert (a + da) * sy == a * sy + da * sy;
    assert (b + db) * sxy == b * sxy + db * sxy;
    assert n * ((a + da) * (a + da)) == n * (a * a) + 2.0 * (n * a * da) + n * (da * da);
    assert (a + da) * (b + db) * sx == a * b * sx + a * db * sx + da * b * sx + da * db * sx;
    assert (b + db) * (b + db) * sxx == b * b * sxx + 2.0 * (b * db * sxx) + db * db * sxx;
    assert da * (n * a + b * sx - sy) == n * a * da + da * b * sx - da * sy;
    assert db * (a * sx + b * sxx - sxy) == a * db * sx + b * db * sxx - db * sxy;
  }

  function Square(x: real): real { x * x }
  function Weighted(x: real, d: real): real { Square(x) * d }

  lemma ScaledGap(n: real, sx: real, sxx: real, da: real, db: real)
    ensures n * Gap(n, sx, sxx, da, db) == Square(n * da + db * sx) + Weighted(db, Det(n, sx, sxx))
  {
    var u := n * da + db * sx;
    assert u * u == n * n * (da * da) + 2.0 * (n * (da * db * sx)) + db * db * (sx * sx);
    assert n * Gap(n, sx, sxx, da, db) == n * n * (da * da) + 2.0 * (n * (da * db * sx)) + n * (db * db * sxx);
    assert n * (db * db * sxx) - db * db * (sx * sx) == (db * db) * (n * sxx - sx * sx);
  }

  lemma ProductPositive(p: real, d: real, y: real)
    requires p > 0.0 && d > 0.0 && y == p * d
    ensures y > 0.0
  {
  }

  lemma SquareIsProduct(x: real)
    ensures Square(x) == x * x
  {
  }

  lemma SquareNegated(x: real)
    ensures Square(0.0 - x) == Square(x) && Square(0.0) == 0.0
  {
  }

  lemma SquareSign(x: real)
    ensures Square(x) >= 0.0 && (x != 0.0 ==> Square(x) > 0.0)
  {
    hide Square;
    SquareNegated(x);
    if x > 0.0 {
      SquareIsProduct(x);
      ProductPositive(x, x, Square(x));
    } else if x < 0.0 {
      SquareIsProduct(0.0 - x);
      ProductPositive(0.0 - x, 0.0 - x, Square(x));
    }
  }

  lemma WeightedSign(x: real, d: real)
    requires d > 0.0
    ensures Weighted(x, d) >= 0.0 && (Weighted(x, d) == 0.0 ==> x == 0.0)
  {
    hide Square;
    SquareSign(x);
    MultiplySign(Square(x), d);
  }

  lemma MultiplySign(p: real, d: real)
    requires p >= 0.0 && d > 0.0
    ensures p * d >= 0.0 && (p > 0.0 ==> p * d > 0.0)
  {
  }

  lemma GapPositive(n: real, sx: real, sxx: real, da: real, db: real)
    requires n > 0.0 && Det(n, sx, sxx) > 0.0
    ensures Gap(n, sx, sxx, da, db) >= 0.0
    ensures Gap(n, sx, sxx, da, db) == 0.0 ==> db == 0.0
  {
    hide Gap;
    hide Det;
    hide Square;
    hide Weighted;
    var u := n * da + db * sx;
    ScaledGap(n, sx, sxx, da, db);
    SquareSign(u);
    WeightedSign(db, Det(n, sx, sxx));
    QuotientOfSum(n, Gap(n, sx, sxx, da, db), Square(u), Weighted(db, Det(n, sx, sxx)));
  }

  lemma QuotientOfSum(n: real, gap: real, p: real, q: real)
    requires n > 0.0 && n * gap == p + q && p >= 0.0 && q >= 0.0
    ensures gap >= 0.0 && (gap == 0.0 ==> q == 0.0)
  {
    assert gap == (p + q) / n;
  }

  /** The slope is the least-squares slope: no line has a smaller squared error, and only lines of this
      slope can have as small a one. */
  lemma LeastSquares(ys: seq<real>, a: real, b: real)
    requires |ys| >= 2
    ensures SquaredError(ys, Intercept(ys), Slope(ys)) <= SquaredError(ys, a, b)
    ensures SquaredError(ys, a, b) == SquaredError(ys, Intercept(ys), Slope(ys)) ==> b == Slope(ys)
  {
    hide Expanded;
    hide SquaredError;
    hide SumX;
    hide SumXX;
    hide SumY;
    hide SumXY;
    hide SumYY;
    hide Slope;
    hide Intercept;
    hide Ratio;
    hide Offset;
    hide Det;
    hide Cross;
    var n, sx, sxx, sy, sxy := |ys| as real, SumX(|ys|), SumXX(|ys|), SumY(ys), SumXY(ys);
    LineIs(ys);
    ErrorExpands(ys, a, b);
    ErrorExpands(ys, Intercept(ys), Slope(ys));
    BestLine(n, sx, sxx, sy, sxy, SumYY(ys), Intercept(ys), Slope(ys), a, b);
  }

  lemma LineIs(ys: seq<real>)
    requires |ys| >= 2
    ensures var n, sx, sxx, sy, sxy := |ys| as real, SumX(|ys|), SumXX(|ys|), SumY(ys), SumXY(ys);
      && Det(n, sx, sxx) > 0.0
      && Slope(ys) == Ratio(Cross(n, sx, sy, sxy), Det(n, sx, sxx))
      && Intercept(ys) == Offset(sy, Slope(ys), sx, n)
  {
    hide Det;
    hide Cross;
    hide Ratio;
    hide Offset;
    DenominatorIs(|ys|);
  }

  lemma BestLine(n: real, sx: real, sxx: real, sy: real, sxy: real, syy: real, a: real, b: real, a': real, b': real)
    requires n > 0.0 && Det(n, sx, sxx) > 0.0
    requires b == Ratio(Cross(n, sx, sy, sxy), Det(n, sx, sxx)) && a == Offset(sy, b, sx, n)
    ensures Expanded(n, sx, sxx, sy, sxy, syy, a, b) <= Expanded(n, sx, sxx, sy, sxy, syy, a', b')
    ensures Expanded(n, sx, sxx, sy, sxy, syy, a', b') == Expanded(n, sx, sxx, sy, sxy, syy, a, b) ==> b' == b
  {
    hide Expanded;
    hide Gap;
    hide Det;
    hide Cross;
    hide Ratio;
    hide Offset;
    NormalEquations(n, sx, sxx, sy, sxy, a, b);
    ErrorGap(n, sx, sxx, sy, sxy, syy, a, b, a', b');
    GapPositive(n, sx, sxx, a' - a, b' - b);
  }

  // ---------------------------------------------------------------- the sign

  ghost predicate NonDecreasing(ys: seq<real>) { forall i, j :: 0 <= i < j < |ys| ==> ys[i] <= ys[j] }
  ghost predicate NonIncreasing(ys: seq<real>) { forall i, j :: 0 <= i < j < |ys| ==> ys[i] >= ys[j] }

  /** What a new sample `y` adds to the numerator: the sum of (n - i) (y - ys[i]). */
  function Lift(ys: seq<real>, y: real, n: nat): real {
    if ys == [] then 0.0
    else
      var m := |ys| - 1;
      Lift(ys[..m], y, n) + Times(n as real - m as real, y - ys[m])
  }

  function Times(a: real, b: real): real { a * b }

  function LiftForm(r: real, x: real, sx: real, sy: real, sxy: real, y: real): real {
    r * (x * y) - sx * y - r * sy + sxy
  }

  lemma LiftFormStep(r: real, x: real, sx: real, sy: real, sxy: real, y: real, v: real)
    ensures LiftForm(r, x + 1.0, sx + x, sy + v, sxy + x * v, y) == LiftForm(r, x, sx, sy, sxy, y) + Times(r - x, y - v)
  {
    assert (r - x) * (y - v) == r * y - x * y - r * v + x * v;
    assert r * ((x + 1.0) * y) == r * (x * y) + r * y;
    assert (sx + x) * y == sx * y + x * y;
    assert r * (sy + v) == r * sy + r * v;
  }

  lemma {:induction false} LiftIs(ys: seq<real>, y: real, n: nat)
    ensures Lift(ys, y, n) == LiftForm(n as real, |ys| as real, SumX(|ys|), SumY(ys), SumXY(ys), y)
  {
    if ys == [] {
      assert LiftForm(n as real, 0.0, 0.0, 0.0, 0.0, y) == 0.0;
    } else {
      hide LiftForm;
      hide Times;
      var m := |ys| - 1;
      var x, v := m as real, ys[m];
      LiftIs(ys[..m], y, n);
      LiftFormStep(n as real, x, SumX(m), SumY(ys[..m]), SumXY(ys[..m]), y, v);
      SumsStep(ys, m, x, v);
      assert ys[..m + 1] == ys && |ys| as real == x + 1.0;
    }
  }

  lemma NumeratorGrows(ys: seq<real>, y: real)
    ensures Numerator(ys + [y]) == Numerator(ys) + Lift(ys, y, |ys|)
  {
    hide Lift;
    hide LiftForm;
    hide Cross;
    hide SumX;
    hide SumXX;
    hide SumY;
    hide SumXY;
    var n := |ys| as real;
    LiftIs(ys, y, |ys|);
    var zs := ys + [y];
    assert zs[..|ys| + 1] == zs && zs[..|ys|] == ys;
    SumsStep(zs, |ys|, n, y);
    CrossGrows(n, SumX(|ys|), SumY(ys), SumXY(ys), y);
    assert |zs| as real == n + 1.0;
  }

  lemma CrossGrows(n: real, sx: real, sy: real, sxy: real, y: real)
    ensures Cross(n + 1.0, sx + n, sy + y, sxy + n * y) == Cross(n, sx, sy, sxy) + LiftForm(n, n, sx, sy, sxy, y)
  {
    assert (n + 1.0) * (sxy + n * y) == n * sxy + n * (n * y) + sxy + n * y;
    assert (sx + n) * (sy + y) == sx * sy + sx * y + n * sy + n * y;
  }

  lemma {:induction false} LiftSign(ys: seq<real>, y: real, n: nat)
    requires |ys| <= n
    ensures (forall i :: 0 <= i < |ys| ==> ys[i] <= y) ==> Lift(ys, y, n) >= 0.0
    ensures (forall i :: 0 <= i < |ys| ==> ys[i] >= y) ==> Lift(ys, y, n) <= 0.0
  {
    hide Times;
    if ys != [] {
      var m := |ys| - 1;
      LiftSign(ys[..m], y, n);
      ProductSign(n as real - m as real, y - ys[m]);
    }
  }

  lemma ProductSign(k: real, x: real)
    requires k >= 0.0
    ensures x >= 0.0 ==> Times(k, x) >= 0.0
    ensures x <= 0.0 ==> Times(k, x) <= 0.0
  {
  }

  lemma {:induction false} NumeratorSign(ys: seq<real>)
    ensures NonDecreasing(ys) ==> Numerator(ys) >= 0.0
    ensures NonIncreasing(ys) ==> Numerator(ys) <= 0.0
  {
    if ys == [] {
      assert Numerator(ys) == 0.0 * 0.0 - 0.0 * 0.0;
    } else {
      var m := |ys| - 1;
      NumeratorSign(ys[..m]);
      NumeratorGrows(ys[..m], ys[m]);
      assert ys[..m] + [ys[m]] == ys;
      LiftSign(ys[..m], ys[m], m);
    }
  }

  /** A window that never falls gives a drift of at least 0 ppm, one that never rises at most 0, and the
      estimate is the least-squares slope in the code's unit. */
  lemma PpmSign(ys: seq<real>)
    requires |ys| >= 2
    ensures Ppm(ys) == Slope(ys) / 221.0 * 1_000_000.0
    ensures NonDecreasing(ys) ==> Ppm(ys) >= 0.0
    ensures NonIncreasing(ys) ==> Ppm(ys) <= 0.0
  {
    hide Cross;
    hide Det;
    DenominatorIs(|ys|);
    NumeratorSign(ys);
    QuotientSign(Numerator(ys), Denominator(|ys|));
  }

  lemma QuotientSign(x: real, d: real)
    requires d > 0.0
    ensures x >= 0.0 ==> x / d >= 0.0
    ensures x <= 0.0 ==> x / d <= 0.0
  {
    assert (0.0 - x) / d == 0.0 - x / d;
    assert x <= 0.0 ==> (0.0 - x) / d >= 0.0;
  }
}
