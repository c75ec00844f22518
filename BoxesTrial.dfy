/**
 * One evaluation of an evolved network against one "boxes" trial: the
 * network sees a square raster of the trial, its strongest output cell is
 * its guess, and two running sums of distance error and range bonus become
 * a fitness score.
 */
module BoxesTrial {
  import opened JavaNumerics

  // ---------------------------------------------------------------------
  // Input rasterisation
  // ---------------------------------------------------------------------

  /** Width of one raster cell in the domain [-1, 1]. */
  function PixelSize(resolution: int): real
    requires resolution != 0
  {
    2.0 / resolution as real
  }

  /** The centre coordinate of cell `k` along one axis. */
  function Coord(resolution: int, k: int): real
    requires resolution != 0
  {
    -1.0 + PixelSize(resolution) / 2.0 + k as real * PixelSize(resolution)
  }

  /** Row `y` of the raster: the samples of the cells `(0, y) .. (resolution - 1, y)`. */
  function Row(pixel: (real, real) -> real, resolution: nat, y: int): (r: seq<real>)
    requires resolution > 0
    ensures |r| == resolution
  {
    seq(resolution, x requires 0 <= x < resolution => pixel(Coord(resolution, x), Coord(resolution, y)))
  }

  /** The first `rows` rows of the raster, top to bottom. */
  function Rows(pixel: (real, real) -> real, resolution: nat, rows: nat): (r: seq<real>)
    requires resolution > 0
    decreases rows
  {
    if rows == 0 then [] else Rows(pixel, resolution, rows - 1) + Row(pixel, resolution, rows - 1)
  }

  /**
   * The input vector of a query: `resolution * resolution` samples in
   * row-major order; for a resolution that is not positive the sampling
   * loops do not run and the vector keeps its zero initial values.
   */
  function Raster(pixel: (real, real) -> real, resolution: int): seq<real> {
    if resolution > 0 then Rows(pixel, resolution, resolution)
    else seq(resolution * resolution, _ => 0.0)
  }

  // ---------------------------------------------------------------------
  // The activation scan
  // ---------------------------------------------------------------------

  /** Running maximum, running minimum and index of the maximum. */
  datatype ScanState = ScanState(max: Extended, min: Extended, idx: int)

  const ScanStart := ScanState(NegInf, PosInf, 0)

  /**
   * One step of the scan over element `d` at index `i`: a new strict
   * maximum is recorded with its index; only an element that is not a new
   * maximum is compared with the minimum.
   */
  function Step(st: ScanState, d: real, i: int): ScanState {
    if Exceeds(d, st.max) then st.(max := Finite(d), idx := i)
    else if Undercuts(d, st.min) then st.(min := Finite(d))
    else st
  }

  /** The state after scanning `s` from left to right. */
  function Scan(s: seq<real>): ScanState
    decreases |s|
  {
    if |s| == 0 then ScanStart else Step(Scan(s[..|s| - 1]), s[|s| - 1], |s| - 1)
  }

  /** Element `j` is larger than every element before it, so the scan records it as the maximum. */
  ghost predicate RaisesMax(s: seq<real>, j: int)
    requires 0 <= j < |s|
  {
    forall k :: 0 <= k < j ==> s[k] < s[j]
  }

  /** Splits the flat index `idx` into column `x` and row `y`, with Java's integer division. */
  function ToPair(idx: int, resolution: int): (p: QueryOutcome)
    ensures resolution == 0 <==> p == DivisionByZero
  {
    if resolution == 0 then DivisionByZero
    else
      var y := Div(idx, resolution);
      Pair(idx - y * resolution, y)
  }

  /** What `query` produces: a grid coordinate, or the arithmetic exception of a zero resolution. */
  datatype QueryOutcome = Pair(x: int, y: int) | DivisionByZero

  // ---------------------------------------------------------------------
  // The fitness formula
  // ---------------------------------------------------------------------

  /** Number of distance samples a canonical trial accumulates. */
  const DistanceSamples: real := 75.0
  /** Divisor that scales the accumulated range bonus. */
  const RangeDivisor: real := 7.5
  /** The accuracy part of the score for a perfect guess. */
  const AccuracyScale: real := 100.0

  /** `sqrt` is a square root at `x`. */
  ghost predicate RootAt(sqrt: real -> real, x: real) {
    sqrt(x) >= 0.0 && sqrt(x) * sqrt(x) == x
  }

  /**
   * The fitness of the sums `accDistance` and `accRange` against the error
   * envelope `threshold`, with `sqrt` standing for `Math.sqrt`.
   */
  function Fitness(accDistance: real, accRange: real, threshold: real, sqrt: real -> real): real
    requires threshold > 0.0
  {
    var rmsd := sqrt(accDistance / DistanceSamples);
    if rmsd > threshold then 0.0
    else (threshold - rmsd) * AccuracyScale / threshold + accRange / RangeDivisor
  }

  // ---------------------------------------------------------------------
  // The evaluation session
  // ---------------------------------------------------------------------

  class TrialEvaluation {
    /** The network under evaluation, as the function it computes. */
    const phenotype: seq<real> -> seq<real>
    /** The trial, as its pixel intensity at a coordinate of [-1, 1]². */
    const test: (real, real) -> real

    var accDistance: real
    var accRange: real
    var minActivation: Extended
    var maxActivation: Extended
    var output: seq<real>

    /** The snapshot invariant: a finite minimum never exceeds a finite maximum. */
    ghost predicate Valid()
      reads this
    {
      minActivation.Finite? && maxActivation.Finite? ==> minActivation.value <= maxActivation.value
    }

    constructor (thePhenotype: seq<real> -> seq<real>, theTest: (real, real) -> real)
      ensures Valid()
      ensures phenotype == thePhenotype && test == theTest
      ensures accDistance == 0.0 && accRange == 0.0
      ensures minActivation == Finite(0.0) && maxActivation == Finite(0.0) && output == []
    {
      phenotype := thePhenotype;
      test := theTest;
      accDistance, accRange := 0.0, 0.0;
      minActivation, maxActivation := Finite(0.0), Finite(0.0);
      output := [];
    }

    method Accumulate(distance: real, range: real)
      modifies this
      ensures accDistance == old(accDistance) + distance
      ensures accRange == old(accRange) + range
      ensures minActivation == old(minActivation) && maxActivation == old(maxActivation)
      ensures output == old(output)
      ensures Valid() <==> old(Valid())
    {
      accDistance := accDistance + distance;
      accRange := accRange + range;
    }

    method SetAccDistance(value: real)
      modifies this
      ensures accDistance == value
      ensures accRange == old(accRange)
      ensures minActivation == old(minActivation) && maxActivation == old(maxActivation)
      ensures output == old(output)
      ensures Valid() <==> old(Valid())
    {
      accDistance := value;
    }

    method SetAccRange(value: real)
      modifies this
      ensures accRange == value
      ensures accDistance == old(accDistance)
      ensures minActivation == old(minActivation) && maxActivation == old(maxActivation)
      ensures output == old(output)
      ensures Valid() <==> old(Valid())
    {
      accRange := value;
    }

    /**
     * The fitness of the current sums: 0 beyond the error envelope
     * `edgeLen * sqrLen`, otherwise an accuracy part between 0 and 100 plus
     * the range bonus. The first postcondition ties the method to `Fitness`,
     * the formula that the fitness lemmas below are stated against.
     */
    function CalculateFitness(edgeLen: real, sqrLen: real, sqrt: real -> real): (fitness: real)
      reads this
      requires edgeLen * sqrLen > 0.0
      ensures fitness == Fitness(accDistance, accRange, edgeLen * sqrLen, sqrt)
      ensures sqrt(accDistance / DistanceSamples) > edgeLen * sqrLen ==> fitness == 0.0
      ensures 0.0 <= sqrt(accDistance / DistanceSamples) <= edgeLen * sqrLen ==>
        accRange / RangeDivisor <= fitness <= AccuracyScale + accRange / RangeDivisor
    {
      var threshold := edgeLen * sqrLen;
      var rmsd := sqrt(accDistance / DistanceSamples);
      FitnessShares(rmsd, threshold);
      Fitness(accDistance, accRange, threshold, sqrt)
    }

    /**
     * The input vector of a query: the trial sampled at the centre of every
     * cell of a `resolution` × `resolution` grid over [-1, 1]², row by row.
     */
    method SampleInput(resolution: int) returns (input: seq<real>)
      requires -46340 <= resolution <= 46340
      ensures input == Raster(test, resolution)
    {
      var n := resolution * resolution;
      var inputData := new real[n](_ => 0.0);
      if resolution > 0 {
        // the sampling loops run only for a positive resolution
        var pixelSize := 2.0 / resolution as real;
        var orig := -1.0 + pixelSize / 2.0;
        var inputIdx := 0;
        var y := 0;
        var yReal := orig;
        while y < resolution
          invariant 0 <= y <= resolution
          invariant inputIdx == y * resolution <= n
          invariant yReal == Coord(resolution, y)
          invariant inputData[..inputIdx] == Rows(test, resolution, y)
        {
          var x := 0;
          var xReal := orig;
          ghost var rowStart := inputIdx;
          ghost var row := Row(test, resolution, y);
          CellInRange(resolution, y, 0);
          while x < resolution
            invariant 0 <= x <= resolution
            invariant inputIdx == rowStart + x <= n
            invariant xReal == Coord(resolution, x)
            invariant inputData[..inputIdx] == Rows(test, resolution, y) + row[..x]
          {
            CellInRange(resolution, y, x);
            CoordStep(resolution, x);
            inputData[inputIdx] := test(xReal, yReal);
            assert inputData[..inputIdx + 1] == inputData[..inputIdx] + [inputData[inputIdx]];
            assert row[..x + 1] == row[..x] + [row[x]];
            x, xReal, inputIdx := x + 1, xReal + pixelSize, inputIdx + 1;
          }
          assert row[..resolution] == row;
          assert inputIdx == (y + 1) * resolution;
          MulMonotone(y + 1, resolution, resolution);
          CoordStep(resolution, y);
          y, yReal := y + 1, yReal + pixelSize;
        }
        assert inputData[..] == inputData[..inputIdx];
      } else {
        assert inputData[..] == seq(n, _ => 0.0);
      }
      input := inputData[..];
    }

    /**
     * Samples the trial on a `resolution` × `resolution` grid, runs the
     * network on the samples, records the output with its extreme
     * activations, and returns the cell of the first maximal activation.
     */
    method Query(resolution: int) returns (result: QueryOutcome)
      requires -46340 <= resolution <= 46340
      modifies this
      ensures output == phenotype(Raster(test, resolution))
      ensures maxActivation == Scan(output).max && minActivation == Scan(output).min
      ensures result == ToPair(Scan(output).idx, resolution)
      ensures accDistance == old(accDistance) && accRange == old(accRange)
      ensures Valid()
    {
      // first, create the input data
      var inputData := SampleInput(resolution);

      // second, query the network
      output := phenotype(inputData);

      // finally, process the output
      minActivation := PosInf;
      maxActivation := NegInf;
      var idx := 0;
      for i := 0 to |output|
        modifies this`maxActivation, this`minActivation
        invariant ScanState(maxActivation, minActivation, idx) == Scan(output[..i])
      {
        var d := output[i];
        if Exceeds(d, maxActivation) {
          maxActivation := Finite(d);
          idx := i;
        } else if Undercuts(d, minActivation) {
          minActivation := Finite(d);
        }
        assert output[..i + 1][..i] == output[..i];
      }
      assert output[..|output|] == output;
      ScanMinBelowMax(output);
      result := ToPair(idx, resolution);
    }

    /**
     * Maps activation `d` to `scale` steps between the recorded minimum
     * (step 0) and maximum (step `scale`), truncating toward zero. Every
     * operation keeps `Valid()`, so the two distinct extremes are ordered.
     */
    function Normalize(d: real, scale: Int32): (r: Int32)
      reads this
      requires Valid()
      requires minActivation.Finite? && maxActivation.Finite?
      requires minActivation.value != maxActivation.value
      ensures d == minActivation.value ==> r == 0
      ensures d == maxActivation.value ==> r == scale
      ensures minActivation.value <= d <= maxActivation.value && scale >= 0 ==> 0 <= r <= scale
    {
      var lo, hi := minActivation.value, maxActivation.value;
      NormalizeAtLow(d, lo, hi, scale);
      NormalizeAtHigh(d, lo, hi, scale);
      NormalizeWithin(d, lo, hi, scale);
      DoubleToInt((d - lo) / (hi - lo) * scale as real)
    }
  }

  // ---------------------------------------------------------------------
  // Lemmas
  // ---------------------------------------------------------------------

  /** Cell `(x, y)` of a `resolution` grid has a flat index inside the raster. */
  lemma CellInRange(resolution: int, y: int, x: int)
    requires 0 <= y < resolution && 0 <= x < resolution
    ensures 0 <= y * resolution + x < resolution * resolution
  {
    assert y * resolution <= (resolution - 1) * resolution;
  }

  /** Consecutive cell centres lie one pixel apart. */
  lemma CoordStep(resolution: int, k: int)
    requires resolution != 0
    ensures Coord(resolution, k + 1) == Coord(resolution, k) + PixelSize(resolution)
  {
    var p := PixelSize(resolution);
    assert (k + 1) as real * p == k as real * p + p;
  }

  /** Every sampled coordinate is the cell centre `-1 + (2k+1)/resolution`, strictly inside (-1, 1). */
  lemma CoordIsCellCentre(resolution: int, k: int)
    requires 0 <= k < resolution
    ensures Coord(resolution, k) == -1.0 + (2 * k + 1) as real / resolution as real
    ensures -1.0 < Coord(resolution, k) < 1.0
  {
    var r, c := resolution as real, (2 * k + 1) as real;
    var p := PixelSize(resolution);
    assert p * r == 2.0;
    assert (p / 2.0 + k as real * p) * r == c;
    CentreBounds(c, r);
  }

  /** `c / r` lies strictly between 0 and 2 when `c` does between 0 and `2r`. */
  lemma CentreBounds(c: real, r: real)
    requires 0.0 < r && 0.0 < c < 2.0 * r
    ensures 0.0 < c / r < 2.0
  {
    var q := c / r;
    assert q * r == c;
  }

  /** The first `rows` rows hold `rows * resolution` samples. */
  lemma {:induction false} RowsLength(pixel: (real, real) -> real, resolution: nat, rows: nat)
    requires resolution > 0
    ensures |Rows(pixel, resolution, rows)| == rows * resolution
  {
    if rows > 0 {
      RowsLength(pixel, resolution, rows - 1);
    }
  }

  /** Row-major layout: entry `y * resolution + x` of the first `rows` rows samples cell `(x, y)`. */
  lemma {:induction false} RowsAt(pixel: (real, real) -> real, resolution: nat, rows: nat, y: int, x: int)
    requires resolution > 0
    requires 0 <= y < rows && 0 <= x < resolution
    ensures |Rows(pixel, resolution, rows)| == rows * resolution
    ensures Rows(pixel, resolution, rows)[y * resolution + x] == pixel(Coord(resolution, x), Coord(resolution, y))
  {
    RowsLength(pixel, resolution, rows - 1);
    var base := (rows - 1) * resolution;
    assert |Rows(pixel, resolution, rows)| == base + resolution;
    if y < rows - 1 {
      RowsAt(pixel, resolution, rows - 1, y, x);
      MulMonotone(y, rows - 2, resolution);
      assert y * resolution + x < base;
    } else {
      assert y * resolution + x == base + x;
    }
  }

  /** `a * c <= b * c` for `a <= b` and a non-negative `c`. */
  lemma MulMonotone(a: int, b: int, c: int)
    requires a <= b && 0 <= c
    ensures a * c <= b * c
  {
    assert b * c - a * c == (b - a) * c;
  }

  /**
   * For a positive resolution the input vector has `resolution²` entries
   * and entry `y * resolution + x` samples the centre of cell `(x, y)`.
   */
  lemma RasterAt(pixel: (real, real) -> real, resolution: int, y: int, x: int)
    requires 0 <= y < resolution && 0 <= x < resolution
    ensures |Raster(pixel, resolution)| == resolution * resolution
    ensures Raster(pixel, resolution)[y * resolution + x] ==
      pixel(-1.0 + (2 * x + 1) as real / resolution as real, -1.0 + (2 * y + 1) as real / resolution as real)
  {
    RowsAt(pixel, resolution, resolution, y, x);
    CoordIsCellCentre(resolution, x);
    CoordIsCellCentre(resolution, y);
  }

  /**
   * For a non-empty output the scan's maximum is the largest element, and
   * its index is the first index holding it.
   */
  lemma {:induction false} ScanMax(s: seq<real>)
    requires |s| > 0
    ensures Scan(s).max.Finite?
    ensures 0 <= Scan(s).idx < |s| && s[Scan(s).idx] == Scan(s).max.value
    ensures forall j :: 0 <= j < |s| ==> s[j] <= Scan(s).max.value
    ensures forall j :: 0 <= j < Scan(s).idx ==> s[j] < Scan(s).max.value
  {
    var p := s[..|s| - 1];
    if |p| > 0 {
      ScanMax(p);
      assert forall j :: 0 <= j < |p| ==> p[j] == s[j];
    }
  }

  /** The scan of an empty output keeps its starting values. */
  lemma ScanEmpty()
    ensures Scan([]) == ScanState(NegInf, PosInf, 0)
  {
  }

  /** The running maximum at step `j` is exceeded exactly when element `j` raises it. */
  lemma ExceedsIffRaises(s: seq<real>, j: int)
    requires 0 <= j < |s|
    ensures Exceeds(s[j], Scan(s[..j]).max) <==> RaisesMax(s, j)
  {
    var p := s[..j];
    if j > 0 {
      ScanMax(p);
      assert forall k :: 0 <= k < j ==> p[k] == s[k];
    }
  }

  /**
   * The scan's minimum ranges over exactly the elements that did not raise
   * the running maximum: it stays at +∞ when every element raised it, and
   * otherwise it is the least of those elements. Element 0 always raises
   * the maximum, so it is never a candidate.
   */
  lemma {:induction false} ScanMin(s: seq<real>)
    ensures |s| == 0 || RaisesMax(s, 0)
    ensures Scan(s).min == PosInf <==> forall j :: 0 <= j < |s| ==> RaisesMax(s, j)
    ensures Scan(s).min != NegInf
    ensures Scan(s).min.Finite? ==>
      (exists j :: 0 <= j < |s| && !RaisesMax(s, j) && s[j] == Scan(s).min.value) &&
      (forall j :: 0 <= j < |s| && !RaisesMax(s, j) ==> Scan(s).min.value <= s[j])
  {
    if |s| > 0 {
      var n := |s| - 1;
      var p := s[..n];
      ScanMin(p);
      ExceedsIffRaises(s, n);
      assert forall j :: 0 <= j < n ==> (RaisesMax(p, j) <==> RaisesMax(s, j)) by {
        forall j | 0 <= j < n ensures RaisesMax(p, j) <==> RaisesMax(s, j) {
          assert forall k :: 0 <= k <= j ==> p[k] == s[k];
        }
      }
      if Scan(p).min.Finite? && Scan(s).min == Scan(p).min {
        var w :| 0 <= w < |p| && !RaisesMax(p, w) && p[w] == Scan(p).min.value;
        assert !RaisesMax(s, w) && s[w] == Scan(s).min.value;
      }
    }
  }

  /** After a scan a finite minimum never exceeds the maximum. */
  lemma ScanMinBelowMax(s: seq<real>)
    ensures Scan(s).min.Finite? ==> Scan(s).max.Finite? && Scan(s).min.value <= Scan(s).max.value
  {
    ScanMin(s);
    if Scan(s).min.Finite? {
      ScanMax(s);
    }
  }

  /**
   * The pair returned for a non-negative index `idx` is its row-major
   * decomposition: `y * resolution + x == idx` with `0 <= x < |resolution|`,
   * and for an index inside a `resolution²` grid the row lies in the grid.
   */
  lemma PairDecomposes(idx: int, resolution: int)
    requires 0 <= idx && resolution != 0
    ensures ToPair(idx, resolution).Pair?
    ensures ToPair(idx, resolution).y * resolution + ToPair(idx, resolution).x == idx
    ensures 0 <= ToPair(idx, resolution).x < Abs(resolution)
    ensures resolution > 0 && idx < resolution * resolution ==> 0 <= ToPair(idx, resolution).y < resolution
  {
    var y := Div(idx, resolution);
    if resolution > 0 && idx < resolution * resolution && y >= resolution {
      MulMonotone(resolution, y, resolution);
    }
  }

  /**
   * For an output of `resolution²` entries, the returned pair is the cell of
   * the first maximal activation, inside the grid.
   */
  lemma QueryPairIsFirstMax(s: seq<real>, resolution: int)
    requires resolution > 0 && |s| == resolution * resolution
    ensures Scan(s).max.Finite? && 0 <= Scan(s).idx < |s|
    ensures ToPair(Scan(s).idx, resolution).Pair?
    ensures 0 <= ToPair(Scan(s).idx, resolution).x < resolution
    ensures 0 <= ToPair(Scan(s).idx, resolution).y < resolution
    ensures ToPair(Scan(s).idx, resolution).y * resolution + ToPair(Scan(s).idx, resolution).x == Scan(s).idx
    ensures s[Scan(s).idx] == Scan(s).max.value
    ensures forall j :: 0 <= j < |s| ==> s[j] <= Scan(s).max.value
    ensures forall j :: 0 <= j < Scan(s).idx ==> s[j] < Scan(s).max.value
  {
    ScanMax(s);
    PairDecomposes(Scan(s).idx, resolution);
  }

  /**
   * The scan's asymmetry on the input `[0.1, 0.9, 0.3, 0.7]` of a 2 × 2
   * grid: the maximum 0.9 lies in cell (1, 0), and the recorded minimum is
   * 0.3, not the smallest element 0.1, because 0.1 raised the maximum.
   */
  lemma AsymmetricScanExample()
    ensures Scan([0.1, 0.9, 0.3, 0.7]) == ScanState(Finite(0.9), Finite(0.3), 1)
    ensures ToPair(1, 2) == Pair(1, 0)
  {
    var s := [0.1, 0.9, 0.3, 0.7];
    assert [0.1][..0] == [];
    assert Scan([0.1]) == ScanState(Finite(0.1), PosInf, 0);
    assert [0.1, 0.9][..1] == [0.1];
    assert Scan([0.1, 0.9]) == ScanState(Finite(0.9), PosInf, 1);
    assert [0.1, 0.9, 0.3][..2] == [0.1, 0.9];
    assert Scan([0.1, 0.9, 0.3]) == ScanState(Finite(0.9), Finite(0.3), 1);
    assert s[..3] == [0.1, 0.9, 0.3];
  }

  /** `rmsd <= threshold` bounds the accuracy share of the fitness to [0, 100]. */
  lemma FitnessShares(rmsd: real, threshold: real)
    requires threshold > 0.0
    ensures 0.0 <= rmsd <= threshold ==> 0.0 <= (threshold - rmsd) * AccuracyScale / threshold <= AccuracyScale
  {
    if 0.0 <= rmsd <= threshold {
      var a := (threshold - rmsd) * AccuracyScale;
      assert 0.0 <= a <= threshold * AccuracyScale;
      assert a / threshold <= threshold * AccuracyScale / threshold;
    }
  }

  /** Squaring is strictly monotone on the non-negative reals. */
  lemma SquareMonotone(a: real, b: real)
    requires 0.0 <= a && 0.0 <= b
    ensures a < b <==> a * a < b * b
  {
    if a < b {
      var d := b - a;
      ProductPositive(2.0 * a + d, d);
      assert b * b == a * a + (2.0 * a + d) * d;
    } else {
      var d := a - b;
      ProductNonNegative(2.0 * b + d, d);
      assert a * a == b * b + (2.0 * b + d) * d;
    }
  }

  lemma ProductPositive(x: real, y: real)
    requires x > 0.0 && y > 0.0
    ensures x * y > 0.0
  {
  }

  lemma ProductNonNegative(x: real, y: real)
    requires x >= 0.0 && y >= 0.0
    ensures x * y >= 0.0
  {
  }

  lemma SelfQuotient(x: real)
    requires x != 0.0
    ensures x / x == 1.0
  {
    var q := x / x;
    assert q * x == x;
    assert (q - 1.0) * x == 0.0;
    if q != 1.0 {
      if x > 0.0 {
        if q > 1.0 { ProductPositive(q - 1.0, x); } else { ProductPositive(1.0 - q, x); }
      } else {
        if q > 1.0 { ProductPositive(q - 1.0, -x); } else { ProductPositive(1.0 - q, -x); }
      }
    }
  }

  /** A fraction in [0, 1] of `scale` casts to a step in [0, `scale`]. */
  lemma CastOfFraction(q: real, scale: Int32)
    requires 0.0 <= q <= 1.0 && scale >= 0
    ensures 0 <= DoubleToInt(q * scale as real) <= scale
  {
    var m := scale as real;
    var v := q * m;
    assert 0.0 <= v <= m by {
      assert m - v == (1.0 - q) * m;
      ProductNonNegative(q, m);
      ProductNonNegative(1.0 - q, m);
    }
    var t := Truncate(v);
    assert t as real <= v < t as real + 1.0;
  }

  /** Dividing by a positive number keeps order. */
  lemma QuotientMonotone(a: real, b: real, t: real)
    requires a <= b && t > 0.0
    ensures a / t <= b / t
  {
    var qa, qb := a / t, b / t;
    assert qa * t == a && qb * t == b;
    if qa > qb { ProductPositive(qa - qb, t); }
  }

  /** `n / m` lies in [0, 1] when `n` lies in [0, m]. */
  lemma UnitFraction(n: real, m: real)
    requires 0.0 <= n <= m && m > 0.0
    ensures 0.0 <= n / m <= 1.0
  {
    var q := n / m;
    assert q * m == n;
    if q < 0.0 { ProductPositive(-q, m); }
    if q > 1.0 { ProductPositive(q - 1.0, m); }
  }

  /**
   * With an exact square root, the zero branch is taken exactly when the mean
   * distance `accDistance / 75` exceeds `threshold²`; otherwise the fitness is
   * the blended score.
   */
  lemma FitnessBranches(accDistance: real, accRange: real, threshold: real, sqrt: real -> real)
    requires threshold > 0.0
    requires RootAt(sqrt, accDistance / DistanceSamples)
    ensures accDistance / DistanceSamples > threshold * threshold ==>
      Fitness(accDistance, accRange, threshold, sqrt) == 0.0
    ensures accDistance / DistanceSamples <= threshold * threshold ==>
      Fitness(accDistance, accRange, threshold, sqrt) ==
        (threshold - sqrt(accDistance / DistanceSamples)) * AccuracyScale / threshold + accRange / RangeDivisor
  {
    SquareMonotone(threshold, sqrt(accDistance / DistanceSamples));
  }

  /** A fresh session (both sums 0) scores exactly 100. */
  lemma FreshFitness(threshold: real, sqrt: real -> real)
    requires threshold > 0.0
    requires sqrt(0.0) == 0.0
    ensures Fitness(0.0, 0.0, threshold, sqrt) == 100.0
  {
  }

  /**
   * Within the envelope, a larger accumulated distance never scores higher:
   * if the larger distance is still inside, so is the smaller one, and its
   * score is at least as high.
   */
  lemma FitnessMonotoneInDistance(d1: real, d2: real, accRange: real, threshold: real, sqrt: real -> real)
    requires threshold > 0.0
    requires 0.0 <= d1 <= d2
    requires RootAt(sqrt, d1 / DistanceSamples) && RootAt(sqrt, d2 / DistanceSamples)
    requires sqrt(d2 / DistanceSamples) <= threshold
    ensures Fitness(d1, accRange, threshold, sqrt) >= Fitness(d2, accRange, threshold, sqrt)
    ensures Fitness(d2, accRange, threshold, sqrt) >= accRange / RangeDivisor
  {
    var r1, r2 := sqrt(d1 / DistanceSamples), sqrt(d2 / DistanceSamples);
    SquareMonotone(r2, r1);
    assert r1 <= r2;
    QuotientMonotone((threshold - r2) * AccuracyScale, (threshold - r1) * AccuracyScale, threshold);
    FitnessShares(r2, threshold);
  }

  /** Within the envelope, a larger accumulated range scores strictly higher. */
  lemma FitnessMonotoneInRange(accDistance: real, r1: real, r2: real, threshold: real, sqrt: real -> real)
    requires threshold > 0.0
    requires sqrt(accDistance / DistanceSamples) <= threshold
    requires r1 <= r2
    ensures Fitness(accDistance, r1, threshold, sqrt) <= Fitness(accDistance, r2, threshold, sqrt)
    ensures r1 < r2 ==> Fitness(accDistance, r1, threshold, sqrt) < Fitness(accDistance, r2, threshold, sqrt)
  {
  }

  /** The recorded minimum normalises to step 0. */
  lemma NormalizeAtLow(d: real, lo: real, hi: real, scale: Int32)
    requires lo != hi
    ensures d == lo ==> DoubleToInt((d - lo) / (hi - lo) * scale as real) == 0
  {
    if d == lo {
      assert (d - lo) / (hi - lo) * scale as real == 0.0;
      DoubleToIntOfInt(0);
    }
  }

  /** The recorded maximum normalises to step `scale` exactly, with no clamping below it. */
  lemma NormalizeAtHigh(d: real, lo: real, hi: real, scale: Int32)
    requires lo != hi
    ensures d == hi ==> DoubleToInt((d - lo) / (hi - lo) * scale as real) == scale
  {
    if d == hi {
      SelfQuotient(hi - lo);
      assert (d - lo) / (hi - lo) * scale as real == scale as real;
      DoubleToIntOfInt(scale);
    }
  }

  /** An activation between the recorded extremes normalises to a step in [0, `scale`]. */
  lemma NormalizeWithin(d: real, lo: real, hi: real, scale: Int32)
    requires lo != hi
    ensures lo <= d <= hi && scale >= 0 ==> 0 <= DoubleToInt((d - lo) / (hi - lo) * scale as real) <= scale
  {
    if lo <= d <= hi && scale >= 0 {
      UnitFraction(d - lo, hi - lo);
      CastOfFraction((d - lo) / (hi - lo), scale);
    }
  }
}
