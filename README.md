# Boxes trial evaluation, modelled in Dafny

This project models `TrialEvaluation`, the class in Encog's NEAT "boxes" example that scores one evolved network (the phenotype) on one visual-discrimination trial. The model keeps the class's shape. It is a Dafny class with the two running sums `accDistance` and `accRange`, the activation snapshot `minActivation` / `maxActivation`, and the last `output`. `Accumulate` and the two setters update the sums in place. `Query` does four things in order:

- it samples the trial at the centre of every cell of a `resolution` × `resolution` grid over [-1, 1]², row by row;
- it runs the network on those samples;
- it scans the output once for the first strict maximum, as the Java code does, with the minimum updated only in the `else if` branch;
- it splits the flat index of the maximum into `(x, y)` using Java's integer division.

`CalculateFitness` and `Normalize` are functions of the current fields.

Files:

- `JavaNumerics.dfy` holds the Java semantics the class depends on: the `int` range, `int` division (truncating toward zero), the `(int)` cast of a `double` (truncating, then saturating), and `Extended`, a `double` that can also be -∞ or +∞. The scan starts from those two infinities.
- `BoxesTrial.dfy` holds the class, the specification functions its methods are proved against (`Raster`, `Scan`, `ToPair`, `Fitness`), and the lemmas about them.

The collaborators are passed in as values:

- the network is the constant field `phenotype: seq<real> -> seq<real>`;
- the trial's `getPixel` is the constant field `test: (real, real) -> real`;
- `BoxesScore.EDGE_LEN` and `BoxesScore.SQR_LEN` are the parameters `edgeLen` and `sqrLen`. Their product must be positive;
- `Math.sqrt` is the parameter `sqrt`. A lemma that needs a real square root asks for `RootAt(sqrt, x)` only at the points it uses.

Three consequences of the code are easy to miss, and the model states them as the code has them:

- For the raster `[0.1, 0.9, 0.3, 0.7]` with an identity network, the recorded minimum is 0.3, not the overall minimum 0.1. The first element 0.1 raises the running maximum, so the `else if` never compares it with the minimum (`AsymmetricScanExample`).
- A session whose two sums are both 0 scores 100, not 0 (`FreshFitness`).
- `normalize` maps the recorded maximum to `scale` itself, so its results lie in `[0, scale]`, not `[0, scale)` (`TrialEvaluation.Normalize`, `NormalizeAtHigh`).

## Model

| member | source | states |
|---|---|---|
| `BoxesTrial.TrialEvaluation.constructor` | src/main/java/org/encog/examples/neural/neat/boxes/TrialEvaluation.java:19-22 | binds the phenotype and the trial; both sums start at 0 and the snapshot at Java's field defaults |
| `BoxesTrial.TrialEvaluation.Accumulate` | src/main/java/org/encog/examples/neural/neat/boxes/TrialEvaluation.java:38-41 | raises `accDistance` by exactly `distance` and `accRange` by exactly `range`; the snapshot and the output are unchanged |
| `BoxesTrial.TrialEvaluation.SetAccDistance` | src/main/java/org/encog/examples/neural/neat/boxes/TrialEvaluation.java:53-55 | overwrites `accDistance` and nothing else, so the snapshot invariant is kept |
| `BoxesTrial.TrialEvaluation.SetAccRange` | src/main/java/org/encog/examples/neural/neat/boxes/TrialEvaluation.java:67-69 | overwrites `accRange` and nothing else, so the snapshot invariant is kept |
| `BoxesTrial.TrialEvaluation.CalculateFitness` | src/main/java/org/encog/examples/neural/neat/boxes/TrialEvaluation.java:71-82 | with `threshold = edgeLen * sqrLen`: 0 when `sqrt(accDistance / 75) > threshold`; otherwise between `accRange / 7.5` and `100 + accRange / 7.5` |
| `BoxesTrial.FitnessBranches` | src/main/java/org/encog/examples/neural/neat/boxes/TrialEvaluation.java:71-82 | with an exact root, the zero branch (line 76) is taken exactly when `accDistance / 75 > threshold²`; otherwise the fitness is `(threshold - rmsd) * 100 / threshold + accRange / 7.5` |
| `BoxesTrial.FreshFitness` | src/main/java/org/encog/examples/neural/neat/boxes/TrialEvaluation.java:71-82 | with both sums 0 the fitness is exactly 100, for every positive threshold |
| `BoxesTrial.FitnessMonotoneInDistance` | src/main/java/org/encog/examples/neural/neat/boxes/TrialEvaluation.java:73-78 | inside the envelope, a larger `accDistance` never raises the fitness, and the fitness is at least the range bonus |
| `BoxesTrial.FitnessMonotoneInRange` | src/main/java/org/encog/examples/neural/neat/boxes/TrialEvaluation.java:78 | inside the envelope, the fitness grows with `accRange`, strictly for a strictly larger `accRange` |
| `BoxesTrial.FitnessShares` | src/main/java/org/encog/examples/neural/neat/boxes/TrialEvaluation.java:75-78 | for `0 <= rmsd <= threshold` the accuracy share lies in [0, 100] |
| `BoxesTrial.TrialEvaluation.SampleInput` | src/main/java/org/encog/examples/neural/neat/boxes/TrialEvaluation.java:86-99 | the nested raster loops, each tracking `inputIdx`, `xReal` and `yReal`, produce exactly `Raster(test, resolution)`: rows top to bottom with cells left to right, or `resolution²` zeros when the resolution is not positive |
| `BoxesTrial.RasterAt` | src/main/java/org/encog/examples/neural/neat/boxes/TrialEvaluation.java:86-99 | for `resolution >= 1` the input has `resolution²` entries and entry `y * resolution + x` is `getPixel(-1 + (2x+1)/resolution, -1 + (2y+1)/resolution)` |
| `BoxesTrial.RowsAt` | src/main/java/org/encog/examples/neural/neat/boxes/TrialEvaluation.java:92-98 | row-major layout of the first `rows` rows: entry `y * resolution + x` samples cell `(x, y)` |
| `BoxesTrial.RowsLength` | src/main/java/org/encog/examples/neural/neat/boxes/TrialEvaluation.java:87 | the first `rows` rows hold `rows * resolution` samples |
| `BoxesTrial.CellInRange` | src/main/java/org/encog/examples/neural/neat/boxes/TrialEvaluation.java:95-97 | every cell's flat index `y * resolution + x` lies inside the `resolution²` buffer |
| `BoxesTrial.CoordStep` | src/main/java/org/encog/examples/neural/neat/boxes/TrialEvaluation.java:92-95 | stepping `xReal` / `yReal` by `pixelSize` moves to the next cell centre |
| `BoxesTrial.CoordIsCellCentre` | src/main/java/org/encog/examples/neural/neat/boxes/TrialEvaluation.java:88-95 | `orig + k * pixelSize == -1 + (2k+1)/resolution`, strictly inside (-1, 1), for `0 <= k < resolution` |
| `BoxesTrial.TrialEvaluation.Query` | src/main/java/org/encog/examples/neural/neat/boxes/TrialEvaluation.java:84-127 | `output` is the network's answer to the raster; the snapshot and the returned pair are those of the scan of `output`; for resolution 0 the outcome is the division-by-zero error, after the snapshot is written; the sums are unchanged |
| `BoxesTrial.ScanMax` | src/main/java/org/encog/examples/neural/neat/boxes/TrialEvaluation.java:105-117 | for a non-empty output, `maxActivation` is the largest element and `idx` is the first index holding it |
| `BoxesTrial.ScanEmpty` | src/main/java/org/encog/examples/neural/neat/boxes/TrialEvaluation.java:105-107 | for an empty output the scan keeps -∞, +∞ and index 0 |
| `BoxesTrial.ExceedsIffRaises` | src/main/java/org/encog/examples/neural/neat/boxes/TrialEvaluation.java:113 | the `d > maxActivation` test at step `j` holds exactly when element `j` is larger than every earlier element |
| `BoxesTrial.ScanMin` | src/main/java/org/encog/examples/neural/neat/boxes/TrialEvaluation.java:105-122 | `minActivation` is the least element among those that did not raise the running maximum, or stays +∞ when there is none; element 0 is never a candidate |
| `BoxesTrial.ScanMinBelowMax` | src/main/java/org/encog/examples/neural/neat/boxes/TrialEvaluation.java:105-122 | a finite recorded minimum never exceeds the recorded maximum |
| `BoxesTrial.AsymmetricScanExample` | src/main/java/org/encog/examples/neural/neat/boxes/TrialEvaluation.java:109-126 | on `[0.1, 0.9, 0.3, 0.7]` the scan records max 0.9 at index 1, which is cell (1, 0), and min 0.3, not 0.1 |
| `BoxesTrial.PairDecomposes` | src/main/java/org/encog/examples/neural/neat/boxes/TrialEvaluation.java:124-126 | for `idx >= 0`: `y * resolution + x == idx` and `0 <= x < abs(resolution)`; for `0 <= idx < resolution²` also `0 <= y < resolution` |
| `BoxesTrial.ToPair` | src/main/java/org/encog/examples/neural/neat/boxes/TrialEvaluation.java:124-126 | the index split fails exactly for resolution 0, where Java's `idx / resolution` throws |
| `BoxesTrial.QueryPairIsFirstMax` | src/main/java/org/encog/examples/neural/neat/boxes/TrialEvaluation.java:109-126 | for an output of `resolution²` entries the returned pair lies in the grid, decomposes the index of the maximum, and that index is the first maximal one |
| `JavaNumerics.Div` | src/main/java/org/encog/examples/neural/neat/boxes/TrialEvaluation.java:124 | Java `int` division: the remainder has the dividend's sign and is smaller than the divisor in magnitude |
| `JavaNumerics.RemainderOfTruncation` | src/main/java/org/encog/examples/neural/neat/boxes/TrialEvaluation.java:124-125 | the same facts for the quotient before it is returned |
| `JavaNumerics.Truncate` | src/main/java/org/encog/examples/neural/neat/boxes/TrialEvaluation.java:151 | rounds toward zero: never moves a value away from 0 and moves it by less than 1 |
| `JavaNumerics.DoubleToInt` | src/main/java/org/encog/examples/neural/neat/boxes/TrialEvaluation.java:151 | Java's `(int)` of a finite `double`: saturates at the `int` bounds and truncates between them |
| `JavaNumerics.DoubleToIntOfInt` | src/main/java/org/encog/examples/neural/neat/boxes/TrialEvaluation.java:151 | the cast leaves a whole number in the `int` range unchanged |
| `BoxesTrial.TrialEvaluation.Normalize` | src/main/java/org/encog/examples/neural/neat/boxes/TrialEvaluation.java:150-152 | for a snapshot that keeps its invariant (a finite minimum below a finite maximum): the recorded minimum maps to 0; the recorded maximum maps to `scale` exactly, with no clamping to `scale - 1`; an activation between them maps into [0, `scale`] for `scale >= 0` |
| `BoxesTrial.NormalizeAtLow` | src/main/java/org/encog/examples/neural/neat/boxes/TrialEvaluation.java:151 | `(int)((min - min) / (max - min) * scale) == 0` |
| `BoxesTrial.NormalizeAtHigh` | src/main/java/org/encog/examples/neural/neat/boxes/TrialEvaluation.java:151 | `(int)((max - min) / (max - min) * scale) == scale` |
| `BoxesTrial.NormalizeWithin` | src/main/java/org/encog/examples/neural/neat/boxes/TrialEvaluation.java:151 | an activation in [min, max] truncates to a step in [0, `scale`] |
| `BoxesTrial.CastOfFraction` | src/main/java/org/encog/examples/neural/neat/boxes/TrialEvaluation.java:151 | a fraction in [0, 1] of `scale` casts to a step in [0, `scale`] |

## Left out

- IEEE-754 arithmetic is not modelled. Everything is exact `real`, so there is no drift from the repeated `xReal += pixelSize` / `yReal += pixelSize` and no rounding in `Math.sqrt` or in the divisions.
- `Math.sqrt` is the parameter `sqrt`. For a negative `accDistance`, Java's `NaN` result is not modelled.
- `NEATNetwork.compute` and the cast of the phenotype to `NEATNetwork` are replaced by the total function `phenotype`. A network that rejects an input of the wrong size is not modelled.
- `BoxTrialCase.getPixel` and `BoxesScore.EDGE_LEN` / `SQR_LEN` are not part of this model. They enter as the function `test` and the parameters `edgeLen`, `sqrLen`.
- `IntPair`, `MLData`, `BasicMLData` and `MLMethod` are replaced by `QueryOutcome.Pair`, `seq<real>` and function values. Before the first query, `output` is the empty sequence where Java has `null`.
- `getPhenotype`, `getTest`, `getAccDistance`, `getAccRange`, `getMinActivation`, `getMaxActivation` and `getOutput` return a field unchanged. The model reads the fields directly.
- `BoxesTrial.TrialEvaluation.Query` and `BoxesTrial.TrialEvaluation.SampleInput`: require `|resolution| <= 46340`, so `resolution * resolution` fits in an `int`. Beyond that bound Java's `resolution * resolution` wraps around. For a positive resolution the wrapped length makes Java fail with a negative array size or an out-of-bounds write. For a negative resolution whose square wraps to a non-negative `int`, Java allocates a zero-filled buffer of that wrapped length (none for -65536, 18532 entries for -92682); the loops do not run, and `query` goes on to compute, scan and split. The model does not capture that wrapped length.
- `BoxesTrial.TrialEvaluation.SampleInput`: the input buffer is a local array whose contents are returned as a sequence. `query`'s own `MLData` buffer is not modelled as a separate object.
- `BoxesTrial.TrialEvaluation.Normalize`: requires finite, distinct extremes and the snapshot invariant `Valid()`, which every operation of the class keeps. Java's result when the extremes are equal or not finite is not modelled. There the `double` quotient is `NaN` or infinite, and the `(int)` cast turns it into 0, `Integer.MAX_VALUE` or `Integer.MIN_VALUE`; while the minimum is still +∞ the quotient is `NaN` and the result is always 0.
- `JavaNumerics.Div`: does not wrap the quotient, so for `IntMin / -1` it gives 2³¹ where Java overflows to `IntMin`. Its only caller, `ToPair`, divides a non-negative index, where no overflow can occur.
- `BoxesTrial.TrialEvaluation.CalculateFitness`: requires `edgeLen * sqrLen > 0`. Java's result for a zero or negative threshold (0.0, except `NaN` when the root is `NaN`, or when both the threshold and the root are 0) is not modelled.
