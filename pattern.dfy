/** Single-pattern processing: linear intensity rescaling, the dispatch of
    dynamic-background removal, the FFT guard, and the integer frequency
    weights used by the image-quality measure. A pattern is its
    intensities in row-major order. */
module Pattern {
  import opened Common
  import opened DtypeRange

  // ---------------------------------------------------------------------
  // Intensity rescaling
  // ---------------------------------------------------------------------

  /** `_rescale` on one intensity: the affine map sending imin to omin and
      imax to omax. */
  function RescaleValue(v: real, imin: real, imax: real, omin: real, omax: real): real
    requires imin != imax
  {
    (v - imin) / (imax - imin) * (omax - omin) + omin
  }

  /** `_rescale` on a whole pattern. */
  function Rescale(pattern: seq<real>, imin: real, imax: real, omin: real, omax: real): (r: seq<real>)
    requires imin != imax
    ensures |r| == |pattern|
    ensures forall k :: 0 <= k < |pattern| ==> r[k] == RescaleValue(pattern[k], imin, imax, omin, omax)
  {
    seq(|pattern|, k requires 0 <= k < |pattern| => RescaleValue(pattern[k], imin, imax, omin, omax))
  }

  /** The rescaling sends imin to omin and imax to omax, and maps the
      interval [imin, imax] into [omin, omax]. */
  lemma RescaleEndpoints(v: real, imin: real, imax: real, omin: real, omax: real)
    requires imin != imax
    ensures RescaleValue(imin, imin, imax, omin, omax) == omin
    ensures RescaleValue(imax, imin, imax, omin, omax) == omax
    ensures imin <= v <= imax && omin <= omax ==>
              omin <= RescaleValue(v, imin, imax, omin, omax) <= omax
  {
    if imin <= v <= imax && omin <= omax {
      var t := (v - imin) / (imax - imin);
      FractionInUnit(v - imin, imax - imin);
      AffineInside(t, omin, omax);
    }
  }

  /** A part of a positive whole is a fraction between 0 and 1. */
  lemma FractionInUnit(a: real, d: real)
    requires d > 0.0 && 0.0 <= a <= d
    ensures 0.0 <= a / d <= 1.0
  {
    var t := a / d;
    assert t * d == a;
    ScaledSign(t, d);
  }

  /** A positive factor keeps a number's position relative to 0 and 1. */
  lemma ScaledSign(t: real, d: real)
    requires d > 0.0
    ensures t < 0.0 ==> t * d < 0.0
    ensures t > 1.0 ==> t * d > d
  {
    assert t * d - d == (t - 1.0) * d;
  }

  lemma MulUnitInterval(t: real, d: real)
    requires 0.0 <= t <= 1.0 && d >= 0.0
    ensures 0.0 <= t * d <= d
  {
    assert (1.0 - t) * d >= 0.0;
  }

  /** A fraction t of the way from lo to hi lies between them. */
  lemma AffineInside(t: real, lo: real, hi: real)
    requires 0.0 <= t <= 1.0 && lo <= hi
    ensures lo <= t * (hi - lo) + lo
    ensures t * (hi - lo) + lo <= hi
  {
    var d := hi - lo;
    MulUnitInterval(t, d);
    var p := t * d;
    assert t * (hi - lo) == p;
    assert 0.0 <= p <= d;
    assert p + lo <= hi;
  }

  /** `np.clip(v, lo, hi)`, i.e. `minimum(maximum(v, lo), hi)`. */
  function Clip(v: real, lo: real, hi: real): real
  {
    var m := if v < lo then lo else v;
    if m > hi then hi else m
  }

  function MinOf(s: seq<real>): (m: real)
    requires |s| > 0
    ensures m in s && forall k :: 0 <= k < |s| ==> m <= s[k]
  {
    if |s| == 1 then s[0]
    else
      var rest := MinOf(s[1..]);
      assert forall k :: 1 <= k < |s| ==> s[k] == s[1..][k - 1];
      if s[0] <= rest then s[0] else rest
  }

  function MaxOf(s: seq<real>): (m: real)
    requires |s| > 0
    ensures m in s && forall k :: 0 <= k < |s| ==> s[k] <= m
  {
    if |s| == 1 then s[0]
    else
      var rest := MaxOf(s[1..]);
      assert forall k :: 1 <= k < |s| ==> s[k] == s[1..][k - 1];
      if s[0] >= rest then s[0] else rest
  }

  /** The input range that `rescale_intensity` divides by is not empty: a
      constant pattern (or an in_range with equal ends) gives NaN in the
      source, which this model does not represent. */
  predicate NonDegenerate(pattern: seq<real>, inRange: Option<(real, real)>)
  {
    match inRange
    case Some(r) => r.0 != r.1
    case None => |pattern| > 0 ==> MinOf(pattern) != MaxOf(pattern)
  }

  /** `rescale_intensity(pattern, in_range, out_range, dtype_out)`, before
      the final cast to `dtype_out`. `dtypeIn` is the pattern's own type. */
  function RescaleIntensity(pattern: seq<real>, inRange: Option<(real, real)>,
                            outRange: Option<(real, real)>, dtypeOut: Option<DType>,
                            dtypeIn: DType): (r: Result<seq<real>>)
    requires NonDegenerate(pattern, inRange)
    ensures r.Raise? <==>
              (inRange.None? && |pattern| == 0) ||
              (outRange.None? && DtypeMax(dtypeOut.GetOr(dtypeIn)).None?)
    ensures r.Raise? && inRange.None? && |pattern| == 0 ==> r.error == ValueError
    ensures r.Raise? && !(inRange.None? && |pattern| == 0) ==> r.error == KeyError
    ensures r.Ok? ==> |r.value| == |pattern|
    // with an input range, intensities are clipped first, so they land in the output range
    ensures r.Ok? && inRange.Some? && inRange.value.0 < inRange.value.1 ==>
              var (omin, omax) := OutRange(outRange, dtypeOut.GetOr(dtypeIn));
              omin <= omax ==> forall k :: 0 <= k < |pattern| ==> omin <= r.value[k] <= omax
    // without one, the pattern's own minimum and maximum become omin and omax,
    // and every intensity lands between them
    ensures r.Ok? && inRange.None? ==>
              var (omin, omax) := OutRange(outRange, dtypeOut.GetOr(dtypeIn));
              omin in r.value && omax in r.value &&
              (omin <= omax ==> forall k :: 0 <= k < |pattern| ==> omin <= r.value[k] <= omax)
    // each intensity, clipped first when an input range is given, goes through
    // the affine map sending imin to omin and imax to omax
    ensures r.Ok? ==>
              var (imin, imax) := InputRange(pattern, inRange);
              var (omin, omax) := OutRange(outRange, dtypeOut.GetOr(dtypeIn));
              forall k :: 0 <= k < |pattern| ==>
                r.value[k] == RescaleValue(if inRange.Some? then Clip(pattern[k], imin, imax) else pattern[k],
                                           imin, imax, omin, omax)
  {
    var dtype := dtypeOut.GetOr(dtypeIn);
    if inRange.None? && |pattern| == 0 then Raise(ValueError)
    else
      var (imin, imax) := InputRange(pattern, inRange);
      var p := if inRange.None? then pattern
               else seq(|pattern|, k requires 0 <= k < |pattern| => Clip(pattern[k], imin, imax));
      if outRange.None? && DtypeMax(dtype).None? then Raise(KeyError)
      else
        var (omin, omax) := OutRange(outRange, dtype);
        var out := Rescale(p, imin, imax, omin, omax);
        RescaleIntensityBounds(pattern, inRange, p, imin, imax, omin, omax, out);
        Ok(out)
  }

  /** The input range: the caller's, or the pattern's own minimum and
      maximum. */
  function InputRange(pattern: seq<real>, inRange: Option<(real, real)>): (real, real)
    requires inRange.Some? || |pattern| > 0
  {
    if inRange.Some? then inRange.value else (MinOf(pattern), MaxOf(pattern))
  }

  /** The output range: the caller's, or `(0, dtype max)`. */
  function OutRange(outRange: Option<(real, real)>, dtype: DType): (real, real)
    requires outRange.None? ==> DtypeMax(dtype).Some?
  {
    if outRange.Some? then outRange.value else (0.0, DtypeMax(dtype).value)
  }

  lemma RescaleIntensityBounds(pattern: seq<real>, inRange: Option<(real, real)>, p: seq<real>,
                               imin: real, imax: real, omin: real, omax: real, out: seq<real>)
    requires imin != imax
    requires inRange.None? ==> |pattern| > 0 && p == pattern && imin == MinOf(pattern) && imax == MaxOf(pattern)
    requires inRange.Some? ==>
               (imin, imax) == inRange.value && |p| == |pattern| &&
               forall k :: 0 <= k < |pattern| ==> p[k] == Clip(pattern[k], imin, imax)
    requires out == Rescale(p, imin, imax, omin, omax)
    ensures inRange.Some? && imin < imax && omin <= omax ==>
              forall k :: 0 <= k < |pattern| ==> omin <= out[k] <= omax
    ensures inRange.None? ==> omin in out && omax in out
    ensures inRange.None? && omin <= omax ==> forall k :: 0 <= k < |pattern| ==> omin <= out[k] <= omax
  {
    if inRange.None? && omin <= omax {
      forall k | 0 <= k < |pattern|
        ensures omin <= out[k] <= omax
      {
        RescaleEndpoints(pattern[k], imin, imax, omin, omax);
      }
    }
    if inRange.Some? && imin < imax && omin <= omax {
      forall k | 0 <= k < |pattern|
        ensures omin <= out[k] <= omax
      {
        RescaleEndpoints(p[k], imin, imax, omin, omax);
      }
    }
    if inRange.None? {
      var a :| 0 <= a < |pattern| && pattern[a] == imin;
      var b :| 0 <= b < |pattern| && pattern[b] == imax;
      RescaleEndpoints(imin, imin, imax, omin, omax);
      assert out[a] == omin;
      assert out[b] == omax;
    }
  }

  // ---------------------------------------------------------------------
  // Dynamic background: domain and operation dispatch
  // ---------------------------------------------------------------------

  datatype FilterDomain = Frequency | Spatial
  datatype Operation = Subtract | Divide

  /** How the background is obtained: the filter domain and the Gaussian
      standard deviation. */
  datatype BackgroundSetup = BackgroundSetup(domain: FilterDomain, std: real)

  /** The shared prelude of both dynamic-background functions: `std`
      defaults to the pattern width / 8, and the filter domain must be
      "frequency" or "spatial". */
  function BackgroundSetupOf(filterDomain: string, std: Option<real>, width: nat): Result<BackgroundSetup>
  {
    var s := std.GetOr(width as real / 8.0);
    if filterDomain == "frequency" then Ok(BackgroundSetup(Frequency, s))
    else if filterDomain == "spatial" then Ok(BackgroundSetup(Spatial, s))
    else Raise(ValueError)
  }

  /** `get_dynamic_background` before filtering. */
  function GetDynamicBackgroundSetup(filterDomain: string, std: Option<real>, width: nat): (r: Result<BackgroundSetup>)
    ensures r.Raise? <==> filterDomain !in {"frequency", "spatial"}
    ensures r.Raise? ==> r.error == ValueError
    ensures r.Ok? ==> r.value.std == (if std.Some? then std.value else width as real / 8.0)
    ensures r.Ok? ==> (r.value.domain == Frequency <==> filterDomain == "frequency")
  {
    BackgroundSetupOf(filterDomain, std, width)
  }

  /** What `remove_dynamic_background` does once the arguments are read. */
  datatype RemovalPlan = RemovalPlan(setup: BackgroundSetup, operation: Operation, dtypeOut: DType)

  /** "subtract" subtracts the background; any other string divides. */
  function OperationOf(operation: string): (op: Operation)
    ensures op == Subtract <==> operation == "subtract"
  {
    if operation == "subtract" then Subtract else Divide
  }

  /** `remove_dynamic_background` before filtering: the same domain check
      and std default, the operation, and `dtype_out` defaulting to the
      input type. */
  function RemoveDynamicBackgroundPlan(operation: string, filterDomain: string, std: Option<real>,
                                       width: nat, dtypeOut: Option<DType>, dtypeIn: DType): (r: Result<RemovalPlan>)
    ensures r.Raise? <==> filterDomain !in {"frequency", "spatial"}
    ensures r.Ok? ==> r.value.dtypeOut == (if dtypeOut.Some? then dtypeOut.value else dtypeIn)
    ensures r.Ok? ==> (r.value.operation == Subtract <==> operation == "subtract")
  {
    var setup :- BackgroundSetupOf(filterDomain, std, width);
    Ok(RemovalPlan(setup, OperationOf(operation), dtypeOut.GetOr(dtypeIn)))
  }

  /** The two dynamic-background functions accept and reject the same
      filter domains, with the same error, and blur with the same setup. */
  lemma DynamicBackgroundAgree(operation: string, filterDomain: string, std: Option<real>,
                               width: nat, dtypeOut: Option<DType>, dtypeIn: DType)
    ensures var g := GetDynamicBackgroundSetup(filterDomain, std, width);
            var r := RemoveDynamicBackgroundPlan(operation, filterDomain, std, width, dtypeOut, dtypeIn);
            (g.Raise? <==> r.Raise?) &&
            (g.Raise? ==> g.error == r.error == ValueError) &&
            (g.Ok? ==> g.value == r.value.setup)
  {
  }

  /** Removing the background: `pattern - bg` or `pattern / bg`. */
  function RemoveBackground(op: Operation, pattern: seq<real>, bg: seq<real>): (r: seq<real>)
    requires |bg| == |pattern|
    requires op == Divide ==> forall k :: 0 <= k < |bg| ==> bg[k] != 0.0
    ensures |r| == |pattern|
  {
    seq(|pattern|, k requires 0 <= k < |pattern| =>
      if op == Subtract then pattern[k] - bg[k] else pattern[k] / bg[k])
  }

  /** Subtracting and dividing undo adding and multiplying the background. */
  lemma RemoveBackgroundInverts(pattern: seq<real>, bg: seq<real>)
    requires |bg| == |pattern|
    requires forall k :: 0 <= k < |bg| ==> bg[k] != 0.0
    ensures RemoveBackground(Subtract, seq(|pattern|, k requires 0 <= k < |pattern| => pattern[k] + bg[k]), bg) == pattern
    ensures RemoveBackground(Divide, seq(|pattern|, k requires 0 <= k < |pattern| => pattern[k] * bg[k]), bg) == pattern
  {
    var scaled := seq(|pattern|, k requires 0 <= k < |pattern| => pattern[k] * bg[k]);
    forall k | 0 <= k < |pattern|
      ensures scaled[k] / bg[k] == pattern[k]
    {
      assert scaled[k] == pattern[k] * bg[k];
    }
  }

  // ---------------------------------------------------------------------
  // FFT guard
  // ---------------------------------------------------------------------

  /** The `apodization` argument: a flag or a window name. */
  datatype Apodization = Flag(on: bool) | WindowName(name: string)

  predicate Truthy(a: Apodization)
  {
    match a
    case Flag(b) => b
    case WindowName(n) => n != ""
  }

  /** Which transform `fft` runs. */
  datatype FftPlan = FftPlan(realOnly: bool, shifted: bool)

  /** `fft`: any truthy apodization raises NotImplementedError; otherwise
      `rfft2` or `fft2`, shifted or not. */
  function Fft(apodization: Apodization, shift: bool, realFftOnly: bool): (r: Result<FftPlan>)
    ensures r.Raise? <==> Truthy(apodization)
    ensures r.Raise? ==> r.error == NotImplementedError
    ensures r.Ok? ==> r.value == FftPlan(realFftOnly, shift)
  {
    if Truthy(apodization) then Raise(NotImplementedError) else Ok(FftPlan(realFftOnly, shift))
  }

  // ---------------------------------------------------------------------
  // FFT frequency weights
  // ---------------------------------------------------------------------

  /** The k-th entry of `line = arange(s) + 1; line[s // 2:] -= s + 1`. */
  function Line(s: nat, k: nat): int
  {
    if k < s / 2 then k + 1 else k - s
  }

  /** Entry (i, j) of `fft_frequency_vectors((sy, sx))`. */
  function FrequencyWeight(sy: nat, sx: nat, i: nat, j: nat): int
  {
    Line(sy, i) * Line(sy, i) + Line(sx, j) * Line(sx, j) - 1
  }

  /** The whole grid of weights, row by row. */
  function FrequencyGrid(sy: nat, sx: nat): (g: seq<seq<int>>)
    ensures |g| == sy && forall i :: 0 <= i < sy ==> |g[i]| == sx
    ensures forall i, j :: 0 <= i < sy && 0 <= j < sx ==> g[i][j] >= 1
    ensures sy > 0 && sx > 0 ==> g[0][0] == 1
  {
    FrequencyWeightsPositive(sy, sx);
    seq(sy, i requires 0 <= i < sy => seq(sx, j requires 0 <= j < sx => FrequencyWeight(sy, sx, i, j)))
  }

  /** Every line entry is a nonzero integer, so every weight is at least 1;
      the zero-frequency corner has weight exactly 1. */
  lemma FrequencyWeightBounds(sy: nat, sx: nat, i: nat, j: nat)
    requires i < sy && j < sx
    ensures FrequencyWeight(sy, sx, i, j) >= 1
    ensures FrequencyWeight(sy, sx, 0, 0) == 1
  {
    LineNonzero(sy, i);
    LineNonzero(sx, j);
    LineNonzero(sy, 0);
    LineNonzero(sx, 0);
    SquareOfNonzero(Line(sy, i));
    SquareOfNonzero(Line(sx, j));
  }

  lemma FrequencyWeightsPositive(sy: nat, sx: nat)
    ensures forall i, j :: 0 <= i < sy && 0 <= j < sx ==> FrequencyWeight(sy, sx, i, j) >= 1
    ensures sy > 0 && sx > 0 ==> FrequencyWeight(sy, sx, 0, 0) == 1
  {
    forall i, j | 0 <= i < sy && 0 <= j < sx
      ensures FrequencyWeight(sy, sx, i, j) >= 1
    {
      FrequencyWeightBounds(sy, sx, i, j);
    }
    if sy > 0 && sx > 0 {
      FrequencyWeightBounds(sy, sx, 0, 0);
    }
  }

  lemma LineNonzero(s: nat, k: nat)
    requires k < s
    ensures Line(s, k) != 0
    ensures k == 0 ==> Line(s, k) == 1 || Line(s, k) == -1
  {
  }

  lemma SquareOfNonzero(n: int)
    requires n != 0
    ensures n * n >= 1
  {
    if n > 0 {
      assert n * n >= n * 1;
    } else {
      assert n * n == (-n) * (-n);
      assert (-n) * (-n) >= (-n) * 1;
    }
  }

  /** The grids the source's tests tabulate for shapes (3, 3) and (5, 4). */
  lemma TabulatedGrids()
    ensures FrequencyGrid(3, 3) == [[1, 4, 1], [4, 7, 4], [1, 4, 1]]
    ensures FrequencyGrid(5, 4) == [[1, 4, 4, 1], [4, 7, 7, 4], [9, 12, 12, 9], [4, 7, 7, 4], [1, 4, 4, 1]]
  {
    assert FrequencyGrid(3, 3)[0] == [1, 4, 1];
    assert FrequencyGrid(3, 3)[1] == [4, 7, 4];
    assert FrequencyGrid(3, 3)[2] == [1, 4, 1];
    assert FrequencyGrid(5, 4)[0] == [1, 4, 4, 1];
    assert FrequencyGrid(5, 4)[1] == [4, 7, 7, 4];
    assert FrequencyGrid(5, 4)[2] == [9, 12, 12, 9];
    assert FrequencyGrid(5, 4)[3] == [4, 7, 7, 4];
    assert FrequencyGrid(5, 4)[4] == [1, 4, 4, 1];
  }

  /** `np.arange(s) + 1` followed by the in-place `line[s // 2:] -= s + 1`. */
  method LineVector(s: nat) returns (line: array<int>)
    ensures fresh(line)
    ensures line.Length == s
    ensures forall k :: 0 <= k < s ==> line[k] == Line(s, k)
  {
    line := new int[s](k => k + 1);
    var k := s / 2;
    while k < s
      invariant s / 2 <= k <= s
      invariant forall m :: 0 <= m < s / 2 ==> line[m] == m + 1
      invariant forall m :: s / 2 <= m < k ==> line[m] == m - s
      invariant forall m :: k <= m < s ==> line[m] == m + 1
    {
      line[k] := line[k] - (s + 1);
      k := k + 1;
    }
  }

  /** `fft_frequency_vectors((sy, sx))`: fills row i with
      `liney[i] ** 2 + linex ** 2 - 1`. */
  method FftFrequencyVectors(sy: nat, sx: nat) returns (fv: array2<int>)
    ensures fv.Length0 == sy && fv.Length1 == sx
    ensures forall i, j :: 0 <= i < sy && 0 <= j < sx ==> fv[i, j] == FrequencyGrid(sy, sx)[i][j]
  {
    var linex := LineVector(sx);
    var liney := LineVector(sy);
    var lx, ly := linex[..], liney[..];
    fv := new int[sy, sx];
    for i := 0 to sy
      invariant forall a, b :: 0 <= a < i && 0 <= b < sx ==> fv[a, b] == FrequencyWeight(sy, sx, a, b)
    {
      for j := 0 to sx
        invariant forall a, b :: 0 <= a < i && 0 <= b < sx ==> fv[a, b] == FrequencyWeight(sy, sx, a, b)
        invariant forall b :: 0 <= b < j ==> fv[i, b] == FrequencyWeight(sy, sx, i, b)
      {
        assert ly[i] == Line(sy, i) && lx[j] == Line(sx, j);
        fv[i, j] := ly[i] * ly[i] + lx[j] * lx[j] - 1;
      }
    }
  }
}
