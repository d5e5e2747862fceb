/** The chunk-wise pattern processing used by the lazy EBSD methods: the
    per-pattern rescaling, the loops that fill one output slot per
    navigation index, the frequency-vector grid of the image-quality map
    and the normalised correlation coefficient. A chunk is the sequence of
    its patterns in `np.ndindex` order; a pattern is its intensities in
    row-major order. */
module Experimental {
  import opened Common
  import opened DtypeRange
  import Pattern

  // ---------------------------------------------------------------------
  // _rescale_pattern
  // ---------------------------------------------------------------------

  /** The `dtype_out` argument: a scalar type such as `np.uint8`, an
      `np.dtype` instance (converted to its `.type` before the lookup), or
      anything else, which is not a key of the range table. */
  datatype DTypeArg = TypeObject(t: DType) | DtypeInstance(d: DType) | Unrecognised(name: string)

  /** The table lookup behind the default output range. */
  function DtypeArgMax(arg: DTypeArg): (m: Option<real>)
    ensures arg.Unrecognised? ==> m.None?
  {
    match arg
    case TypeObject(t) => DtypeMax(t)
    case DtypeInstance(d) => DtypeMax(d)
    case Unrecognised(_) => None
  }

  /** The output range: the caller's, or `(0, dtype max)`. A tuple is never
      a key of the range table, so `out_range in dtype_range` is false for
      every given range. */
  function OutRangeOf(outRange: Option<(real, real)>, d: DTypeArg): (real, real)
    requires outRange.None? ==> DtypeArgMax(d).Some?
  {
    if outRange.Some? then outRange.value else (0.0, DtypeArgMax(d).value)
  }

  /** `_rescale_pattern(pattern, in_range, out_range, dtype_out)` before the
      final cast. The result of `pattern.clip(imin, imax)` is discarded, so
      the given input range is used unclipped. */
  function RescalePattern(pattern: seq<real>, inRange: Option<(real, real)>,
                          outRange: Option<(real, real)>, dtypeOut: Option<DTypeArg>,
                          dtypeIn: DType): (r: Result<seq<real>>)
    requires Pattern.NonDegenerate(pattern, inRange)
    ensures r.Raise? <==>
              (inRange.None? && |pattern| == 0) ||
              (outRange.None? && DtypeArgMax(dtypeOut.GetOr(DtypeInstance(dtypeIn))).None?)
    ensures r.Raise? && inRange.None? && |pattern| == 0 ==> r.error == ValueError
    ensures r.Raise? && !(inRange.None? && |pattern| == 0) ==> r.error == KeyError
    ensures r.Ok? ==> |r.value| == |pattern|
    // a given input range maps into the output range exactly the values inside it ...
    ensures r.Ok? && inRange.Some? && inRange.value.0 < inRange.value.1 ==>
              var (omin, omax) := OutRangeOf(outRange, dtypeOut.GetOr(DtypeInstance(dtypeIn)));
              omin < omax ==>
                forall k :: 0 <= k < |pattern| ==>
                  (inRange.value.0 <= pattern[k] <= inRange.value.1 <==> omin <= r.value[k] <= omax)
    // ... and without one, the pattern's minimum and maximum become omin and
    // omax, with every intensity between them
    ensures r.Ok? && inRange.None? ==>
              var (omin, omax) := OutRangeOf(outRange, dtypeOut.GetOr(DtypeInstance(dtypeIn)));
              omin in r.value && omax in r.value &&
              (omin <= omax ==> forall k :: 0 <= k < |pattern| ==> omin <= r.value[k] <= omax)
    // each intensity, unclipped, goes through the affine map sending imin to
    // omin and imax to omax
    ensures r.Ok? ==>
              var (imin, imax) := Pattern.InputRange(pattern, inRange);
              var (omin, omax) := OutRangeOf(outRange, dtypeOut.GetOr(DtypeInstance(dtypeIn)));
              forall k :: 0 <= k < |pattern| ==>
                r.value[k] == Pattern.RescaleValue(pattern[k], imin, imax, omin, omax)
  {
    var d := dtypeOut.GetOr(DtypeInstance(dtypeIn));
    if inRange.None? && |pattern| == 0 then Raise(ValueError)
    else
      var (imin, imax) := Pattern.InputRange(pattern, inRange);
      if outRange.None? && DtypeArgMax(d).None? then Raise(KeyError)
      else
        var (omin, omax) := OutRangeOf(outRange, d);
        var out := Pattern.Rescale(pattern, imin, imax, omin, omax);
        RescalePatternBounds(pattern, inRange, imin, imax, omin, omax, out);
        Ok(out)
  }

  /** A strictly increasing affine map: inside [imin, imax] iff the image
      is inside [omin, omax]. */
  lemma RescaleValueInsideIff(v: real, imin: real, imax: real, omin: real, omax: real)
    requires imin < imax && omin < omax
    ensures imin <= v <= imax <==> omin <= Pattern.RescaleValue(v, imin, imax, omin, omax) <= omax
  {
    var t := (v - imin) / (imax - imin);
    assert t * (imax - imin) == v - imin;
    assert Pattern.RescaleValue(v, imin, imax, omin, omax) == t * (omax - omin) + omin;
    if v < imin {
      FactorSign(t, imax - imin);
      assert t * (omax - omin) < 0.0;
    } else if v > imax {
      assert (t - 1.0) * (imax - imin) == v - imax;
      FactorSign(t - 1.0, imax - imin);
      assert (t - 1.0) * (omax - omin) > 0.0;
    } else {
      Pattern.RescaleEndpoints(v, imin, imax, omin, omax);
    }
  }

  lemma FactorSign(y: real, d: real)
    requires d > 0.0
    ensures y * d < 0.0 ==> y < 0.0
    ensures y * d > 0.0 ==> y > 0.0
  {
  }

  lemma RescalePatternBounds(pattern: seq<real>, inRange: Option<(real, real)>,
                             imin: real, imax: real, omin: real, omax: real, out: seq<real>)
    requires imin != imax
    requires inRange.None? ==> |pattern| > 0 && imin == Pattern.MinOf(pattern) && imax == Pattern.MaxOf(pattern)
    requires inRange.Some? ==> (imin, imax) == inRange.value
    requires out == Pattern.Rescale(pattern, imin, imax, omin, omax)
    ensures inRange.Some? && imin < imax && omin < omax ==>
              forall k :: 0 <= k < |pattern| ==> (imin <= pattern[k] <= imax <==> omin <= out[k] <= omax)
    ensures inRange.None? ==> omin in out && omax in out
    ensures inRange.None? && omin <= omax ==> forall k :: 0 <= k < |pattern| ==> omin <= out[k] <= omax
  {
    if inRange.None? && omin <= omax {
      forall k | 0 <= k < |pattern|
        ensures omin <= out[k] <= omax
      {
        Pattern.RescaleEndpoints(pattern[k], imin, imax, omin, omax);
      }
    }
    if inRange.Some? && imin < imax && omin < omax {
      forall k | 0 <= k < |pattern|
        ensures imin <= pattern[k] <= imax <==> omin <= out[k] <= omax
      {
        RescaleValueInsideIff(pattern[k], imin, imax, omin, omax);
      }
    }
    if inRange.None? {
      var a :| 0 <= a < |pattern| && pattern[a] == imin;
      var b :| 0 <= b < |pattern| && pattern[b] == imax;
      Pattern.RescaleEndpoints(imin, imin, imax, omin, omax);
      assert out[a] == omin;
      assert out[b] == omax;
    }
  }

  /** Without an input range, the chunk rescaling and `rescale_intensity`
      compute the same intensities. */
  lemma RescalePatternAgreesWithoutInRange(pattern: seq<real>, outRange: Option<(real, real)>, t: DType, dtypeIn: DType)
    requires Pattern.NonDegenerate(pattern, None)
    ensures RescalePattern(pattern, None, outRange, Some(TypeObject(t)), dtypeIn)
            == Pattern.RescaleIntensity(pattern, None, outRange, Some(t), dtypeIn)
    ensures RescalePattern(pattern, None, outRange, None, dtypeIn)
            == Pattern.RescaleIntensity(pattern, None, outRange, None, dtypeIn)
  {
  }

  /** With an input range narrower than the pattern, the chunk rescaling
      leaves the output range while `rescale_intensity` clips into it. */
  lemma RescalePatternDoesNotClip()
    ensures RescalePattern([0.0, 2.0], Some((0.0, 1.0)), Some((0.0, 1.0)), None, Float64) == Ok([0.0, 2.0])
    ensures Pattern.RescaleIntensity([0.0, 2.0], Some((0.0, 1.0)), Some((0.0, 1.0)), None, Float64) == Ok([0.0, 1.0])
  {
    assert Pattern.Rescale([0.0, 2.0], 0.0, 1.0, 0.0, 1.0) == [0.0, 2.0];
    assert Pattern.Rescale([0.0, 1.0], 0.0, 1.0, 0.0, 1.0) == [0.0, 1.0];
    assert seq(2, k requires 0 <= k < 2 => Pattern.Clip([0.0, 2.0][k], 0.0, 1.0)) == [0.0, 1.0];
  }

  // ---------------------------------------------------------------------
  // The chunk loops
  // ---------------------------------------------------------------------

  /** Some pattern of the chunk fails, and the first failure is at index k. */
  predicate FirstFailureAt(results: seq<Result<seq<real>>>, k: int)
  {
    0 <= k < |results| && results[k].Raise? && forall j :: 0 <= j < k ==> results[j].Ok?
  }

  /** What a chunk loop returns, given every per-pattern result: the
      first exception raised, or one output pattern per navigation index,
      slot k holding the result for input pattern k. */
  ghost predicate ChunkOutcome(results: seq<Result<seq<real>>>, r: Result<seq<seq<real>>>)
  {
    (r.Raise? <==> exists k :: 0 <= k < |results| && results[k].Raise?) &&
    (r.Raise? ==> exists k :: FirstFailureAt(results, k) && results[k].error == r.error) &&
    (r.Ok? ==> |r.value| == |results| && forall k :: 0 <= k < |results| ==> results[k] == Ok(r.value[k]))
  }

  /** The outcome of running the per-pattern computations in order. */
  function ChunkOf(results: seq<Result<seq<real>>>): Result<seq<seq<real>>>
  {
    if results == [] then Ok([])
    else if results[0].Raise? then Raise(results[0].error)
    else
      match ChunkOf(results[1..])
      case Raise(e) => Raise(e)
      case Ok(rest) => Ok([results[0].value] + rest)
  }

  /** ChunkOf is exactly the outcome described by ChunkOutcome. */
  lemma {:induction false} ChunkOfOutcome(results: seq<Result<seq<real>>>)
    ensures ChunkOutcome(results, ChunkOf(results))
  {
    if results != [] && results[0].Ok? {
      var tail := results[1..];
      ChunkOfOutcome(tail);
      assert forall k :: 1 <= k < |results| ==> results[k] == tail[k - 1];
      var r := ChunkOf(results);
      if r.Raise? {
        var k :| FirstFailureAt(tail, k) && tail[k].error == r.error;
        assert FirstFailureAt(results, k + 1);
      } else {
        assert r.value == [results[0].value] + ChunkOf(tail).value;
      }
    } else if results != [] {
      assert FirstFailureAt(results, 0);
    }
  }

  /** When every result is a value, the chunk holds those values. */
  lemma ChunkOfAllOk(results: seq<Result<seq<real>>>, out: seq<seq<real>>)
    requires |out| == |results| && forall k :: 0 <= k < |results| ==> results[k] == Ok(out[k])
    ensures ChunkOf(results) == Ok(out)
  {
    ChunkOfOutcome(results);
    var r := ChunkOf(results);
    assert r.Ok?;
    assert r.value == out;
  }

  /** The first failure decides the chunk's exception. */
  lemma ChunkOfFirstFailure(results: seq<Result<seq<real>>>, k: int)
    requires FirstFailureAt(results, k)
    ensures ChunkOf(results) == Raise(results[k].error)
  {
    ChunkOfOutcome(results);
    var r := ChunkOf(results);
    var m :| FirstFailureAt(results, m) && results[m].error == r.error;
    assert m == k;
  }

  /** The per-pattern results of `_rescale_pattern_chunk`. */
  function RescaleResults(patterns: seq<seq<real>>, inRange: Option<(real, real)>,
                          outRange: Option<(real, real)>, dtypeOut: Option<DTypeArg>,
                          dtypeIn: DType): (rs: seq<Result<seq<real>>>)
    requires forall k :: 0 <= k < |patterns| ==> Pattern.NonDegenerate(patterns[k], inRange)
    ensures |rs| == |patterns|
  {
    seq(|patterns|, k requires 0 <= k < |patterns| => RescalePattern(patterns[k], inRange, outRange, dtypeOut, dtypeIn))
  }

  /** `_rescale_pattern_chunk`. */
  method RescalePatternChunk(patterns: seq<seq<real>>, inRange: Option<(real, real)>,
                             outRange: Option<(real, real)>, dtypeOut: Option<DTypeArg>,
                             dtypeIn: DType) returns (r: Result<seq<seq<real>>>)
    requires forall k :: 0 <= k < |patterns| ==> Pattern.NonDegenerate(patterns[k], inRange)
    ensures r == ChunkOf(RescaleResults(patterns, inRange, outRange, dtypeOut, dtypeIn))
  {
    ghost var results := RescaleResults(patterns, inRange, outRange, dtypeOut, dtypeIn);
    var out := new seq<real>[|patterns|];
    for k := 0 to |patterns|
      invariant forall j :: 0 <= j < k ==> results[j] == Ok(out[j])
    {
      ghost var before := out[..];
      var rescaled := RescalePattern(patterns[k], inRange, outRange, dtypeOut, dtypeIn);
      assert results[k] == rescaled;
      if rescaled.Raise? {
        ChunkOfFirstFailure(results, k);
        return Raise(rescaled.error);
      }
      out[k] := rescaled.value;
      assert forall j :: 0 <= j < k ==> out[j] == before[j];
    }
    ChunkOfAllOk(results, out[..]);
    r := Ok(out[..]);
  }

  /** The background can be removed from the pattern (same shape, and no
      zero to divide by), and the corrected pattern is not constant. */
  predicate CorrectionDefined(op: Pattern.Operation, pattern: seq<real>, bg: seq<real>, inRange: Option<(real, real)>)
  {
    |bg| == |pattern| &&
    (op == Pattern.Divide ==> forall k :: 0 <= k < |bg| ==> bg[k] != 0.0) &&
    Pattern.NonDegenerate(Pattern.RemoveBackground(op, pattern, bg), inRange)
  }

  /** One pattern of a background-correction chunk: remove the background,
      then rescale into the range of the dtype. */
  function CorrectAndRescale(op: Pattern.Operation, pattern: seq<real>, bg: seq<real>,
                             inRange: Option<(real, real)>, d: DTypeArg, dtypeIn: DType): (r: Result<seq<real>>)
    requires CorrectionDefined(op, pattern, bg, inRange)
    ensures r.Ok? ==> |r.value| == |pattern|
  {
    RescalePattern(Pattern.RemoveBackground(op, pattern, bg), inRange, None, Some(d), dtypeIn)
  }

  /** The loop body's `pattern - bg` when operation is "subtract", else
      `pattern / bg`. */
  method CorrectPattern(operation: string, pattern: seq<real>, bg: seq<real>) returns (corrected: seq<real>)
    requires |bg| == |pattern|
    requires operation != "subtract" ==> forall k :: 0 <= k < |bg| ==> bg[k] != 0.0
    ensures corrected == Pattern.RemoveBackground(Pattern.OperationOf(operation), pattern, bg)
  {
    if operation == "subtract" {
      corrected := Pattern.RemoveBackground(Pattern.Subtract, pattern, bg);
    } else {
      corrected := Pattern.RemoveBackground(Pattern.Divide, pattern, bg);
    }
  }

  /** The loop body of both background-correction chunks: correct, then
      `_rescale_pattern(corrected, in_range, dtype_out=dtype_out)`. */
  method CorrectAndRescalePattern(operation: string, pattern: seq<real>, bg: seq<real>,
                                  inRange: Option<(real, real)>, d: DTypeArg, dtypeIn: DType)
    returns (r: Result<seq<real>>)
    requires CorrectionDefined(Pattern.OperationOf(operation), pattern, bg, inRange)
    ensures r == CorrectAndRescale(Pattern.OperationOf(operation), pattern, bg, inRange, d, dtypeIn)
  {
    var corrected := CorrectPattern(operation, pattern, bg);
    r := RescalePattern(corrected, inRange, None, Some(d), dtypeIn);
  }

  /** Every pattern of the chunk can be corrected with the static background. */
  predicate StaticCorrectable(patterns: seq<seq<real>>, staticBg: seq<real>, op: Pattern.Operation,
                              inRange: Option<(real, real)>)
  {
    forall k :: 0 <= k < |patterns| ==> CorrectionDefined(op, patterns[k], staticBg, inRange)
  }

  /** The per-pattern results of `_static_background_correction_chunk`. */
  function StaticResults(patterns: seq<seq<real>>, staticBg: seq<real>, op: Pattern.Operation,
                         inRange: Option<(real, real)>, d: DTypeArg, dtypeIn: DType): (rs: seq<Result<seq<real>>>)
    requires StaticCorrectable(patterns, staticBg, op, inRange)
    ensures |rs| == |patterns|
  {
    seq(|patterns|, k requires 0 <= k < |patterns| => CorrectAndRescale(op, patterns[k], staticBg, inRange, d, dtypeIn))
  }

  /** `_static_background_correction_chunk`: each pattern minus (or
      divided by) the static background, rescaled with the given input
      range into the range of `dtype_out`, which defaults to the chunk's
      own dtype. */
  method StaticBackgroundCorrectionChunk(patterns: seq<seq<real>>, staticBg: seq<real>, operation: string,
                                         inRange: Option<(real, real)>, dtypeOut: Option<DTypeArg>,
                                         dtypeIn: DType) returns (r: Result<seq<seq<real>>>)
    requires StaticCorrectable(patterns, staticBg, Pattern.OperationOf(operation), inRange)
    ensures r == ChunkOf(StaticResults(patterns, staticBg, Pattern.OperationOf(operation), inRange,
                                       dtypeOut.GetOr(DtypeInstance(dtypeIn)), dtypeIn))
  {
    var d := dtypeOut.GetOr(DtypeInstance(dtypeIn));
    r := CorrectStatic(patterns, staticBg, operation, inRange, d, dtypeIn);
  }

  /** The loop of `_static_background_correction_chunk`, once the output
      dtype is settled. */
  method CorrectStatic(patterns: seq<seq<real>>, staticBg: seq<real>, operation: string,
                       inRange: Option<(real, real)>, d: DTypeArg, dtypeIn: DType) returns (r: Result<seq<seq<real>>>)
    requires StaticCorrectable(patterns, staticBg, Pattern.OperationOf(operation), inRange)
    ensures r == ChunkOf(StaticResults(patterns, staticBg, Pattern.OperationOf(operation), inRange, d, dtypeIn))
  {
    ghost var results := StaticResults(patterns, staticBg, Pattern.OperationOf(operation), inRange, d, dtypeIn);
    var out := new seq<real>[|patterns|];
    for k := 0 to |patterns|
      invariant forall j :: 0 <= j < k ==> results[j] == Ok(out[j])
    {
      ghost var before := out[..];
      var rescaled := CorrectAndRescalePattern(operation, patterns[k], staticBg, inRange, d, dtypeIn);
      assert results[k] == rescaled;
      if rescaled.Raise? {
        ChunkOfFirstFailure(results, k);
        return Raise(rescaled.error);
      }
      out[k] := rescaled.value;
      assert forall j :: 0 <= j < k ==> out[j] == before[j];
    }
    ChunkOfAllOk(results, out[..]);
    r := Ok(out[..]);
  }

  /** The Gaussian filter, `gaussian_filter(pattern, sigma)`, which this
      model takes as a parameter. */
  type Blur = (seq<real>, real) -> seq<real>

  /** The per-pattern results of `_dynamic_background_correction_chunk`. */
  function DynamicResults(patterns: seq<seq<real>>, sigma: real, op: Pattern.Operation,
                          d: DTypeArg, dtypeIn: DType, blur: Blur): (rs: seq<Result<seq<real>>>)
    requires forall k :: 0 <= k < |patterns| ==> CorrectionDefined(op, patterns[k], blur(patterns[k], sigma), None)
    ensures |rs| == |patterns|
  {
    seq(|patterns|, k requires 0 <= k < |patterns| =>
      CorrectAndRescale(op, patterns[k], blur(patterns[k], sigma), None, d, dtypeIn))
  }

  /** `_dynamic_background_correction_chunk`: each pattern minus (or
      divided by) its own blurred copy, rescaled to the full range of
      `dtype_out`. */
  method DynamicBackgroundCorrectionChunk(patterns: seq<seq<real>>, sigma: real, operation: string,
                                          dtypeOut: Option<DTypeArg>, dtypeIn: DType, blur: Blur)
    returns (r: Result<seq<seq<real>>>)
    requires forall k :: 0 <= k < |patterns| ==>
               CorrectionDefined(Pattern.OperationOf(operation), patterns[k], blur(patterns[k], sigma), None)
    ensures r == ChunkOf(DynamicResults(patterns, sigma, Pattern.OperationOf(operation),
                                        dtypeOut.GetOr(DtypeInstance(dtypeIn)), dtypeIn, blur))
  {
    var d := dtypeOut.GetOr(DtypeInstance(dtypeIn));
    ghost var results := DynamicResults(patterns, sigma, Pattern.OperationOf(operation), d, dtypeIn, blur);
    var out := new seq<real>[|patterns|];
    for k := 0 to |patterns|
      invariant forall j :: 0 <= j < k ==> results[j] == Ok(out[j])
    {
      ghost var before := out[..];
      var blurred := blur(patterns[k], sigma);
      var rescaled := CorrectAndRescalePattern(operation, patterns[k], blurred, None, d, dtypeIn);
      assert results[k] == rescaled;
      if rescaled.Raise? {
        ChunkOfFirstFailure(results, k);
        return Raise(rescaled.error);
      }
      out[k] := rescaled.value;
      assert forall j :: 0 <= j < k ==> out[j] == before[j];
    }
    ChunkOfAllOk(results, out[..]);
    r := Ok(out[..]);
  }

  /** `_normalize_pattern(pattern, num_std, divide_square_root)`, which
      this model takes as a parameter. */
  type Normalizer = (seq<real>, real, bool) -> seq<real>

  /** `_normalize_pattern_chunk`: slot k holds the normalised pattern k. */
  method NormalizePatternChunk(patterns: seq<seq<real>>, numStd: real, divideSquareRoot: bool,
                               normalize: Normalizer) returns (r: seq<seq<real>>)
    ensures |r| == |patterns|
    ensures forall k :: 0 <= k < |patterns| ==> r[k] == normalize(patterns[k], numStd, divideSquareRoot)
  {
    var out := new seq<real>[|patterns|];
    for k := 0 to |patterns|
      invariant forall j :: 0 <= j < k ==> out[j] == normalize(patterns[j], numStd, divideSquareRoot)
    {
      out[k] := normalize(patterns[k], numStd, divideSquareRoot);
    }
    r := out[..];
  }

  // ---------------------------------------------------------------------
  // _frequency_vectors
  // ---------------------------------------------------------------------

  /** Entry k of the method-1 line: `arange(s)` with `s` subtracted from
      the entries after `s // 2`, the signed FFT frequency index. */
  function WrappedLine(s: nat, k: nat): int
  {
    if k <= s / 2 then k else k - s
  }

  /** Entry k of `arange((-s) // 2, s // 2)`, the centred line. */
  function CentredLine(s: nat, k: nat): int
  {
    FloorDiv(-(s as int), 2) + k
  }

  function FrequencyLine(kind: int, s: nat, k: nat): int
  {
    if kind == 1 then WrappedLine(s, k) else CentredLine(s, k)
  }

  /** The centred line holds exactly s consecutive integers:
      s // 2 - (-s) // 2 == s. */
  lemma CentredLineLength(s: nat)
    ensures s / 2 - FloorDiv(-(s as int), 2) == s
  {
  }

  /** Frequency k and frequency s - k have the same magnitude. */
  lemma WrappedLineSymmetric(s: nat, k: nat)
    requires 0 < k < s
    ensures WrappedLine(s, k) * WrappedLine(s, k) == WrappedLine(s, s - k) * WrappedLine(s, s - k)
  {
    if k <= s / 2 && s - k > s / 2 {
      assert WrappedLine(s, s - k) == -(k as int);
    }
  }

  /** The line of `_frequency_vectors`: for method 1, `arange(s)` and then
      the in-place `line[s // 2 + 1 : s] -= s`; otherwise the centred range. */
  method FrequencyLineVector(kind: int, s: nat) returns (line: seq<int>)
    ensures |line| == s
    ensures forall k :: 0 <= k < s ==> line[k] == FrequencyLine(kind, s, k)
  {
    if kind == 1 {
      var a := new int[s](k => k);
      var lo := if s / 2 + 1 <= s then s / 2 + 1 else s;
      for k := lo to s
        invariant forall m :: 0 <= m < s ==> a[m] == (if lo <= m < k then m - s else m)
      {
        a[k] := a[k] - s;
      }
      line := a[..];
    } else {
      CentredLineLength(s);
      line := seq(s, k requires 0 <= k < s => FloorDiv(-(s as int), 2) + k);
    }
  }

  /** Entry (i, j) of a completed grid. */
  function FrequencyEntry(kind: int, sx: nat, sy: nat, i: nat, j: nat): int
  {
    FrequencyLine(kind, sx, i) * FrequencyLine(kind, sx, i) + FrequencyLine(kind, sy, j) * FrequencyLine(kind, sy, j)
  }

  /** `_frequency_vectors((sx, sy), method)`, with `kind` the method: the
      grid has sy rows of sx entries, and the loop over range(sx) assigns
      row i the values `linex[i] ** 2 + liney ** 2`. It completes only when
      sx == sy or sx == 0: with sy <= 1 < sx the loop reaches a row that
      does not exist, and otherwise sy values do not fit a row of sx. */
  method FrequencyVectors(sx: nat, sy: nat, kind: int) returns (r: Result<seq<seq<int>>>)
    ensures r.Ok? <==> sx == sy || sx == 0
    ensures r.Raise? ==> r.error == (if sy <= 1 then IndexError else ValueError)
    ensures r.Ok? ==> |r.value| == sy && forall i :: 0 <= i < sy ==> |r.value[i]| == sx
    ensures r.Ok? ==> forall i, j :: 0 <= i < sy && 0 <= j < sx ==> r.value[i][j] == FrequencyEntry(kind, sx, sy, i, j)
  {
    var linex := FrequencyLineVector(kind, sx);
    var liney := FrequencyLineVector(kind, sy);
    // np.empty((sy, sx)): rows of sx entries; a row is replaced whole
    var rows := new seq<int>[sy](_ => seq(sx, _ => 0));
    for i := 0 to sx
      invariant i <= sy
      invariant sx != sy ==> i == 0 || (i == 1 && sy == 1)
      invariant forall a :: 0 <= a < sy ==> |rows[a]| == sx
      invariant sx == sy ==> forall a, b :: 0 <= a < i && 0 <= b < sx ==> rows[a][b] == FrequencyEntry(kind, sx, sy, a, b)
    {
      if i >= sy {
        return Raise(IndexError);
      }
      if sy != sx && sy != 1 {
        return Raise(ValueError);
      }
      // liney of length sy == sx, or of length 1 broadcast over the row
      rows[i] := seq(sx, j requires 0 <= j < sx => linex[i] * linex[i] + liney[if sy == sx then j else 0] * liney[if sy == sx then j else 0]);
    }
    r := Ok(rows[..]);
  }

  /** The method-1 grid is zero at the zero frequency, non-negative
      everywhere, and symmetric under i, j -> s - i, s - j. */
  lemma WrappedGridProperties(s: nat, i: nat, j: nat)
    requires 0 < i < s && 0 < j < s
    ensures FrequencyEntry(1, s, s, 0, 0) == 0
    ensures FrequencyEntry(1, s, s, i, j) >= 0
    ensures FrequencyEntry(1, s, s, i, j) == FrequencyEntry(1, s, s, s - i, s - j)
  {
    WrappedLineSymmetric(s, i);
    WrappedLineSymmetric(s, j);
  }

  // ---------------------------------------------------------------------
  // normalised_correlation_coefficient
  // ---------------------------------------------------------------------

  function Sum(s: seq<real>): real
  {
    if s == [] then 0.0 else s[0] + Sum(s[1..])
  }

  /** `np.sum(a * b)`. */
  function Dot(a: seq<real>, b: seq<real>): real
    requires |a| == |b|
  {
    if a == [] then 0.0 else a[0] * b[0] + Dot(a[1..], b[1..])
  }

  /** `a - a.mean()`. */
  function Centre(a: seq<real>): (c: seq<real>)
    requires |a| > 0
    ensures |c| == |a|
  {
    var m := Sum(a) / |a| as real;
    seq(|a|, k requires 0 <= k < |a| => a[k] - m)
  }

  function Prepared(a: seq<real>, zeroNormalised: bool): (c: seq<real>)
    ensures |c| == |a|
  {
    if zeroNormalised && |a| > 0 then Centre(a) else a
  }

  /** The coefficient's denominator is not zero; with a zero sum of
      squares the source returns NaN or inf, which this model does not
      represent. */
  predicate CorrelationDefined(pattern: seq<real>, template: seq<real>, zeroNormalised: bool)
  {
    |pattern| == |template| &&
    Dot(Prepared(pattern, zeroNormalised), Prepared(pattern, zeroNormalised)) != 0.0 &&
    Dot(Prepared(template, zeroNormalised), Prepared(template, zeroNormalised)) != 0.0
  }

  /** The three sums of the coefficient N / sqrt(P * T): N = sum(p * t),
      P = sum(p ** 2), T = sum(t ** 2). */
  datatype Correlation = Correlation(n: real, p: real, t: real)

  /** The coefficient lies in [-1, 1]: N² <= P·T with P, T > 0. */
  predicate InUnitRange(c: Correlation)
  {
    c.p > 0.0 && c.t > 0.0 && c.n * c.n <= c.p * c.t
  }

  /** The coefficient is exactly 1: N = P = T > 0. */
  predicate IsOne(c: Correlation)
  {
    c.p > 0.0 && c.n == c.p == c.t
  }

  /** `normalised_correlation_coefficient(pattern, template, zero_normalised)`,
      given by the sums the coefficient is computed from; the final square
      root and division are not modelled. */
  function NormalisedCorrelation(pattern: seq<real>, template: seq<real>, zeroNormalised: bool): (c: Correlation)
    requires CorrelationDefined(pattern, template, zeroNormalised)
    ensures InUnitRange(c)
  {
    var p := Prepared(pattern, zeroNormalised);
    var t := Prepared(template, zeroNormalised);
    CauchySchwarz(p, t);
    DotNonnegative(p);
    DotNonnegative(t);
    Correlation(Dot(p, t), Dot(p, p), Dot(t, t))
  }

  lemma DotNonnegative(a: seq<real>)
    ensures Dot(a, a) >= 0.0
  {
    if a != [] {
      DotNonnegative(a[1..]);
      assert a[0] * a[0] >= 0.0;
    }
  }

  /** Cauchy–Schwarz: (a·b)² <= (a·a)(b·b). */
  lemma {:induction false} CauchySchwarz(a: seq<real>, b: seq<real>)
    requires |a| == |b|
    ensures Dot(a, b) * Dot(a, b) <= Dot(a, a) * Dot(b, b)
  {
    if a != [] {
      CauchySchwarz(a[1..], b[1..]);
      DotNonnegative(a[1..]);
      DotNonnegative(b[1..]);
      var aa, bb, ab := Dot(a[1..], a[1..]), Dot(b[1..], b[1..]), Dot(a[1..], b[1..]);
      var naa, nbb, nab := Dot(a, a), Dot(b, b), Dot(a, b);
      assert naa == a[0] * a[0] + aa && nbb == b[0] * b[0] + bb && nab == a[0] * b[0] + ab;
      CauchySchwarzStep(a[0], b[0], aa, bb, ab, naa, nbb, nab);
    }
  }

  /** One more coordinate keeps the inequality: if C² <= AB then
      (xy + C)² <= (x² + A)(y² + B), the three sums being named. */
  lemma CauchySchwarzStep(x: real, y: real, aa: real, bb: real, ab: real, naa: real, nbb: real, nab: real)
    requires aa >= 0.0 && bb >= 0.0 && ab * ab <= aa * bb
    requires naa == x * x + aa && nbb == y * y + bb && nab == x * y + ab
    ensures nab * nab <= naa * nbb
  {
    CrossTermBound(x, y, aa, bb, ab);
    assert nab * nab == (x * y) * (x * y) + 2.0 * x * y * ab + ab * ab;
    assert naa * nbb == (x * y) * (x * y) + x * x * bb + y * y * aa + aa * bb;
  }

  /** 2xyC <= x²B + y²A whenever C² <= AB and A, B >= 0. */
  lemma CrossTermBound(x: real, y: real, aa: real, bb: real, ab: real)
    requires aa >= 0.0 && bb >= 0.0 && ab * ab <= aa * bb
    ensures 2.0 * x * y * ab <= x * x * bb + y * y * aa
  {
    var xx, yy := x * x, y * y;
    assert xx >= 0.0 && yy >= 0.0;
    var u, v := xx * bb, yy * aa;
    assert u >= 0.0 && v >= 0.0;
    var w := 2.0 * x * y * ab;
    var c := 4.0 * xx * yy;
    assert c >= 0.0;
    assert (u - v) * (u - v) >= 0.0;
    assert (u + v) * (u + v) >= 4.0 * u * v;
    assert 4.0 * u * v == c * (aa * bb);
    assert w * w == c * (ab * ab);
    assert c * (aa * bb - ab * ab) >= 0.0;
    SquareMonotone(w, u + v);
  }

  lemma SquareMonotone(w: real, z: real)
    requires z >= 0.0 && w * w <= z * z
    ensures w <= z
  {
    StrictSquare(w, z);
  }

  lemma StrictSquare(w: real, z: real)
    requires z >= 0.0
    ensures w > z ==> w * w > z * z
  {
    if w > z {
      PositiveProduct(w - z, w + z);
      assert w * w - z * z == (w - z) * (w + z);
    }
  }

  lemma PositiveProduct(a: real, b: real)
    requires a > 0.0 && b > 0.0
    ensures a * b > 0.0
  {
  }

  lemma DotSymmetric(a: seq<real>, b: seq<real>)
    requires |a| == |b|
    ensures Dot(a, b) == Dot(b, a)
  {
    if a != [] {
      DotSymmetric(a[1..], b[1..]);
    }
  }

  /** A pattern matched against itself scores exactly 1. */
  lemma CorrelationWithItself(pattern: seq<real>, zeroNormalised: bool)
    requires CorrelationDefined(pattern, pattern, zeroNormalised)
    ensures IsOne(NormalisedCorrelation(pattern, pattern, zeroNormalised))
  {
  }

  /** The coefficient does not depend on which argument is the template. */
  lemma CorrelationSymmetric(pattern: seq<real>, template: seq<real>, zeroNormalised: bool)
    requires CorrelationDefined(pattern, template, zeroNormalised)
    ensures CorrelationDefined(template, pattern, zeroNormalised)
    ensures var c := NormalisedCorrelation(pattern, template, zeroNormalised);
            var d := NormalisedCorrelation(template, pattern, zeroNormalised);
            c.n == d.n && c.p == d.t && c.t == d.p
  {
    DotSymmetric(Prepared(pattern, zeroNormalised), Prepared(template, zeroNormalised));
  }

  lemma DotOfNonnegative(a: seq<real>, b: seq<real>)
    requires |a| == |b|
    requires forall k :: 0 <= k < |a| ==> a[k] >= 0.0 && b[k] >= 0.0
    ensures Dot(a, b) >= 0.0
  {
    if a != [] {
      assert a[0] * b[0] >= 0.0;
      DotOfNonnegative(a[1..], b[1..]);
    }
  }

  /** Without zero-normalisation, non-negative intensities give a
      coefficient in [0, 1]. */
  lemma CorrelationOfNonnegative(pattern: seq<real>, template: seq<real>)
    requires CorrelationDefined(pattern, template, false)
    requires forall k :: 0 <= k < |pattern| ==> pattern[k] >= 0.0 && template[k] >= 0.0
    ensures NormalisedCorrelation(pattern, template, false).n >= 0.0
  {
    DotOfNonnegative(pattern, template);
  }
}
