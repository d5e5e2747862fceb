/** Static dictionary indexing: experimental EBSD patterns are compared
    with one or more dictionaries of simulated patterns, and one crystal
    map per dictionary is built from the best matches. The matcher, the
    crystal-map merger and the orientation similarity map are not part of
    this model; they enter as the function-valued fields of `Engine`. */
module DictionaryIndexing {
  import opened Common

  // ---------------------------------------------------------------------
  // Values
  // ---------------------------------------------------------------------

  /** A crystal orientation as a quaternion. */
  datatype Orientation = Orientation(a: real, b: real, c: real, d: real)

  /** Patterns, one flattened intensity row per navigation position. */
  type Patterns = seq<seq<real>>

  /** A dictionary: simulated patterns along one navigation axis (its
      navigation size is `|data|`) and the crystal map of their
      orientations (its size is `|rotations|`). */
  datatype Dictionary = Dictionary(data: Patterns, rotations: seq<Orientation>, phasesInData: seq<string>)

  /** The constructor's argument: one dictionary or a list of them. */
  datatype DictionaryArgument = OneDictionary(dictionary: Dictionary) | DictionaryList(dictionaries: seq<Dictionary>)

  /** One navigation axis of the experimental signal. */
  datatype NavigationAxis = NavigationAxis(size: nat, low: real, high: real, scale: real, units: string)

  /** The experimental signal: its patterns and its navigation axes. */
  datatype Signal = Signal(data: Patterns, axes: seq<NavigationAxis>)

  /** A similarity metric: a name, or a user-defined metric object. */
  datatype Metric = Named(name: string) | Custom(id: nat)

  /** What the matcher returns: per experimental pattern, the indices of
      the best simulations and their scores. */
  datatype Match = Match(simulationIndices: seq<seq<int>>, scores: seq<seq<real>>)

  /** The navigation coordinates `_get_spatial_arrays` builds. */
  datatype Spatial = NoAxes | Line(x: seq<real>) | Grid(x: seq<real>, y: seq<real>)

  /** The coordinate keyword arguments of a new crystal map. */
  datatype Coordinates = Coordinates(x: Option<seq<real>>, y: Option<seq<real>>, scanUnit: Option<string>)

  /** A crystal map with the properties the indexing sets. */
  datatype CrystalMap = CrystalMap(rotations: seq<seq<Orientation>>, phaseList: seq<string>,
                                   scores: seq<seq<real>>, simulationIndices: seq<seq<int>>,
                                   osm: Option<seq<real>>, coordinates: Coordinates)

  /** The result of a call: a bare crystal map, or a list of them. */
  datatype Indexed = Single(xmap: CrystalMap) | Several(xmaps: seq<CrystalMap>)

  /** The similarity search the indexing relies on: the chunked top-N
      matcher (experimental patterns, dictionary patterns, metric, keep_n,
      n_slices), the merger of crystal maps, and the orientation
      similarity map (flattened) of a crystal map for a given n_best. */
  datatype Engine = Engine(patternMatch: (Patterns, Patterns, Metric, int, int) -> Match,
                           merge: (seq<CrystalMap>, Metric) -> CrystalMap,
                           similarity: (CrystalMap, int) -> seq<real>)

  /** The keyword arguments of a call. */
  datatype Options = Options(metric: Metric, keepN: int, nSlices: int, returnMerged: bool, getOsm: bool)

  const DefaultOptions: Options := Options(Named("ncc"), 50, 1, false, false)

  /** Above this many simulations per slice the user is asked to confirm. */
  const GoodNumber: int := 13500

  // ---------------------------------------------------------------------
  // Navigation coordinates
  // ---------------------------------------------------------------------

  /** `np.arange(start, stop, step)` over reals: ZeroDivisionError for a
      zero step, else `max(0, ceil((stop - start) / step))` values
      `start + i * step`. */
  function Arange(start: real, stop: real, step: real): (r: Result<seq<real>>)
    ensures r.Raise? <==> step == 0.0
    ensures r.Raise? ==> r.error == ZeroDivisionError
    ensures r.Ok? ==> forall i :: 0 <= i < |r.value| ==> r.value[i] == start + i as real * step
  {
    if step == 0.0 then Raise(ZeroDivisionError)
    else
      var n := Ceil((stop - start) / step);
      Ok(seq(if n < 0 then 0 else n, i => start + i as real * step))
  }

  /** With a positive step every value lies in [start, stop), and the
      next value would not. */
  lemma ArangeWithinBounds(start: real, stop: real, step: real)
    requires step > 0.0
    ensures var xs := Arange(start, stop, step).value;
      (forall i :: 0 <= i < |xs| ==> start <= xs[i] < stop)
      && start + |xs| as real * step >= stop
  {
    var xs := Arange(start, stop, step).value;
    var q := (stop - start) / step;
    assert q * step == stop - start;
    forall i | 0 <= i < |xs|
      ensures start <= xs[i] < stop
    {
      assert (i as real) < q;
      MultiplyStrict(i as real, q, step);
      MultiplyWeak(0.0, i as real, step);
      assert xs[i] == start + i as real * step;
    }
    if |xs| > 0 {
      assert |xs| as real >= q;
      MultiplyWeak(q, |xs| as real, step);
    } else {
      assert q <= 0.0;
      MultiplyWeak(q, 0.0, step);
    }
  }

  lemma MultiplyStrict(a: real, b: real, c: real)
    requires a < b && c > 0.0
    ensures a * c < b * c
  {
  }

  lemma MultiplyWeak(a: real, b: real, c: real)
    requires a <= b && c > 0.0
    ensures a * c <= b * c
  {
  }

  /** `np.arange(x0, x1 + dx, dx)`, the idiom of `_get_spatial_arrays`:
      when x1 is k steps beyond x0, the range has k + 1 values and ends
      exactly at x1. */
  lemma ArangeIncludesEnd(x0: real, x1: real, dx: real, k: nat)
    requires dx > 0.0 && x1 == x0 + k as real * dx
    ensures var xs := Arange(x0, x1 + dx, dx).value;
      |xs| == k + 1 && xs[0] == x0 && xs[k] == x1
  {
    assert x1 + dx - x0 == (k + 1) as real * dx;
    assert (x1 + dx - x0) / dx == (k + 1) as real;
  }

  /** `np.tile(s, reps)` of a one-dimensional array: `reps` copies of `s`
      one after the other. */
  function Tile(s: seq<real>, reps: nat): (t: seq<real>)
    ensures |t| == |s| * reps
  {
    if reps == 0 then [] else s + Tile(s, reps - 1)
  }

  /** Tiling (not repeating): entry i of the tiled array is entry
      `i % |s|` of the original. */
  lemma {:induction false} TileEntries(s: seq<real>, reps: nat)
    requires |s| > 0
    ensures forall i :: 0 <= i < |Tile(s, reps)| ==> Tile(s, reps)[i] == s[i % |s|]
  {
    if reps > 0 {
      TileEntries(s, reps - 1);
      var rest := Tile(s, reps - 1);
      var t := Tile(s, reps);
      assert t == s + rest;
      forall i | 0 <= i < |t|
        ensures t[i] == s[i % |s|]
      {
        if i < |s| {
          ModuloUnique(i, |s|, 0, i);
          assert t[i] == s[i];
        } else {
          ModuloShift(i, |s|);
          assert t[i] == rest[i - |s|];
        }
      }
    }
  }

  lemma ModuloShift(i: int, m: int)
    requires 0 < m <= i
    ensures (i - m) % m == i % m
  {
    var q := (i - m) / m;
    var r := (i - m) % m;
    assert i - m == q * m + r && 0 <= r < m;
    assert i == (q + 1) * m + r;
    ModuloUnique(i, m, q + 1, r);
  }

  lemma ModuloUnique(a: int, m: int, q: int, r: int)
    requires m > 0 && 0 <= r < m && a == q * m + r
    ensures a % m == r
  {
    var q' := a / m;
    assert a == q' * m + a % m;
    if q > q' {
      AtLeastOnce(q - q', m);
    } else if q < q' {
      AtLeastOnce(q' - q, m);
    }
  }

  lemma AtLeastOnce(k: int, m: int)
    requires k >= 1 && m > 0
    ensures k * m >= m
  {
  }

  /** `_get_spatial_arrays`: no navigation axes give nothing; one axis
      gives `arange(x0, x1 + dx, dx)`; otherwise the extent and step
      sizes are unpacked as two axes (ValueError when they hold another
      number of values) and the x-range is tiled `shape[1]` times and the
      y-range `shape[0]` times. */
  function GetSpatialArrays(shape: seq<nat>, extent: seq<real>, stepSizes: seq<real>): (r: Result<Spatial>)
    ensures |shape| == 0 ==> r == Ok(NoAxes)
    ensures |shape| > 2 && |extent| == 2 * |shape| ==> r == Raise(ValueError)
    ensures r.Ok? ==> (r.value.Line? <==> |shape| == 1) && (r.value.Grid? <==> |shape| >= 2)
    ensures r.Raise? ==> r.error in {ValueError, IndexError, ZeroDivisionError}
    ensures |shape| == 1 && |extent| != 2 ==> r == Raise(ValueError)
    ensures |shape| == 1 && |extent| == 2 && |stepSizes| == 0 ==> r == Raise(IndexError)
    ensures |shape| == 1 && |extent| == 2 && |stepSizes| >= 1 && stepSizes[0] == 0.0 ==> r == Raise(ZeroDivisionError)
    ensures |shape| == 1 && |extent| == 2 && |stepSizes| >= 1 && stepSizes[0] != 0.0 ==>
              r == Ok(Line(Arange(extent[0], extent[1] + stepSizes[0], stepSizes[0]).value))
    ensures |shape| >= 2 && (|extent| != 4 || |stepSizes| != 2) ==> r == Raise(ValueError)
    ensures |shape| >= 2 && |extent| == 4 && |stepSizes| == 2 && (stepSizes[0] == 0.0 || stepSizes[1] == 0.0) ==>
              r == Raise(ZeroDivisionError)
    ensures |shape| >= 2 && |extent| == 4 && |stepSizes| == 2 && stepSizes[0] != 0.0 && stepSizes[1] != 0.0 ==>
              r == Ok(Grid(Tile(Arange(extent[0], extent[1] + stepSizes[0], stepSizes[0]).value, shape[1]),
                           Tile(Arange(extent[2], extent[3] + stepSizes[1], stepSizes[1]).value, shape[0])))
  {
    if |shape| == 0 then Ok(NoAxes)
    else if |shape| == 1 then
      if |extent| != 2 then Raise(ValueError)
      else if |stepSizes| == 0 then Raise(IndexError)
      else
        var x :- Arange(extent[0], extent[1] + stepSizes[0], stepSizes[0]);
        Ok(Line(x))
    else if |extent| != 4 || |stepSizes| != 2 then Raise(ValueError)
    else
      var x :- Arange(extent[0], extent[1] + stepSizes[0], stepSizes[0]);
      var y :- Arange(extent[2], extent[3] + stepSizes[1], stepSizes[1]);
      Ok(Grid(Tile(x, shape[1]), Tile(y, shape[0])))
  }

  /** On a one-dimensional navigation axis whose end lies k steps of a
      positive size beyond its start, the line holds the k + 1 axis
      values from start to end. */
  lemma LineCoordinates(extent: seq<real>, stepSizes: seq<real>, k: nat)
    requires |extent| == 2 && |stepSizes| >= 1 && stepSizes[0] > 0.0
    requires extent[1] == extent[0] + k as real * stepSizes[0]
    ensures var r := GetSpatialArrays([k + 1], extent, stepSizes);
      r.Ok? && r.value.Line? && |r.value.x| == k + 1
      && (forall i :: 0 <= i <= k ==> r.value.x[i] == extent[0] + i as real * stepSizes[0])
      && r.value.x[k] == extent[1]
  {
    ArangeIncludesEnd(extent[0], extent[1], stepSizes[0], k);
  }

  /** On a two-dimensional navigation grid, x-coordinate i is that of
      column `i % nx` and y-coordinate i is that of row `i % ny`, where
      nx and ny are the lengths of the two ranges. */
  lemma GridCoordinates(shape: seq<nat>, extent: seq<real>, stepSizes: seq<real>)
    requires GetSpatialArrays(shape, extent, stepSizes).Ok? && |shape| == 2
    ensures var g := GetSpatialArrays(shape, extent, stepSizes).value;
      var nx := |Arange(extent[0], extent[1] + stepSizes[0], stepSizes[0]).value|;
      var ny := |Arange(extent[2], extent[3] + stepSizes[1], stepSizes[1]).value|;
      |g.x| == nx * shape[1] && |g.y| == ny * shape[0]
      && (forall i :: 0 <= i < |g.x| ==> g.x[i] == extent[0] + (i % nx) as real * stepSizes[0])
      && (forall i :: 0 <= i < |g.y| ==> g.y[i] == extent[2] + (i % ny) as real * stepSizes[1])
  {
    var xs := Arange(extent[0], extent[1] + stepSizes[0], stepSizes[0]).value;
    var ys := Arange(extent[2], extent[3] + stepSizes[1], stepSizes[1]).value;
    if |xs| > 0 {
      TileEntries(xs, shape[1]);
    }
    if |ys| > 0 {
      TileEntries(ys, shape[0]);
    }
  }

  /** The signal's navigation shape: the axis sizes. */
  function NavigationShape(signal: Signal): (shape: seq<nat>)
    ensures |shape| == |signal.axes|
  {
    seq(|signal.axes|, i requires 0 <= i < |signal.axes| => signal.axes[i].size)
  }

  /** The signal's navigation extent: low and high value of each axis. */
  function NavigationExtent(signal: Signal): (extent: seq<real>)
    ensures |extent| == 2 * |signal.axes|
  {
    seq(2 * |signal.axes|, i requires 0 <= i < 2 * |signal.axes| =>
      if i % 2 == 0 then signal.axes[i / 2].low else signal.axes[i / 2].high)
  }

  /** The step size (scale) of each navigation axis. */
  function StepSizes(signal: Signal): (steps: seq<real>)
    ensures |steps| == |signal.axes|
  {
    seq(|signal.axes|, i requires 0 <= i < |signal.axes| => signal.axes[i].scale)
  }

  /** The coordinate arguments of every new crystal map: none without
      navigation axes; else the spatial arrays and the first axis' unit. */
  function MapCoordinates(axes: seq<NavigationAxis>, spatial: Spatial): Coordinates
  {
    if |axes| == 0 then Coordinates(None, None, None)
    else match spatial
      case NoAxes => Coordinates(None, None, Some(axes[0].units))
      case Line(x) => Coordinates(Some(x), None, Some(axes[0].units))
      case Grid(x, y) => Coordinates(Some(x), Some(y), Some(axes[0].units))
  }

  // ---------------------------------------------------------------------
  // The steps of a call
  // ---------------------------------------------------------------------

  /** The list the indexer keeps: a single dictionary is wrapped. */
  function Wrapped(argument: DictionaryArgument): (ds: seq<Dictionary>)
    ensures argument.OneDictionary? ==> ds == [argument.dictionary]
    ensures argument.DictionaryList? ==> ds == argument.dictionaries
  {
    match argument
    case OneDictionary(d) => [d]
    case DictionaryList(ds) => ds
  }

  /** The largest dictionary navigation size (`max` over the list). */
  function MaxNavigationSize(ds: seq<Dictionary>): (n: nat)
    requires |ds| > 0
    ensures forall k :: 0 <= k < |ds| ==> |ds[k].data| <= n
    ensures exists k :: 0 <= k < |ds| && |ds[k].data| == n
  {
    if |ds| == 1 then |ds[0].data|
    else
      var rest := MaxNavigationSize(ds[1..]);
      if |ds[0].data| >= rest then |ds[0].data| else rest
  }

  /** The effective keep_n: the least of the requested value and every
      dictionary's crystal-map size. */
  function ClampKeepN(keepN: int, ds: seq<Dictionary>): (n: int)
    ensures n <= keepN
    ensures forall k :: 0 <= k < |ds| ==> n <= |ds[k].rotations|
    ensures n == keepN || exists k :: 0 <= k < |ds| && n == |ds[k].rotations|
  {
    if |ds| == 0 then keepN
    else
      var rest := ClampKeepN(keepN, ds[1..]);
      if |ds[0].rotations| < rest then |ds[0].rotations| else rest
  }

  /** The metric handed to the matcher: the registry's entry when the
      metric is a registered name, otherwise the metric itself. */
  function ResolveMetric(registry: map<Metric, Metric>, metric: Metric): (m: Metric)
    ensures metric in registry ==> m == registry[metric] && m in registry.Values
    ensures metric !in registry ==> m == metric
  {
    if metric in registry then registry[metric] else metric
  }

  /** A simulation index into an array of n items, negative ones counting
      from the end, as numpy indexing does. */
  predicate InRange(i: int, n: nat)
  {
    -(n as int) <= i < n
  }

  function Wrap(i: int, n: nat): (j: nat)
    requires InRange(i, n)
    ensures j < n
  {
    if i < 0 then i + n else i
  }

  /** `rotations[simulation_indices]`: IndexError when some index is out
      of range; otherwise, per experimental pattern, the dictionary
      orientations at its indices. */
  function Take(rotations: seq<Orientation>, indices: seq<seq<int>>): (r: Result<seq<seq<Orientation>>>)
    ensures r.Raise? <==> exists p, j :: 0 <= p < |indices| && 0 <= j < |indices[p]| && !InRange(indices[p][j], |rotations|)
    ensures r.Raise? ==> r.error == IndexError
    ensures r.Ok? ==> |r.value| == |indices|
    ensures r.Ok? ==> forall p :: 0 <= p < |indices| ==> |r.value[p]| == |indices[p]|
    ensures r.Ok? ==> forall p, j :: 0 <= p < |indices| && 0 <= j < |indices[p]| ==> r.value[p][j] in rotations
    ensures r.Ok? ==> forall p, j :: 0 <= p < |indices| && 0 <= j < |indices[p]| ==>
                        r.value[p][j] == rotations[Wrap(indices[p][j], |rotations|)]
  {
    if forall p, j :: 0 <= p < |indices| && 0 <= j < |indices[p]| ==> InRange(indices[p][j], |rotations|) then
      Ok(seq(|indices|, p requires 0 <= p < |indices| =>
        seq(|indices[p]|, j requires 0 <= j < |indices[p]| => rotations[Wrap(indices[p][j], |rotations|)])))
    else Raise(IndexError)
  }

  /** The crystal map built for one dictionary: the matcher's best
      indices and scores become properties, the rotations are the
      dictionary's at those indices, the phases those in its data. */
  function MapFor(d: Dictionary, signal: Signal, metric: Metric, keepN: int, nSlices: int,
                  coordinates: Coordinates, engine: Engine): Result<CrystalMap>
  {
    var found := engine.patternMatch(signal.data, d.data, metric, keepN, nSlices);
    var rotations :- Take(d.rotations, found.simulationIndices);
    Ok(CrystalMap(rotations, d.phasesInData, found.scores, found.simulationIndices, None, coordinates))
  }

  /** The maps of a list of dictionaries, built one after the other; the
      first failure is raised. */
  function Maps(ds: seq<Dictionary>, signal: Signal, metric: Metric, keepN: int, nSlices: int,
                coordinates: Coordinates, engine: Engine): (r: Result<seq<CrystalMap>>)
    ensures r.Raise? ==> r.error == IndexError
  {
    if ds == [] then Ok([])
    else
      var before :- Maps(ds[..|ds| - 1], signal, metric, keepN, nSlices, coordinates, engine);
      var last :- MapFor(ds[|ds| - 1], signal, metric, keepN, nSlices, coordinates, engine);
      Ok(before + [last])
  }

  /** Exactly one map per dictionary, in dictionary order; the maps are
      built iff every dictionary's map is. */
  lemma {:induction false} MapsOnePerDictionary(ds: seq<Dictionary>, signal: Signal, metric: Metric, keepN: int,
                                                nSlices: int, coordinates: Coordinates, engine: Engine)
    ensures var r := Maps(ds, signal, metric, keepN, nSlices, coordinates, engine);
      (r.Ok? <==> forall k :: 0 <= k < |ds| ==> MapFor(ds[k], signal, metric, keepN, nSlices, coordinates, engine).Ok?)
      && (r.Ok? ==> |r.value| == |ds|
                    && forall k :: 0 <= k < |ds| ==>
                         r.value[k] == MapFor(ds[k], signal, metric, keepN, nSlices, coordinates, engine).value)
  {
    if ds != [] {
      var front := ds[..|ds| - 1];
      MapsOnePerDictionary(front, signal, metric, keepN, nSlices, coordinates, engine);
      assert forall k :: 0 <= k < |front| ==> front[k] == ds[k];
    }
  }

  /** Once the maps of a prefix fail, the maps of the whole list fail the
      same way. */
  lemma {:induction false} MapsPrefixFailure(ds: seq<Dictionary>, j: nat, signal: Signal, metric: Metric, keepN: int,
                                             nSlices: int, coordinates: Coordinates, engine: Engine)
    requires j <= |ds|
    requires Maps(ds[..j], signal, metric, keepN, nSlices, coordinates, engine).Raise?
    ensures Maps(ds, signal, metric, keepN, nSlices, coordinates, engine)
         == Maps(ds[..j], signal, metric, keepN, nSlices, coordinates, engine)
  {
    if j < |ds| {
      var front := ds[..|ds| - 1];
      assert front[..j] == ds[..j];
      MapsPrefixFailure(front, j, signal, metric, keepN, nSlices, coordinates, engine);
    } else {
      assert ds[..j] == ds;
    }
  }

  /** Every map with its orientation similarity map set as property
      "osm", computed with n_best = keep_n. */
  function WithOsm(xmaps: seq<CrystalMap>, similarity: (CrystalMap, int) -> seq<real>, keepN: int): (r: seq<CrystalMap>)
    ensures |r| == |xmaps|
  {
    seq(|xmaps|, k requires 0 <= k < |xmaps| => xmaps[k].(osm := Some(similarity(xmaps[k], keepN))))
  }

  /** The list, or its only map. */
  function Packed(xmaps: seq<CrystalMap>): Indexed
  {
    if |xmaps| == 1 then Single(xmaps[0]) else Several(xmaps)
  }

  /** The maps of a result, in order. */
  function Unpacked(result: Indexed): seq<CrystalMap>
  {
    match result
    case Single(xmap) => [xmap]
    case Several(xmaps) => xmaps
  }

  /** What the call settles before matching: the resolved metric, the
      coordinate arguments of the maps and the clamped keep_n. */
  datatype Setup = Setup(metric: Metric, coordinates: Coordinates, keepN: int)

  /** The checks and settings of a call before any matching. `max` of an
      empty list raises ValueError and `// 0` ZeroDivisionError; when the
      largest dictionary per slice exceeds `GoodNumber` and the answer to
      the prompt is not "y" the call stops (None); otherwise the metric
      is looked up, the navigation coordinates built and keep_n clamped. */
  function Prepare(ds: seq<Dictionary>, signal: Signal, options: Options, answer: string,
                   registry: map<Metric, Metric>): (r: Result<Option<Setup>>)
    ensures r.Ok? && r.value.Some? ==>
      r.value.value.metric == ResolveMetric(registry, options.metric)
      && r.value.value.keepN == ClampKeepN(options.keepN, ds)
  {
    if |ds| == 0 then Raise(ValueError)
    else if options.nSlices == 0 then Raise(ZeroDivisionError)
    else if FloorDiv(MaxNavigationSize(ds), options.nSlices) > GoodNumber && answer != "y" then Ok(None)
    else
      var spatial :- GetSpatialArrays(NavigationShape(signal), NavigationExtent(signal), StepSizes(signal));
      Ok(Some(Setup(ResolveMetric(registry, options.metric), MapCoordinates(signal.axes, spatial),
                    ClampKeepN(options.keepN, ds))))
  }

  /** After matching: the merged map appended when asked for and there is
      more than one dictionary, then the similarity maps when asked for. */
  function Finish(xmaps: seq<CrystalMap>, options: Options, dictionaryCount: nat, setup: Setup, engine: Engine)
    : (maps: seq<CrystalMap>)
    ensures |maps| == |xmaps| + (if options.returnMerged && dictionaryCount > 1 then 1 else 0)
    ensures !options.getOsm ==> maps[..|xmaps|] == xmaps
  {
    var all := if options.returnMerged && dictionaryCount > 1 then xmaps + [engine.merge(xmaps, setup.metric)] else xmaps;
    if options.getOsm then WithOsm(all, engine.similarity, setup.keepN) else all
  }

  /** The effect of a call on a list of dictionaries. */
  function Index(ds: seq<Dictionary>, signal: Signal, options: Options, answer: string,
                 registry: map<Metric, Metric>, engine: Engine): (r: Result<Option<Indexed>>)
    ensures |ds| == 0 ==> r == Raise(ValueError)
    ensures r.Ok? && r.value.Some? ==>
              |Unpacked(r.value.value)| == |ds| + (if options.returnMerged && |ds| > 1 then 1 else 0)
  {
    var prepared :- Prepare(ds, signal, options, answer, registry);
    match prepared
    case None => Ok(None)
    case Some(setup) =>
      var xmaps :- Maps(ds, signal, setup.metric, setup.keepN, options.nSlices, setup.coordinates, engine);
      MapsOnePerDictionary(ds, signal, setup.metric, setup.keepN, options.nSlices, setup.coordinates, engine);
      Ok(Some(Packed(Finish(xmaps, options, |ds|, setup, engine))))
  }

  // ---------------------------------------------------------------------
  // What a call promises
  // ---------------------------------------------------------------------

  /** The prompt is shown and declined: there are dictionaries, the
      slice count is not zero, the largest dictionary per slice exceeds
      `GoodNumber` and the answer is not "y". */
  predicate Declined(ds: seq<Dictionary>, options: Options, answer: string)
  {
    |ds| > 0 && options.nSlices != 0
    && FloorDiv(MaxNavigationSize(ds), options.nSlices) > GoodNumber && answer != "y"
  }

  /** No map is built (the call returns None) exactly when the prompt is
      declined. */
  lemma IndexDeclines(ds: seq<Dictionary>, signal: Signal, options: Options, answer: string,
                      registry: map<Metric, Metric>, engine: Engine)
    ensures Index(ds, signal, options, answer, registry, engine) == Ok(None) <==> Declined(ds, options, answer)
  {
    var prepared := Prepare(ds, signal, options, answer, registry);
    if Declined(ds, options, answer) {
      assert prepared == Ok(None);
    } else if prepared.Ok? {
      assert prepared.value.Some?;
    }
  }

  /** Without dictionaries the call raises ValueError, with zero slices
      ZeroDivisionError; nothing else is raised but IndexError. */
  lemma IndexErrors(ds: seq<Dictionary>, signal: Signal, options: Options, answer: string,
                    registry: map<Metric, Metric>, engine: Engine)
    ensures var r := Index(ds, signal, options, answer, registry, engine);
      (|ds| == 0 ==> r == Raise(ValueError))
      && (|ds| > 0 && options.nSlices == 0 ==> r == Raise(ZeroDivisionError))
      && (r.Raise? ==> r.error in {ValueError, ZeroDivisionError, IndexError})
  {
  }

  /** What `Finish` leaves: the maps, the merged one last exactly when
      it was asked for and there is more than one dictionary; every map
      unchanged but for "osm", which is set from the map as built iff the
      flag is set. */
  lemma FinishMaps(xmaps: seq<CrystalMap>, options: Options, dictionaryCount: nat, setup: Setup, engine: Engine)
    requires forall k :: 0 <= k < |xmaps| ==> xmaps[k].osm.None?
    ensures var maps := Finish(xmaps, options, dictionaryCount, setup, engine);
      var merged := options.returnMerged && dictionaryCount > 1;
      |maps| == |xmaps| + (if merged then 1 else 0)
      && (forall k :: 0 <= k < |xmaps| ==>
            maps[k].(osm := None) == xmaps[k]
            && maps[k].osm == (if options.getOsm then Some(engine.similarity(xmaps[k], setup.keepN)) else None))
      && (merged ==>
            var m := engine.merge(xmaps, setup.metric);
            maps[|xmaps|] == (if options.getOsm then m.(osm := Some(engine.similarity(m, setup.keepN))) else m))
  {
  }

  /** The maps of a successful call: one per dictionary, in order, each
      holding the matcher's indices and scores for the resolved metric
      and the clamped keep_n, the dictionary's phases and its
      orientations at those indices; then the merged map exactly when it
      was asked for and there is more than one dictionary. A bare map is
      returned iff there is exactly one. */
  lemma IndexMaps(ds: seq<Dictionary>, signal: Signal, options: Options, answer: string,
                  registry: map<Metric, Metric>, engine: Engine)
    requires Index(ds, signal, options, answer, registry, engine).Ok?
    requires Index(ds, signal, options, answer, registry, engine).value.Some?
    ensures var result := Index(ds, signal, options, answer, registry, engine).value.value;
      var maps := Unpacked(result);
      var metric := ResolveMetric(registry, options.metric);
      var keepN := ClampKeepN(options.keepN, ds);
      |maps| == |ds| + (if options.returnMerged && |ds| > 1 then 1 else 0)
      && (result.Single? <==> |maps| == 1)
      && forall k :: 0 <= k < |ds| ==>
           var found := engine.patternMatch(signal.data, ds[k].data, metric, keepN, options.nSlices);
           maps[k].simulationIndices == found.simulationIndices
           && maps[k].scores == found.scores
           && maps[k].phaseList == ds[k].phasesInData
           && Take(ds[k].rotations, found.simulationIndices) == Ok(maps[k].rotations)
  {
    var setup := Prepare(ds, signal, options, answer, registry).value.value;
    IndexUnfolds(ds, signal, options, answer, registry, engine);
    MapsOnePerDictionary(ds, signal, setup.metric, setup.keepN, options.nSlices, setup.coordinates, engine);
    var xmaps := Maps(ds, signal, setup.metric, setup.keepN, options.nSlices, setup.coordinates, engine).value;
    FinishMaps(xmaps, options, |ds|, setup, engine);
    var maps := Finish(xmaps, options, |ds|, setup, engine);
    forall k | 0 <= k < |ds|
      ensures var found := engine.patternMatch(signal.data, ds[k].data, setup.metric, setup.keepN, options.nSlices);
        maps[k].simulationIndices == found.simulationIndices
        && maps[k].scores == found.scores
        && maps[k].phaseList == ds[k].phasesInData
        && Take(ds[k].rotations, found.simulationIndices) == Ok(maps[k].rotations)
    {
      assert maps[k].(osm := None) == MapFor(ds[k], signal, setup.metric, setup.keepN, options.nSlices,
                                             setup.coordinates, engine).value;
    }
  }

  /** A successful call returns its maps as `Finish` leaves them. */
  lemma IndexUnfolds(ds: seq<Dictionary>, signal: Signal, options: Options, answer: string,
                     registry: map<Metric, Metric>, engine: Engine)
    requires Index(ds, signal, options, answer, registry, engine).Ok?
    requires Index(ds, signal, options, answer, registry, engine).value.Some?
    ensures Prepare(ds, signal, options, answer, registry).Ok?
    ensures Prepare(ds, signal, options, answer, registry).value.Some?
    ensures var setup := Prepare(ds, signal, options, answer, registry).value.value;
      var xmaps := Maps(ds, signal, setup.metric, setup.keepN, options.nSlices, setup.coordinates, engine);
      var result := Index(ds, signal, options, answer, registry, engine).value.value;
      xmaps.Ok? && Unpacked(result) == Finish(xmaps.value, options, |ds|, setup, engine)
      && (result.Single? <==> |Unpacked(result)| == 1)
  {
  }

  /** The maps with property "osm" removed. */
  function WithoutOsm(xmaps: seq<CrystalMap>): (r: seq<CrystalMap>)
    ensures |r| == |xmaps|
  {
    seq(|xmaps|, k requires 0 <= k < |xmaps| => xmaps[k].(osm := None))
  }

  /** The orientation similarity maps of a successful call: with the
      flag every per-dictionary map gets "osm" computed with
      n_best = keep_n from the map as built; without it none has one. */
  lemma IndexSimilarityMaps(ds: seq<Dictionary>, signal: Signal, options: Options, answer: string,
                            registry: map<Metric, Metric>, engine: Engine)
    requires Index(ds, signal, options, answer, registry, engine).Ok?
    requires Index(ds, signal, options, answer, registry, engine).value.Some?
    ensures var maps := Unpacked(Index(ds, signal, options, answer, registry, engine).value.value);
      var keepN := ClampKeepN(options.keepN, ds);
      |maps| >= |ds|
      && forall k :: 0 <= k < |ds| ==>
           maps[k].osm == (if options.getOsm then Some(engine.similarity(maps[k].(osm := None), keepN)) else None)
  {
    var setup := Prepare(ds, signal, options, answer, registry).value.value;
    IndexUnfolds(ds, signal, options, answer, registry, engine);
    MapsOnePerDictionary(ds, signal, setup.metric, setup.keepN, options.nSlices, setup.coordinates, engine);
    var xmaps := Maps(ds, signal, setup.metric, setup.keepN, options.nSlices, setup.coordinates, engine).value;
    FinishMaps(xmaps, options, |ds|, setup, engine);
  }

  /** The merged map of a successful call, present exactly when asked for
      with more than one dictionary, is the merger's result on the
      per-dictionary maps as built, with its own "osm" when that flag is
      set. */
  lemma IndexMergedMap(ds: seq<Dictionary>, signal: Signal, options: Options, answer: string,
                       registry: map<Metric, Metric>, engine: Engine)
    requires Index(ds, signal, options, answer, registry, engine).Ok?
    requires Index(ds, signal, options, answer, registry, engine).value.Some?
    requires options.returnMerged && |ds| > 1
    ensures var maps := Unpacked(Index(ds, signal, options, answer, registry, engine).value.value);
      var metric := ResolveMetric(registry, options.metric);
      var keepN := ClampKeepN(options.keepN, ds);
      |maps| == |ds| + 1
      && var m := engine.merge(WithoutOsm(maps[..|ds|]), metric);
      maps[|ds|] == (if options.getOsm then m.(osm := Some(engine.similarity(m, keepN))) else m)
  {
    var setup := Prepare(ds, signal, options, answer, registry).value.value;
    IndexUnfolds(ds, signal, options, answer, registry, engine);
    MapsOnePerDictionary(ds, signal, setup.metric, setup.keepN, options.nSlices, setup.coordinates, engine);
    var xmaps := Maps(ds, signal, setup.metric, setup.keepN, options.nSlices, setup.coordinates, engine).value;
    FinishMaps(xmaps, options, |ds|, setup, engine);
    var maps := Finish(xmaps, options, |ds|, setup, engine);
    assert WithoutOsm(maps[..|ds|]) == xmaps;
  }

  // ---------------------------------------------------------------------
  // The indexer
  // ---------------------------------------------------------------------

  class StaticDictionaryIndexing {
    var dictionaries: seq<Dictionary>

    /** Keeps the dictionaries, a single one wrapped in a list. */
    constructor (argument: DictionaryArgument)
      ensures dictionaries == Wrapped(argument)
    {
      dictionaries := Wrapped(argument);
    }

    /** Indexes the signal against every dictionary. `answer` stands for
        the reply to the prompt shown for a large computation. */
    method Call(signal: Signal, options: Options, answer: string, registry: map<Metric, Metric>, engine: Engine)
      returns (r: Result<Option<Indexed>>)
      ensures r == Index(dictionaries, signal, options, answer, registry, engine)
    {
      var ds := dictionaries;
      var prepared := Prepare(ds, signal, options, answer, registry);
      if prepared.Raise? {
        return Raise(prepared.error);
      }
      if prepared.value.None? {
        return Ok(None);
      }
      var setup := prepared.value.value;
      var xmaps := BuildMaps(ds, signal, setup.metric, setup.keepN, options.nSlices, setup.coordinates, engine);
      if xmaps.Raise? {
        return Raise(xmaps.error);
      }
      var all := xmaps.value;
      if options.returnMerged && |ds| > 1 {
        all := all + [engine.merge(all, setup.metric)];
      }
      if options.getOsm {
        all := AddSimilarityMaps(all, engine.similarity, setup.keepN);
      }
      if |all| == 1 {
        r := Ok(Some(Single(all[0])));
      } else {
        r := Ok(Some(Several(all)));
      }
    }
  }

  /** The loop over the dictionaries, appending one map per dictionary. */
  method BuildMaps(ds: seq<Dictionary>, signal: Signal, metric: Metric, keepN: int, nSlices: int,
                   coordinates: Coordinates, engine: Engine) returns (r: Result<seq<CrystalMap>>)
    ensures r == Maps(ds, signal, metric, keepN, nSlices, coordinates, engine)
  {
    var xmaps: seq<CrystalMap> := [];
    for i := 0 to |ds|
      invariant Maps(ds[..i], signal, metric, keepN, nSlices, coordinates, engine) == Ok(xmaps)
    {
      assert ds[..i + 1][..i] == ds[..i];
      var found := engine.patternMatch(signal.data, ds[i].data, metric, keepN, nSlices);
      var rotations := Take(ds[i].rotations, found.simulationIndices);
      if rotations.Raise? {
        MapsPrefixFailure(ds, i + 1, signal, metric, keepN, nSlices, coordinates, engine);
        return Raise(rotations.error);
      }
      xmaps := xmaps + [CrystalMap(rotations.value, ds[i].phasesInData, found.scores,
                                   found.simulationIndices, None, coordinates)];
    }
    assert ds[..|ds|] == ds;
    r := Ok(xmaps);
  }

  /** The loop setting property "osm" of each map in turn. */
  method AddSimilarityMaps(xmaps: seq<CrystalMap>, similarity: (CrystalMap, int) -> seq<real>, keepN: int)
    returns (r: seq<CrystalMap>)
    ensures r == WithOsm(xmaps, similarity, keepN)
  {
    r := xmaps;
    for i := 0 to |r|
      invariant |r| == |xmaps|
      invariant forall k :: 0 <= k < i ==> r[k] == xmaps[k].(osm := Some(similarity(xmaps[k], keepN)))
      invariant forall k :: i <= k < |r| ==> r[k] == xmaps[k]
    {
      r := r[i := r[i].(osm := Some(similarity(r[i], keepN)))];
    }
  }
}
