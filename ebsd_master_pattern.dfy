/** The bookkeeping of `EBSDMasterPattern`: how `get_patterns` validates
    its input, splits the rotations into chunks and picks the master
    pattern hemispheres, the neighbour indices and weights of the Lambert
    interpolation, and how `set_phase_parameters` prepares its inputs. */
module EbsdMasterPattern {
  import opened Common
  import opened DtypeRange

  // ---------------------------------------------------------------------
  // Chunking
  // ---------------------------------------------------------------------

  const BytesPerChunk: real := 100000000.0

  /** `_min_number_of_chunks`: ceil(dy * dx * n * itemsize / 1e8), the
      least number of chunks of at most 100 MB each. */
  function MinNumberOfChunks(dy: nat, dx: nat, n: nat, itemSize: nat): (k: int)
    ensures k >= 0
    ensures (k as real) * BytesPerChunk >= (dy * dx * n * itemSize) as real
    ensures k > 0 ==> ((k - 1) as real) * BytesPerChunk < (dy * dx * n * itemSize) as real
  {
    var nbytes := (dy * dx * n * itemSize) as real;
    var k := Ceil(nbytes / BytesPerChunk);
    assert (nbytes / BytesPerChunk) * BytesPerChunk == nbytes;
    k
  }

  /** Some data needs at least one chunk. */
  lemma MinNumberOfChunksPositive(dy: nat, dx: nat, n: nat, itemSize: nat)
    requires dy * dx * n * itemSize > 0
    ensures MinNumberOfChunks(dy, dx, n, itemSize) >= 1
  {
  }

  /** The first-axis chunk length `int(np.ceil(n / n_chunk))`. For a
      positive count, n_chunk chunks of that length hold all n rotations
      and one chunk fewer does not; a negative count gives a length of at
      most zero. */
  function ChunkLength(n: nat, nChunk: int): (c: int)
    requires nChunk != 0
    ensures nChunk > 0 ==> c >= 0 && c * nChunk >= n && (c > 0 ==> (c - 1) * nChunk < n)
    ensures nChunk < 0 ==> c <= 0 && c * nChunk <= n < (c - 1) * nChunk
  {
    var q := n as real / nChunk as real;
    assert q * nChunk as real == n as real;
    var c := Ceil(q);
    if nChunk > 0 then
      CeilTimes(q, c, nChunk);
      c
    else
      CeilTimesNegative(n, q, c, nChunk);
      c
  }

  lemma CeilTimes(q: real, c: int, m: int)
    requires m >= 1 && q >= 0.0 && q <= c as real < q + 1.0
    ensures c >= 0
    ensures (c as real) * (m as real) >= q * (m as real)
    ensures (c - 1) as real * (m as real) < q * (m as real)
  {
    assert (c as real - q) * (m as real) >= 0.0;
    assert (q - (c - 1) as real) * (m as real) > 0.0;
  }

  lemma CeilTimesNegative(n: int, q: real, c: int, m: int)
    requires m <= -1 && q <= 0.0 && q <= c as real < q + 1.0 && q * (m as real) == n as real
    ensures c <= 0
    ensures c * m <= n < (c - 1) * m
  {
    ScaleByNegative(q, c as real, m as real);
    assert (c - 1) as real == c as real - 1.0 < q;
    ScaleByNegative((c - 1) as real, q, m as real);
    ProductAsReal(c, m);
    ProductAsReal(c - 1, m);
    assert ((c - 1) * m) as real > n as real;
  }

  /** Multiplying by a negative factor reverses an order. */
  lemma ScaleByNegative(a: real, b: real, f: real)
    requires f < 0.0 && a <= b
    ensures b * f <= a * f
    ensures a < b ==> b * f < a * f
  {
    assert b * f - a * f == (b - a) * f;
  }

  lemma ProductAsReal(a: int, b: int)
    ensures (a * b) as real == a as real * b as real
  {
  }

  // ---------------------------------------------------------------------
  // Hemisphere and energy selection
  // ---------------------------------------------------------------------

  function Abs(x: real): real
  {
    if x < 0.0 then -x else x
  }

  /** `np.abs(energies - energy).argmin()`: the first index of the energy
      closest to the wanted one; an empty axis raises ValueError. */
  function ClosestEnergyIndex(energies: seq<real>, energy: real): (r: Result<nat>)
    ensures r.Raise? <==> |energies| == 0
    ensures r.Raise? ==> r.error == ValueError
    ensures r.Ok? ==> r.value < |energies|
    ensures r.Ok? ==> forall k :: 0 <= k < |energies| ==>
              Abs(energies[r.value] - energy) <= Abs(energies[k] - energy)
    ensures r.Ok? ==> forall k :: 0 <= k < r.value ==>
              Abs(energies[r.value] - energy) < Abs(energies[k] - energy)
  {
    if |energies| == 0 then Raise(ValueError)
    else Ok(ArgMinFrom(energies, energy, 0, 1))
  }

  /** The first index of the least distance, scanning from `next` with
      `best` the first best index before it. */
  function ArgMinFrom(energies: seq<real>, energy: real, best: nat, next: nat): (b: nat)
    requires best < next <= |energies|
    requires forall k :: 0 <= k < next ==> Abs(energies[best] - energy) <= Abs(energies[k] - energy)
    requires forall k :: 0 <= k < best ==> Abs(energies[best] - energy) < Abs(energies[k] - energy)
    ensures b < |energies|
    ensures forall k :: 0 <= k < |energies| ==> Abs(energies[b] - energy) <= Abs(energies[k] - energy)
    ensures forall k :: 0 <= k < b ==> Abs(energies[b] - energy) < Abs(energies[k] - energy)
    decreases |energies| - next
  {
    if next == |energies| then best
    else if Abs(energies[next] - energy) < Abs(energies[best] - energy) then ArgMinFrom(energies, energy, next, next + 1)
    else ArgMinFrom(energies, energy, best, next + 1)
  }

  /** The master pattern's axes as `get_patterns` sees them: the number of
      axes, and the values of the axis named "energy", if there is one. */
  datatype MasterAxes = MasterAxes(ndim: nat, energyAxis: Option<seq<real>>)

  /** The northern and southern master patterns, as index prefixes into
      `self.data` (`[]` is the whole array). */
  datatype Hemispheres = Hemispheres(north: seq<nat>, south: seq<nat>)

  /** The four cases of `get_patterns`: with 4 axes, both hemispheres at
      the closest energy; with 2, the data serves as both; otherwise the
      closest energy serves as both, unless the energy lookup raises
      ValueError (no energy axis, or an empty one), in which case the two
      hemispheres are `data[0]` and `data[1]`. */
  function SelectHemispheres(axes: MasterAxes, energy: real): (r: Result<Hemispheres>)
    ensures r.Raise? <==> axes.ndim == 4 && (axes.energyAxis.None? || |axes.energyAxis.value| == 0)
    ensures r.Raise? ==> r.error == ValueError
    ensures r.Ok? && axes.ndim == 4 ==>
              var e := ClosestEnergyIndex(axes.energyAxis.value, energy).value;
              r.value == Hemispheres([0, e], [1, e])
    ensures r.Ok? && axes.ndim == 2 ==> r.value == Hemispheres([], [])
    ensures axes.ndim != 4 && axes.ndim != 2 && axes.energyAxis.Some? && |axes.energyAxis.value| > 0 ==>
              var e := ClosestEnergyIndex(axes.energyAxis.value, energy).value;
              r == Ok(Hemispheres([e], [e]))
    ensures axes.ndim != 4 && axes.ndim != 2 && (axes.energyAxis.None? || |axes.energyAxis.value| == 0) ==>
              r == Ok(Hemispheres([0], [1]))
    // both hemispheres are the same pattern exactly when the data holds one hemisphere
    ensures r.Ok? && axes.ndim != 4 ==>
              (r.value.north == r.value.south <==> axes.ndim == 2 || (axes.energyAxis.Some? && |axes.energyAxis.value| > 0))
  {
    if axes.ndim == 4 then
      var e :- EnergyIndex(axes.energyAxis, energy);
      Ok(Hemispheres([0, e], [1, e]))
    else if axes.ndim == 2 then
      Ok(Hemispheres([], []))
    else
      match EnergyIndex(axes.energyAxis, energy)
      case Ok(e) => Ok(Hemispheres([e], [e]))
      case Raise(_) => Ok(Hemispheres([0], [1]))
  }

  /** `self.axes_manager["energy"]` followed by the argmin: ValueError when
      there is no energy axis. */
  function EnergyIndex(energyAxis: Option<seq<real>>, energy: real): (r: Result<nat>)
    ensures r.Raise? <==> energyAxis.None? || |energyAxis.value| == 0
    ensures r.Raise? ==> r.error == ValueError
    ensures r.Ok? ==> r == ClosestEnergyIndex(energyAxis.value, energy)
  {
    if energyAxis.None? then Raise(ValueError) else ClosestEnergyIndex(energyAxis.value, energy)
  }

  // ---------------------------------------------------------------------
  // get_patterns
  // ---------------------------------------------------------------------

  /** What `get_patterns` sets up before mapping `_get_patterns_chunk`
      over the rotation chunks. */
  datatype PatternsPlan = PatternsPlan(
    outShape: (nat, nat, nat),
    chunkLength: int,
    rescale: bool,
    hemispheres: Hemispheres)

  /** The number of chunks actually used: the requested one, or for -1
      the least number of 100 MB chunks, which is zero exactly when there
      is nothing to simulate. */
  function ChunkCount(nChunk: int, n: nat, detShape: (nat, nat), dtypeOut: DType): (k: int)
    ensures nChunk != -1 ==> k == nChunk
    ensures nChunk == -1 ==> k >= 0 && (k == 0 <==> detShape.0 * detShape.1 * n == 0)
    ensures nChunk == -1 ==> k == MinNumberOfChunks(detShape.0, detShape.1, n, ItemSize(dtypeOut))
  {
    if nChunk == -1 then
      var bytes := detShape.0 * detShape.1 * n * ItemSize(dtypeOut);
      if bytes > 0 then
        MinNumberOfChunksPositive(detShape.0, detShape.1, n, ItemSize(dtypeOut));
        MinNumberOfChunks(detShape.0, detShape.1, n, ItemSize(dtypeOut))
      else
        ProductZero(detShape.0 * detShape.1 * n, ItemSize(dtypeOut));
        MinNumberOfChunks(detShape.0, detShape.1, n, ItemSize(dtypeOut))
    else nChunk
  }

  lemma ProductZero(a: nat, b: nat)
    requires a * b == 0 && b > 0
    ensures a == 0
  {
  }

  /** `get_patterns(rotations, detector, energy, n_chunk, dtype_out)` up to
      the chunk mapping. `pcCount` is the number of projection centres of
      the detector and `n` the number of rotations, a numpy integer, so
      dividing it by a chunk count of zero does not raise: it gives
      infinity for n > 0, whose conversion to `int` raises OverflowError,
      and NaN for n = 0, whose conversion raises ValueError. */
  function GetPatterns(projection: string, pcCount: nat, n: nat, detShape: (nat, nat),
                       axes: MasterAxes, energy: real, nChunk: int, dtypeOut: DType): (r: Result<PatternsPlan>)
    ensures projection != "lambert" ==> r == Raise(NotImplementedError)
    ensures projection == "lambert" && pcCount > 1 ==> r == Raise(ValueError)
    ensures projection == "lambert" && pcCount <= 1 && ChunkCount(nChunk, n, detShape, dtypeOut) == 0 ==>
              r == Raise(if n > 0 then OverflowError else ValueError)
    ensures r.Ok? <==>
              projection == "lambert" && pcCount <= 1 && ChunkCount(nChunk, n, detShape, dtypeOut) != 0 &&
              SelectHemispheres(axes, energy).Ok?
    ensures r.Ok? ==> r.value.outShape == (n, detShape.0, detShape.1)
    ensures r.Ok? ==> (r.value.rescale <==> dtypeOut != Float32)
    ensures r.Ok? ==> r.value.hemispheres == SelectHemispheres(axes, energy).value
    // a positive count: the chunks cover the rotations, without a superfluous chunk
    ensures r.Ok? ==>
              var k := if nChunk == -1 then MinNumberOfChunks(detShape.0, detShape.1, n, ItemSize(dtypeOut)) else nChunk;
              k != 0 &&
              (k > 0 ==> r.value.chunkLength * k >= n && (r.value.chunkLength > 0 ==> (r.value.chunkLength - 1) * k < n)) &&
              (k < 0 ==> r.value.chunkLength <= 0)
  {
    if projection != "lambert" then Raise(NotImplementedError)
    else if pcCount > 1 then Raise(ValueError)
    else
      var k := ChunkCount(nChunk, n, detShape, dtypeOut);
      if k == 0 then Raise(if n > 0 then OverflowError else ValueError)
      else
        var chunkLength := ChunkLength(n, k);
        var rescale := dtypeOut != Float32;
        var hemispheres :- SelectHemispheres(axes, energy);
        Ok(PatternsPlan((n, detShape.0, detShape.1), chunkLength, rescale, hemispheres))
  }

  // ---------------------------------------------------------------------
  // Lambert interpolation: neighbours and weights along one axis
  // ---------------------------------------------------------------------

  /** The interpolation parameters along one master-pattern axis for a
      projected coordinate: the pixel, its neighbour, and the two weights. */
  datatype AxisParameters = AxisParameters(low: int, high: int, weight: real, weightRest: real)

  /** One axis of `_get_lambert_interpolation_parameters`, for coordinate
      `x` (i or j), `scale` and the pattern size `size` (npx or npy):
      the pixel is `int(x + scale)`; its neighbour is the next pixel if that
      is inside the pattern, else the pixel itself; a negative pixel is
      then replaced by its neighbour; the weights are `x - pixel + scale`
      and one minus that. */
  function LambertAxis(x: real, scale: real, size: int): (a: AxisParameters)
    ensures a.weight + a.weightRest == 1.0
    ensures a.low == a.high || a.high == a.low + 1
    ensures a.high < size || a.high == Trunc(x + scale)
    // a coordinate inside the pattern gives two pixels inside it and a weight in [0, 1)
    ensures 0.0 <= x + scale < size as real ==>
              0 <= a.low < size && 0 <= a.high < size && 0.0 <= a.weight < 1.0
  {
    var n0 := Trunc(x + scale);
    var high := if n0 + 1 < size then n0 + 1 else n0;
    var low := if n0 < 0 then high else n0;
    var weight := x - low as real + scale;
    AxisParameters(low, high, weight, 1.0 - weight)
  }

  /** The parameters of both axes: (nii, niip, di, dim) and (nij, nijp, dj, djm). */
  datatype InterpolationParameters = InterpolationParameters(i: AxisParameters, j: AxisParameters)

  /** `_get_lambert_interpolation_parameters` for one detector pixel whose
      direction projects to (i, j). */
  function LambertInterpolationParameters(i: real, j: real, scale: real, npx: int, npy: int): (p: InterpolationParameters)
    ensures p.i.weight + p.i.weightRest == 1.0 && p.j.weight + p.j.weightRest == 1.0
    ensures 0.0 <= i + scale < npx as real && 0.0 <= j + scale < npy as real ==>
              0 <= p.i.low < npx && 0 <= p.i.high < npx && 0 <= p.j.low < npy && 0 <= p.j.high < npy
  {
    InterpolationParameters(LambertAxis(i, scale, npx), LambertAxis(j, scale, npy))
  }

  /** The four bilinear weights of the interpolation sum to 1. */
  lemma BilinearWeightsSumToOne(p: InterpolationParameters)
    requires p.i.weight + p.i.weightRest == 1.0 && p.j.weight + p.j.weightRest == 1.0
    ensures p.i.weightRest * p.j.weightRest + p.i.weight * p.j.weightRest
            + p.i.weightRest * p.j.weight + p.i.weight * p.j.weight == 1.0
  {
    var di, dim, dj, djm := p.i.weight, p.i.weightRest, p.j.weight, p.j.weightRest;
    assert dim * djm + di * djm == (dim + di) * djm;
    assert dim * dj + di * dj == (dim + di) * dj;
  }

  /** On the pattern's last pixel there is no next pixel, so the neighbour
      is the pixel itself. */
  lemma LambertAxisAtEdge(x: real, scale: real, size: int)
    requires size >= 1 && Trunc(x + scale) == size - 1
    ensures LambertAxis(x, scale, size).low == LambertAxis(x, scale, size).high == size - 1
  {
  }

  // ---------------------------------------------------------------------
  // set_phase_parameters
  // ---------------------------------------------------------------------

  /** A value in an atom's entry of `atom_coordinates`. */
  datatype SiteValue = PyList(xs: seq<real>) | NdArray(elements: seq<real>) | Text(s: string) | Number(x: real)

  type Site = map<string, SiteValue>

  /** `np.array(v)` on a coordinate list; an array stays an array. */
  function ToArray(v: SiteValue): (a: SiteValue)
    ensures v.PyList? ==> a == NdArray(v.xs)
    ensures !v.PyList? ==> a == v
  {
    if v.PyList? then NdArray(v.xs) else v
  }

  /** An atom with its coordinates converted. */
  function Converted(site: Site): Site
    requires "coordinates" in site
  {
    site["coordinates" := ToArray(site["coordinates"])]
  }

  /** The caller's `atom_coordinates` dictionary, which
      `set_phase_parameters` updates in place; `order` is its iteration
      order. */
  class AtomCoordinates {
    var sites: map<string, Site>
    var order: seq<string>

    ghost predicate Valid()
      reads this
    {
      (forall i :: 0 <= i < |order| ==> order[i] in sites) &&
      (forall k :: k in sites ==> k in order) &&
      (forall i, j :: 0 <= i < j < |order| ==> order[i] != order[j])
    }

    constructor (sites: map<string, Site>, order: seq<string>)
      requires (forall i :: 0 <= i < |order| ==> order[i] in sites) && (forall k :: k in sites ==> k in order)
      requires forall i, j :: 0 <= i < j < |order| ==> order[i] != order[j]
      ensures Valid() && this.sites == sites && this.order == order
    {
      this.sites := sites;
      this.order := order;
    }

    /** The loop of `set_phase_parameters` that replaces every atom's
        coordinates by an array, in iteration order. An atom without
        coordinates raises KeyError, leaving the atoms before it converted
        and the others as they were. */
    method ConvertCoordinates() returns (r: Result<()>)
      requires Valid()
      modifies this
      ensures Valid() && order == old(order) && sites.Keys == old(sites).Keys
      ensures r.Ok? <==> forall k :: k in old(sites) ==> "coordinates" in old(sites)[k]
      ensures r.Ok? ==> forall k :: k in sites ==> ConvertedSite(old(sites), sites, k)
      ensures r.Raise? ==> r.error == KeyError
      ensures r.Raise? ==> exists i :: 0 <= i < |order| && FailedAt(old(sites), sites, order, i)
    {
      var current := sites;
      for i := 0 to |order|
        invariant current.Keys == sites.Keys && sites == old(sites)
        invariant forall j :: 0 <= j < i ==> ConvertedSite(sites, current, order[j])
        invariant forall j :: i <= j < |order| ==> current[order[j]] == sites[order[j]]
      {
        var key := order[i];
        if "coordinates" !in current[key] {
          sites := current;
          assert FailedAt(old(sites), sites, order, i);
          return Raise(KeyError);
        }
        assert forall j :: 0 <= j < |order| && j != i ==> order[j] != key;
        current := current[key := Converted(current[key])];
      }
      forall k | k in current
        ensures ConvertedSite(sites, current, k)
      {
        var i :| 0 <= i < |order| && order[i] == k;
      }
      sites := current;
      r := Ok(());
    }
  }

  /** The atom `key` had coordinates, and they were converted. */
  ghost predicate ConvertedSite(before: map<string, Site>, after: map<string, Site>, key: string)
  {
    key in before && key in after && "coordinates" in before[key] && after[key] == Converted(before[key])
  }

  /** The conversion stopped at position i of `order`: that atom has no
      coordinates, the atoms before it were converted and the rest are
      unchanged. */
  ghost predicate FailedAt(before: map<string, Site>, after: map<string, Site>, order: seq<string>, i: int)
    requires 0 <= i < |order|
  {
    order[i] in before && "coordinates" !in before[order[i]] &&
    (forall j :: 0 <= j < i ==> ConvertedSite(before, after, order[j])) &&
    (forall j :: i <= j < |order| ==> order[j] in before && order[j] in after && after[order[j]] == before[order[j]])
  }

  /** A value passed to the phase node. */
  datatype PhaseValue = PhaseText(s: string) | PhaseNumbers(xs: seq<real>) | PhaseInt(n: int) | PhaseAtoms(atoms: map<string, Site>)

  /** The dictionary comprehension that drops the None inputs. */
  function RemoveNone(inputs: seq<(string, Option<PhaseValue>)>): (phase: map<string, PhaseValue>)
    ensures forall k :: k in phase <==> exists i :: 0 <= i < |inputs| && inputs[i].0 == k && inputs[i].1.Some?
  {
    if inputs == [] then map[]
    else
      var rest := RemoveNone(inputs[1..]);
      assert forall i :: 1 <= i < |inputs| ==> inputs[i] == inputs[1..][i - 1];
      if inputs[0].1.Some? then rest[inputs[0].0 := inputs[0].1.value] else rest
  }

  /** An input whose key is unique is kept exactly when its value is not
      None, and then with that value. */
  lemma RemoveNoneEntry(inputs: seq<(string, Option<PhaseValue>)>, i: nat)
    requires i < |inputs|
    requires forall j :: 0 <= j < |inputs| && j != i ==> inputs[j].0 != inputs[i].0
    ensures inputs[i].0 in RemoveNone(inputs) <==> inputs[i].1.Some?
    ensures inputs[i].1.Some? ==> RemoveNone(inputs)[inputs[i].0] == inputs[i].1.value
  {
    if i > 0 {
      RemoveNoneEntry(inputs[1..], i - 1);
    }
  }

  /** The names of the phase parameters, in the order of the source. */
  const PhaseKeys: seq<string> := ["atom_coordinates", "formula", "info", "lattice_constants", "laue_group",
                                   "material_name", "point_group", "setting", "source", "space_group", "symmetry"]

  lemma PhaseKeysDistinct()
    ensures forall i, j :: 0 <= i < j < |PhaseKeys| ==> PhaseKeys[i] != PhaseKeys[j]
  {
  }

  /** The phase parameters as named inputs, in the order of the source. */
  function PhaseInputs(atomCoordinates: Option<map<string, Site>>, formula: Option<string>, info: Option<string>,
                       latticeConstants: Option<seq<real>>, laueGroup: Option<string>, materialName: Option<string>,
                       pointGroup: Option<string>, setting: Option<int>, source: Option<string>,
                       spaceGroup: Option<int>, symmetry: Option<int>): (inputs: seq<(string, Option<PhaseValue>)>)
    ensures |inputs| == |PhaseKeys|
    ensures forall i :: 0 <= i < |inputs| ==> inputs[i].0 == PhaseKeys[i]
  {
    var values := [
      if atomCoordinates.Some? then Some(PhaseAtoms(atomCoordinates.value)) else None,
      if formula.Some? then Some(PhaseText(formula.value)) else None,
      if info.Some? then Some(PhaseText(info.value)) else None,
      if latticeConstants.Some? then Some(PhaseNumbers(latticeConstants.value)) else None,
      if laueGroup.Some? then Some(PhaseText(laueGroup.value)) else None,
      if materialName.Some? then Some(PhaseText(materialName.value)) else None,
      if pointGroup.Some? then Some(PhaseText(pointGroup.value)) else None,
      if setting.Some? then Some(PhaseInt(setting.value)) else None,
      if source.Some? then Some(PhaseText(source.value)) else None,
      if spaceGroup.Some? then Some(PhaseInt(spaceGroup.value)) else None,
      if symmetry.Some? then Some(PhaseInt(symmetry.value)) else None ];
    seq(|PhaseKeys|, i requires 0 <= i < |PhaseKeys| => (PhaseKeys[i], values[i]))
  }

  /** `set_phase_parameters`: converts the caller's atom coordinates in
      place, then hands the non-None inputs to the phase node (the node
      update itself is not part of this model). */
  method SetPhaseParameters(atoms: AtomCoordinates?, formula: Option<string>, info: Option<string>,
                            latticeConstants: Option<seq<real>>, laueGroup: Option<string>, materialName: Option<string>,
                            pointGroup: Option<string>, setting: Option<int>, source: Option<string>,
                            spaceGroup: Option<int>, symmetry: Option<int>) returns (r: Result<map<string, PhaseValue>>)
    requires atoms != null ==> atoms.Valid()
    modifies atoms
    ensures atoms != null ==> atoms.Valid()
    ensures atoms == null ==> r.Ok?
    ensures atoms != null ==> (r.Raise? <==> exists k :: k in old(atoms.sites) && "coordinates" !in old(atoms.sites)[k])
    ensures r.Ok? ==> r.value == RemoveNone(PhaseInputs(if atoms == null then None else Some(atoms.sites),
                                                         formula, info, latticeConstants, laueGroup, materialName,
                                                         pointGroup, setting, source, spaceGroup, symmetry))
    ensures atoms != null ==> atoms.sites.Keys == old(atoms.sites).Keys && atoms.order == old(atoms.order)
    ensures r.Ok? && atoms != null ==> forall k :: k in atoms.sites ==> ConvertedSite(old(atoms.sites), atoms.sites, k)
    ensures r.Raise? ==> r.error == KeyError
    ensures r.Raise? && atoms != null ==>
              exists i :: 0 <= i < |atoms.order| && FailedAt(old(atoms.sites), atoms.sites, atoms.order, i)
  {
    if atoms != null {
      var converted := atoms.ConvertCoordinates();
      if converted.Raise? {
        return Raise(converted.error);
      }
    }
    var inputs := PhaseInputs(if atoms == null then None else Some(atoms.sites), formula, info, latticeConstants,
                              laueGroup, materialName, pointGroup, setting, source, spaceGroup, symmetry);
    r := Ok(RemoveNone(inputs));
  }

  /** The phase node receives exactly the parameters that were given. */
  lemma PhaseInputsKeys(atomCoordinates: Option<map<string, Site>>, formula: Option<string>, info: Option<string>,
                        latticeConstants: Option<seq<real>>, laueGroup: Option<string>, materialName: Option<string>,
                        pointGroup: Option<string>, setting: Option<int>, source: Option<string>,
                        spaceGroup: Option<int>, symmetry: Option<int>)
    ensures var inputs := PhaseInputs(atomCoordinates, formula, info, latticeConstants, laueGroup,
                                      materialName, pointGroup, setting, source, spaceGroup, symmetry);
            forall i :: 0 <= i < |inputs| ==>
              inputs[i].0 == PhaseKeys[i] &&
              (PhaseKeys[i] in RemoveNone(inputs) <==> inputs[i].1.Some?) &&
              (inputs[i].1.Some? ==> RemoveNone(inputs)[PhaseKeys[i]] == inputs[i].1.value)
  {
    var inputs := PhaseInputs(atomCoordinates, formula, info, latticeConstants, laueGroup,
                              materialName, pointGroup, setting, source, spaceGroup, symmetry);
    PhaseKeysDistinct();
    forall i | 0 <= i < |inputs|
      ensures inputs[i].0 == PhaseKeys[i]
      ensures PhaseKeys[i] in RemoveNone(inputs) <==> inputs[i].1.Some?
      ensures inputs[i].1.Some? ==> RemoveNone(inputs)[PhaseKeys[i]] == inputs[i].1.value
    {
      RemoveNoneEntry(inputs, i);
    }
  }
}
