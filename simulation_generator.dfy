/** `EBSDSimulationGenerator`: the navigation-shape state it keeps between
    its rotations and its detector's projection centres, the guard on the
    reciprocal lattice points, and which Kikuchi bands a geometrical
    simulation keeps. */
module SimulationGenerator {
  import opened Common
  import opened EbsdDetector

  // ---------------------------------------------------------------------
  // Values
  // ---------------------------------------------------------------------

  /** A unit cell rotation (a unit quaternion; its algebra is not modelled). */
  datatype Rotation = Rotation(a: real, b: real, c: real, d: real)

  /** A rotation array: its shape and its elements in row-major order. */
  datatype Rotations = Rotations(shape: seq<nat>, values: seq<Rotation>)

  predicate WellFormed(rot: Rotations)
  {
    |rot.values| == Product(rot.shape)
  }

  /** `rotations.reshape(*shape)`: the same elements under a new shape;
      a shape of another size raises ValueError. */
  function Reshape(rot: Rotations, shape: seq<nat>): (r: Result<Rotations>)
    requires WellFormed(rot)
    ensures r.Ok? <==> Product(shape) == Product(rot.shape)
    ensures r.Raise? ==> r.error == ValueError
    ensures r.Ok? ==> WellFormed(r.value) && r.value.shape == shape && r.value.values == rot.values
  {
    if Product(shape) != Product(rot.shape) then Raise(ValueError) else Ok(Rotations(shape, rot.values))
  }

  /** Lattice parameters a, b, c, alpha, beta, gamma (`abcABG()`). */
  datatype Lattice = Lattice(a: real, b: real, c: real, alpha: real, beta: real, gamma: real)

  /** A phase as the generator inspects it: its point group's name and its
      lattice, each possibly missing. */
  datatype Phase = Phase(pointGroup: Option<string>, lattice: Option<Lattice>)

  /** A set of reciprocal lattice points: the phase they were made for and
      their Miller indices. */
  datatype Reflectors = Reflectors(phase: Phase, hkl: seq<(int, int, int)>)

  // ---------------------------------------------------------------------
  // Aligning the projection centres with the rotations
  // ---------------------------------------------------------------------

  /** `_align_pc_with_rotations_shape` on values: from the detector's
      navigation shape and PCs and the rotations' shape, the detector's new
      navigation shape and PCs. A single PC (navigation shape (1,)) is
      repeated over the rotations' shape; an equal shape is kept; any other
      shape raises ValueError. */
  function AlignPc(detShape: seq<nat>, pcs: seq<PC>, navShape: seq<nat>): (r: Result<(seq<nat>, seq<PC>)>)
    ensures r.Ok? <==> if detShape == [1] then |pcs| > 0 else detShape == navShape
    ensures r.Raise? ==> r.error == (if detShape == [1] then IndexError else ValueError)
    ensures r.Ok? ==> r.value.0 == navShape
    ensures r.Ok? && detShape == [1] ==>
              |pcs| > 0 && |r.value.1| == Product(navShape) && forall k :: 0 <= k < |r.value.1| ==> r.value.1[k] == pcs[0]
    ensures r.Ok? && detShape != [1] ==> r.value.1 == pcs
  {
    if detShape == [1] then
      if |pcs| == 0 then Raise(IndexError)
      else Ok((navShape, seq(Product(navShape), _ => pcs[0])))
    else if detShape != navShape then Raise(ValueError)
    else Ok((navShape, pcs))
  }

  /** After an alignment, a detector that holds one PC per navigation
      position still does. */
  lemma AlignPcKeepsOnePerPosition(detShape: seq<nat>, pcs: seq<PC>, navShape: seq<nat>)
    requires |pcs| == Product(detShape)
    requires AlignPc(detShape, pcs, navShape).Ok?
    ensures |AlignPc(detShape, pcs, navShape).value.1| == Product(AlignPc(detShape, pcs, navShape).value.0)
  {
  }

  /** Aligning an aligned detector changes nothing: the step is idempotent. */
  lemma AlignPcIdempotent(detShape: seq<nat>, pcs: seq<PC>, navShape: seq<nat>)
    requires AlignPc(detShape, pcs, navShape).Ok?
    requires |pcs| == Product(detShape)
    ensures var (s, p) := AlignPc(detShape, pcs, navShape).value;
            AlignPc(s, p, navShape) == Ok((s, p))
  {
    var (s, p) := AlignPc(detShape, pcs, navShape).value;
    if s == [1] {
      assert Product(s) == 1;
      assert |p| == 1;
      assert seq(Product(navShape), _ => p[0]) == p;
    }
  }

  // ---------------------------------------------------------------------
  // The detector and the generator
  // ---------------------------------------------------------------------

  /** The detector attributes the generator uses: its navigation shape and
      its projection centres in row-major order. */
  class GeneratorDetector {
    var navShape: seq<nat>
    var pcs: seq<PC>

    constructor (navShape: seq<nat>, pcs: seq<PC>)
      ensures this.navShape == navShape && this.pcs == pcs
    {
      this.navShape := navShape;
      this.pcs := pcs;
    }
  }

  class EBSDSimulationGenerator {
    const detector: GeneratorDetector
    var phase: Phase
    var rotations: Rotations

    /** The state every successful assignment of rotations leaves: one PC
        per navigation position, the detector's navigation shape equal to
        the rotations' shape, and at most two navigation dimensions. */
    ghost predicate Valid()
      reads this, detector
    {
      WellFormed(rotations) &&
      detector.navShape == rotations.shape &&
      |rotations.shape| <= 2 &&
      |detector.pcs| == Product(detector.navShape)
    }

    /** The generator before its rotations setter has run. */
    constructor Init(detector: GeneratorDetector, phase: Phase, rotations: Rotations)
      ensures this.detector == detector && this.phase == phase && this.rotations == rotations
    {
      this.detector := detector;
      this.phase := phase;
      this.rotations := rotations;
    }

    /** `navigation_shape` (the rotations' shape). */
    function NavigationShape(): seq<nat>
      reads this
    {
      rotations.shape
    }

    /** `navigation_dimension`: at most two in a valid generator. */
    function NavigationDimension(): (n: nat)
      reads this, detector
      ensures Valid() ==> n <= 2
    {
      |NavigationShape()|
    }

    /** `_align_pc_with_rotations_shape`. */
    method AlignPcWithRotationsShape() returns (r: Result<()>)
      modifies detector
      ensures var a := AlignPc(old(detector.navShape), old(detector.pcs), rotations.shape);
              (r.Ok? <==> a.Ok?) &&
              (r.Raise? ==> r.error == a.error && detector.navShape == old(detector.navShape) && detector.pcs == old(detector.pcs)) &&
              (r.Ok? ==> detector.navShape == a.value.0 && detector.pcs == a.value.1)
    {
      var a := AlignPc(detector.navShape, detector.pcs, rotations.shape);
      if a.Raise? {
        return Raise(a.error);
      }
      detector.pcs := a.value.1;
      detector.navShape := a.value.0;
      r := Ok(());
    }

    /** The `rotations` setter: more than two dimensions raises ValueError
        and keeps the old rotations; otherwise the rotations are stored and
        then the PCs aligned with them (which may raise after the store). */
    method SetRotations(value: Rotations) returns (r: Result<()>)
      requires WellFormed(value)
      requires |detector.pcs| == Product(detector.navShape)
      modifies this, detector
      ensures phase == old(phase)
      ensures |value.shape| > 2 ==>
                r == Raise(ValueError) && rotations == old(rotations) &&
                detector.navShape == old(detector.navShape) && detector.pcs == old(detector.pcs)
      ensures |value.shape| <= 2 ==> rotations == value
      ensures |value.shape| <= 2 ==>
                var a := AlignPc(old(detector.navShape), old(detector.pcs), value.shape);
                (r.Ok? <==> a.Ok?) &&
                (r.Raise? ==> r.error == a.error && detector.navShape == old(detector.navShape) && detector.pcs == old(detector.pcs)) &&
                (r.Ok? ==> detector.navShape == a.value.0 && detector.pcs == a.value.1)
      ensures r.Ok? ==> Valid()
    {
      if |value.shape| > 2 {
        return Raise(ValueError);
      }
      rotations := value;
      if AlignPc(detector.navShape, detector.pcs, value.shape).Ok? {
        AlignPcKeepsOnePerPosition(detector.navShape, detector.pcs, value.shape);
      }
      r := AlignPcWithRotationsShape();
    }

    /** The `navigation_shape` setter: more than two dimensions raises
        ValueError; otherwise the detector's navigation shape is set first
        and the rotations reshaped after, so a reshape that fails leaves
        the detector changed and the rotations as they were. */
    method SetNavigationShape(value: seq<nat>) returns (r: Result<()>)
      requires Valid()
      modifies this, detector
      ensures phase == old(phase)
      ensures r.Ok? <==> |value| <= 2 && Product(value) == Product(old(rotations.shape))
      ensures r.Raise? ==> r.error == ValueError
      ensures |value| > 2 ==> rotations == old(rotations) && detector.navShape == old(detector.navShape)
      ensures |value| <= 2 && r.Raise? ==> rotations == old(rotations) && detector.navShape == value
      ensures r.Ok? ==> Valid() && rotations == Rotations(value, old(rotations.values)) && detector.navShape == value
      ensures detector.pcs == old(detector.pcs)
    {
      if |value| > 2 {
        return Raise(ValueError);
      }
      var oldPcs := detector.pcs;
      detector.navShape := value;
      var reshaped := Reshape(rotations, value);
      if reshaped.Raise? {
        return Raise(reshaped.error);
      }
      assert |oldPcs| == Product(value);
      r := SetRotations(reshaped.value);
      if value == [1] {
        assert |oldPcs| == 1;
      }
    }

    /** `__getitem__` with a slice `[start:stop]` over the first navigation
        axis: a new generator for the selected rows, holding their PCs and
        rotations. Python clamps the slice to the axis. */
    method GetItem(start: nat, stop: nat) returns (r: Result<EBSDSimulationGenerator>)
      requires Valid()
      ensures |rotations.shape| == 0 ==> r == Raise(IndexError)
      ensures |rotations.shape| > 0 ==> r.Ok?
      ensures r.Ok? ==>
                var n := rotations.shape[0];
                var w := Product(rotations.shape[1..]);
                var lo := if start < n then start else n;
                var hi := if stop < lo then lo else if stop < n then stop else n;
                fresh(r.value) && fresh(r.value.detector) && r.value.Valid() && r.value.phase == phase &&
                r.value.rotations.shape == [hi - lo] + rotations.shape[1..] &&
                r.value.rotations.values == rotations.values[lo * w .. hi * w] &&
                r.value.detector.pcs == detector.pcs[lo * w .. hi * w]
    {
      if |rotations.shape| == 0 {
        return Raise(IndexError);
      }
      var n := rotations.shape[0];
      var w := Product(rotations.shape[1..]);
      var lo := if start < n then start else n;
      var hi := if stop < lo then lo else if stop < n then stop else n;
      RowsInside(lo, hi, n, w);
      var shape := [hi - lo] + rotations.shape[1..];
      assert Product(shape) == (hi - lo) * w;
      var pcs := detector.pcs[lo * w .. hi * w];
      var newDetector := new GeneratorDetector(shape, pcs);
      var newRotations := Rotations(shape, rotations.values[lo * w .. hi * w]);
      AlignPcSameShape(shape, pcs);
      r := NewGenerator(newDetector, phase, newRotations);
    }
  }

  /** A detector whose navigation shape already is the rotations' shape
      keeps its PCs when aligned. */
  lemma AlignPcSameShape(shape: seq<nat>, pcs: seq<PC>)
    requires |pcs| == Product(shape)
    ensures AlignPc(shape, pcs, shape) == Ok((shape, pcs))
  {
    if shape == [1] {
      assert |pcs| == 1;
      assert seq(Product(shape), _ => pcs[0]) == pcs;
    }
  }

  lemma RowsInside(lo: nat, hi: nat, n: nat, w: nat)
    requires lo <= hi <= n
    ensures lo * w <= hi * w <= n * w
    ensures hi * w - lo * w == (hi - lo) * w
  {
  }

  /** `EBSDSimulationGenerator(detector, phase, rotations)`: copies the
      detector and assigns the rotations through their setter. */
  method NewGenerator(detector: GeneratorDetector, phase: Phase, rotations: Rotations)
    returns (r: Result<EBSDSimulationGenerator>)
    requires WellFormed(rotations)
    requires |detector.pcs| == Product(detector.navShape)
    ensures r.Ok? <==> |rotations.shape| <= 2 && AlignPc(detector.navShape, detector.pcs, rotations.shape).Ok?
    ensures r.Raise? ==> r.error == (if |rotations.shape| > 2 then ValueError else AlignPc(detector.navShape, detector.pcs, rotations.shape).error)
    ensures r.Ok? ==> fresh(r.value) && fresh(r.value.detector) && r.value.Valid() &&
                      r.value.phase == phase && r.value.rotations == rotations &&
                      r.value.detector.pcs == AlignPc(detector.navShape, detector.pcs, rotations.shape).value.1
  {
    var copy := new GeneratorDetector(detector.navShape, detector.pcs);
    var g := new EBSDSimulationGenerator.Init(copy, phase, rotations);
    var outcome := g.SetRotations(rotations);
    if outcome.Raise? {
      return Raise(outcome.error);
    }
    r := Ok(g);
  }

  // ---------------------------------------------------------------------
  // Reciprocal lattice points
  // ---------------------------------------------------------------------

  const AbsoluteTolerance: real := 0.0001
  const RelativeTolerance: real := 0.00001

  function Abs(x: real): real
  {
    if x < 0.0 then -x else x
  }

  /** `np.isclose(a, b, atol=1e-4)` with the default relative tolerance. */
  predicate IsClose(a: real, b: real)
  {
    Abs(a - b) <= AbsoluteTolerance + RelativeTolerance * Abs(b)
  }

  predicate LatticesClose(p: Lattice, q: Lattice)
  {
    IsClose(p.a, q.a) && IsClose(p.b, q.b) && IsClose(p.c, q.c) &&
    IsClose(p.alpha, q.alpha) && IsClose(p.beta, q.beta) && IsClose(p.gamma, q.gamma)
  }

  /** `_rlp_phase_is_compatible`, in the source's order of evaluation: a
      missing lattice or point group raises AttributeError where it is
      read; lattices that are not close, or differently named point groups,
      raise ValueError. */
  function RlpPhaseIsCompatible(rlpPhase: Phase, phase: Phase): (r: Result<()>)
    ensures r.Ok? <==> rlpPhase.lattice.Some? && phase.lattice.Some? &&
                       LatticesClose(rlpPhase.lattice.value, phase.lattice.value) &&
                       rlpPhase.pointGroup.Some? && phase.pointGroup.Some? &&
                       rlpPhase.pointGroup.value == phase.pointGroup.value
    ensures (r.Raise? && rlpPhase.lattice.Some? && phase.lattice.Some? &&
             !LatticesClose(rlpPhase.lattice.value, phase.lattice.value)) ==> r.error == ValueError
  {
    if rlpPhase.lattice.None? || phase.lattice.None? then Raise(AttributeError)
    else if !LatticesClose(rlpPhase.lattice.value, phase.lattice.value) then Raise(ValueError)
    else if rlpPhase.pointGroup.None? || phase.pointGroup.None? then Raise(AttributeError)
    else if rlpPhase.pointGroup.value != phase.pointGroup.value then Raise(ValueError)
    else Ok(())
  }

  /** A phase with a lattice and a point group is compatible with itself. */
  lemma RlpPhaseCompatibleWithItself(phase: Phase)
    requires phase.lattice.Some? && phase.pointGroup.Some?
    ensures RlpPhaseIsCompatible(phase, phase).Ok?
  {
    var l := phase.lattice.value;
    assert IsClose(l.a, l.a) && IsClose(l.b, l.b) && IsClose(l.c, l.c);
    assert IsClose(l.alpha, l.alpha) && IsClose(l.beta, l.beta) && IsClose(l.gamma, l.gamma);
  }

  /** The reflectors `geometrical_simulation` projects: the ones given, or,
      for a phase with a point group name and lattice parameters, the
      symmetrised allowed reflectors down to 1 Angstrom
      (`fromMinDspacing`); with neither, ValueError. The result must then
      be compatible with the generator's phase. */
  function GeometricalReflectors(rlp: Option<Reflectors>, phase: Phase, fromMinDspacing: Phase -> Reflectors): (r: Result<Reflectors>)
    ensures rlp.None? && (phase.pointGroup.None? || phase.lattice.None?) ==> r == Raise(ValueError)
    ensures rlp.Some? ==> r.Ok? ==> r.value == rlp.value
    ensures rlp.None? && r.Ok? ==> r.value == fromMinDspacing(phase)
    ensures r.Ok? ==> RlpPhaseIsCompatible(r.value.phase, phase).Ok?
    ensures rlp.Some? ==>
              var c := RlpPhaseIsCompatible(rlp.value.phase, phase);
              r == (if c.Ok? then Ok(rlp.value) else Raise(c.error))
    ensures rlp.None? && phase.pointGroup.Some? && phase.lattice.Some? ==>
              var c := RlpPhaseIsCompatible(fromMinDspacing(phase).phase, phase);
              r == (if c.Ok? then Ok(fromMinDspacing(phase)) else Raise(c.error))
  {
    var reflectors :-
      if rlp.None? && phase.pointGroup.Some? && phase.lattice.Some? then Ok(fromMinDspacing(phase))
      else if rlp.None? then Raise(ValueError)
      else Ok(rlp.value);
    var _ :- RlpPhaseIsCompatible(reflectors.phase, phase);
    Ok(reflectors)
  }

  /** Reflectors made for the generator's own phase pass the guard. */
  lemma GeometricalReflectorsOwnPhase(hkl: seq<(int, int, int)>, phase: Phase, fromMinDspacing: Phase -> Reflectors)
    requires phase.lattice.Some? && phase.pointGroup.Some?
    ensures GeometricalReflectors(Some(Reflectors(phase, hkl)), phase, fromMinDspacing) == Ok(Reflectors(phase, hkl))
  {
    RlpPhaseCompatibleWithItself(phase);
  }

  // ---------------------------------------------------------------------
  // Band visibility
  // ---------------------------------------------------------------------

  /** A band is in a pattern iff its detector z coordinate is positive;
      `z[b][p]` is band b's z in pattern p (patterns in row-major order). */
  predicate InSomePattern(z: seq<real>)
  {
    exists p :: 0 <= p < |z| && z[p] > 0.0
  }

  /** The bands kept by `geometrical_simulation`: those in some pattern,
      as indices in their original order. */
  function VisibleBands(z: seq<seq<real>>): (kept: seq<nat>)
    ensures forall k :: 0 <= k < |kept| ==> kept[k] < |z|
    ensures forall k, l :: 0 <= k < l < |kept| ==> kept[k] < kept[l]
    ensures forall b :: 0 <= b < |z| ==> (b in kept <==> InSomePattern(z[b]))
  {
    if z == [] then []
    else
      var rest := VisibleBands(z[..|z| - 1]);
      var last := |z| - 1;
      if AnyPositive(z[last]) then rest + [last] else rest
  }

  /** `np.sum(z > 0) != 0`. */
  function AnyPositive(z: seq<real>): (b: bool)
    ensures b <==> InSomePattern(z)
  {
    if z == [] then false
    else if z[0] > 0.0 then true
    else
      var b := AnyPositive(z[1..]);
      assert InSomePattern(z[1..]) ==> InSomePattern(z) by {
        if InSomePattern(z[1..]) {
          var p :| 0 <= p < |z[1..]| && z[1..][p] > 0.0;
          assert z[p + 1] > 0.0;
        }
      }
      assert InSomePattern(z) ==> InSomePattern(z[1..]) by {
        if InSomePattern(z) {
          var p :| 0 <= p < |z| && z[p] > 0.0;
          assert z[1..][p - 1] > 0.0;
        }
      }
      b
  }

  /** `hkl_in_pattern`: for each pattern, which kept bands are in it. */
  function InPattern(z: seq<seq<real>>, kept: seq<nat>, nPatterns: nat): (t: seq<seq<bool>>)
    requires forall k :: 0 <= k < |kept| ==> kept[k] < |z| && |z[kept[k]]| == nPatterns
    ensures |t| == nPatterns && forall p :: 0 <= p < nPatterns ==> |t[p]| == |kept|
    ensures forall p, k :: 0 <= p < nPatterns && 0 <= k < |kept| ==> (t[p][k] <==> z[kept[k]][p] > 0.0)
  {
    seq(nPatterns, p requires 0 <= p < nPatterns => seq(|kept|, k requires 0 <= k < |kept| => z[kept[k]][p] > 0.0))
  }

  /** Every kept band appears in at least one row of the in-pattern table. */
  lemma KeptBandsAppear(z: seq<seq<real>>, nPatterns: nat, k: nat)
    requires forall b :: 0 <= b < |z| ==> |z[b]| == nPatterns
    requires k < |VisibleBands(z)|
    ensures exists p :: 0 <= p < nPatterns && InPattern(z, VisibleBands(z), nPatterns)[p][k]
  {
    var kept := VisibleBands(z);
    assert InSomePattern(z[kept[k]]);
    var p :| 0 <= p < |z[kept[k]]| && z[kept[k]][p] > 0.0;
    assert InPattern(z, kept, nPatterns)[p][k];
  }
}
