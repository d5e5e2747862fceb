/** An EBSD detector: its pixel geometry and its projection centre (PC),
    stored in Bruker's convention and convertible to and from the EDAX
    TSL, EMsoft and Oxford conventions. */
module EbsdDetector {
  import opened Common

  /** A projection centre (pcx, pcy, pcz). */
  datatype PC = PC(x: real, y: real, z: real)

  // ---------------------------------------------------------------------
  // Conversions between PC conventions, as functions of the detector width
  // and height (in microns) and its pixel size.
  // ---------------------------------------------------------------------

  /** EMsoft measures pcx and pcy from the detector centre, so a PC at the
      centre of a detector of non-zero size becomes EMsoft's origin. */
  function Bruker2Emsoft(width: real, height: real, pixelSize: real, pc: PC): (r: PC)
    ensures width != 0.0 ==> (r.x == 0.0 <==> pc.x == 0.5)
    ensures height != 0.0 ==> (r.y == 0.0 <==> pc.y == 0.5)
  {
    PC(width * (pc.x - 0.5), height * (0.5 - pc.y), height * pixelSize * pc.z)
  }

  /** The inverse of `Bruker2Emsoft` on a detector of non-zero size. */
  function Emsoft2Bruker(width: real, height: real, pixelSize: real, pc: PC): (r: PC)
    requires width != 0.0 && height != 0.0 && height * pixelSize != 0.0
    ensures Bruker2Emsoft(width, height, pixelSize, r) == pc
  {
    ScaleCancels(pc.x, width);
    ScaleCancels(pc.y, height);
    ScaleCancels(pc.z, height * pixelSize);
    PC(pc.x / width + 0.5, 0.5 - pc.y / height, pc.z / (height * pixelSize))
  }

  /** As from Bruker, a PC at the centre of the detector becomes EMsoft's
      origin; pcz is scaled by the width rather than the height. */
  function Tsl2Emsoft(width: real, height: real, pixelSize: real, pc: PC): (r: PC)
    ensures width != 0.0 ==> (r.x == 0.0 <==> pc.x == 0.5)
    ensures height != 0.0 ==> (r.y == 0.0 <==> pc.y == 0.5)
  {
    PC(width * (pc.x - 0.5), height * (0.5 - pc.y), width * pixelSize * pc.z)
  }

  /** The inverse of `Tsl2Emsoft` on a detector of non-zero size. */
  function Emsoft2Tsl(width: real, height: real, pixelSize: real, pc: PC): (r: PC)
    requires width != 0.0 && height != 0.0 && width * pixelSize != 0.0
    ensures Tsl2Emsoft(width, height, pixelSize, r) == pc
  {
    ScaleCancels(pc.x, width);
    ScaleCancels(pc.y, height);
    ScaleCancels(pc.z, width * pixelSize);
    PC(pc.x / width + 0.5, 0.5 - pc.y / height, pc.z / (width * pixelSize))
  }

  /** Undone by `Bruker2Tsl`. */
  function Tsl2Bruker(pc: PC): (r: PC)
    ensures Bruker2Tsl(r) == pc
  {
    PC(pc.x, 1.0 - pc.y, pc.z)
  }

  /** TSL measures pcy from the other edge: the conversion mirrors pcy
      about the middle of the detector and keeps pcx and pcz. */
  function Bruker2Tsl(pc: PC): (r: PC)
    ensures r.x == pc.x && r.z == pc.z
    ensures r.y - 0.5 == 0.5 - pc.y
  {
    PC(pc.x, 1.0 - pc.y, pc.z)
  }

  /** Oxford's PC is TSL's with pcy measured from the other edge, so
      converting it to EMsoft is converting its mirror image from TSL. */
  function Oxford2Emsoft(width: real, height: real, pixelSize: real, pc: PC): (r: PC)
    ensures r == Tsl2Emsoft(width, height, pixelSize, Bruker2Tsl(pc))
  {
    PC(width * (pc.x - 0.5), height * (pc.y - 0.5), width * pixelSize * pc.z)
  }

  /** Bruker and TSL differ only by flipping pcy, so both conversions are
      the same map and each is its own inverse. */
  lemma TslBrukerInvolution(pc: PC)
    ensures Tsl2Bruker(pc) == Bruker2Tsl(pc)
    ensures Tsl2Bruker(Tsl2Bruker(pc)) == pc
    ensures Bruker2Tsl(Bruker2Tsl(pc)) == pc
    ensures Tsl2Bruker(Bruker2Tsl(pc)) == pc
  {
  }

  /** Multiplying by a nonzero factor and dividing by it again is the
      identity (the step every EMsoft round trip rests on). */
  lemma ScaleCancels(a: real, f: real)
    requires f != 0.0
    ensures (f * a) / f == a
    ensures f * (a / f) == a
  {
  }

  /** EMsoft -> Bruker undoes Bruker -> EMsoft and vice versa, whenever the
      detector has a nonzero width, height and pixel size. */
  lemma EmsoftBrukerRoundTrip(width: real, height: real, pixelSize: real, pc: PC)
    requires width != 0.0 && height != 0.0 && pixelSize != 0.0
    ensures height * pixelSize != 0.0
    ensures Emsoft2Bruker(width, height, pixelSize, Bruker2Emsoft(width, height, pixelSize, pc)) == pc
    ensures Bruker2Emsoft(width, height, pixelSize, Emsoft2Bruker(width, height, pixelSize, pc)) == pc
  {
    var hp := height * pixelSize;
    ProductNonzero(height, pixelSize);
    ScaleCancels(pc.x - 0.5, width);
    ScaleCancels(0.5 - pc.y, height);
    ScaleCancels(pc.z, hp);
    ScaleCancels(pc.x, width);
    ScaleCancels(pc.y, height);
  }

  /** EMsoft -> TSL undoes TSL -> EMsoft and vice versa. */
  lemma EmsoftTslRoundTrip(width: real, height: real, pixelSize: real, pc: PC)
    requires width != 0.0 && height != 0.0 && pixelSize != 0.0
    ensures width * pixelSize != 0.0
    ensures Emsoft2Tsl(width, height, pixelSize, Tsl2Emsoft(width, height, pixelSize, pc)) == pc
    ensures Tsl2Emsoft(width, height, pixelSize, Emsoft2Tsl(width, height, pixelSize, pc)) == pc
  {
    var wp := width * pixelSize;
    ProductNonzero(width, pixelSize);
    ScaleCancels(pc.x - 0.5, width);
    ScaleCancels(0.5 - pc.y, height);
    ScaleCancels(pc.z, wp);
    ScaleCancels(pc.x, width);
    ScaleCancels(pc.y, height);
  }

  /** Oxford -> EMsoft -> Bruker on a detector of nrows x ncols pixels keeps
      pcx, flips pcy and scales pcz by ncols / nrows. */
  lemma OxfordToBruker(nrows: int, ncols: int, pixelSize: real, pc: PC)
    requires nrows != 0 && ncols != 0 && pixelSize != 0.0
    ensures var w, h := ncols as real * pixelSize, nrows as real * pixelSize;
            w != 0.0 && h != 0.0 && h * pixelSize != 0.0 &&
            Emsoft2Bruker(w, h, pixelSize, Oxford2Emsoft(w, h, pixelSize, pc))
              == PC(pc.x, 1.0 - pc.y, pc.z * ncols as real / nrows as real)
  {
    var w, h := ncols as real * pixelSize, nrows as real * pixelSize;
    ProductNonzero(ncols as real, pixelSize);
    ProductNonzero(nrows as real, pixelSize);
    OxfordDepth(ncols as real, nrows as real, pixelSize, pc.z);
    OxfordPlane(w, h, pixelSize, pc);
  }

  /** The pcx and pcy steps of Oxford -> Bruker. */
  lemma OxfordPlane(w: real, h: real, p: real, pc: PC)
    requires w != 0.0 && h != 0.0
    ensures Oxford2Emsoft(w, h, p, pc).x / w + 0.5 == pc.x
    ensures 0.5 - Oxford2Emsoft(w, h, p, pc).y / h == 1.0 - pc.y
  {
    var e := Oxford2Emsoft(w, h, p, pc);
    DivideBack(e.x, w, pc.x - 0.5);
    DivideBack(e.y, h, pc.y - 0.5);
  }

  lemma DivideBack(t: real, f: real, a: real)
    requires f != 0.0 && t == f * a
    ensures t / f == a
  {
  }

  /** The pcz step of Oxford -> Bruker: the pixel size cancels. */
  lemma OxfordDepth(c: real, r: real, p: real, z: real)
    requires r != 0.0 && p != 0.0
    ensures (r * p) * p != 0.0
    ensures (c * p) * p * z / ((r * p) * p) == z * c / r
  {
    ProductNonzero(r, p);
    ProductNonzero(r * p, p);
    assert (c * p) * p * z == (c * z) * (p * p);
    assert (r * p) * p == r * (p * p);
    ProductNonzero(p, p);
    CommonFactorCancels(c * z, r, p * p);
  }

  lemma ProductNonzero(a: real, b: real)
    requires a != 0.0 && b != 0.0
    ensures a * b != 0.0
  {
  }

  lemma CommonFactorCancels(a: real, b: real, f: real)
    requires b != 0.0 && f != 0.0
    ensures b * f != 0.0
    ensures (a * f) / (b * f) == a / b
  {
  }

  // ---------------------------------------------------------------------
  // Convention names
  // ---------------------------------------------------------------------

  function LowerChar(c: char): char
  {
    if 'A' <= c <= 'Z' then (c as int + 32) as char else c
  }

  /** `str.lower()` on ASCII letters. */
  function Lower(s: string): (r: string)
    ensures |r| == |s|
    ensures forall k :: 0 <= k < |s| ==> r[k] == LowerChar(s[k])
  {
    if s == [] then [] else [LowerChar(s[0])] + Lower(s[1..])
  }

  /** The convention names Oxford, in any letter case. */
  predicate IsOxford(convention: Option<string>)
  {
    convention.Some? && Lower(convention.value) == "oxford"
  }

  /** The PC, given in `convention`, expressed in Bruker's convention, or the
      exception `_set_pc_convention` raises. Only the exact string "bruker"
      is accepted unlowered; the other names are compared after `lower()`. */
  function ConventionToBruker(convention: Option<string>, width: real, height: real,
                              pixelSize: real, pc: PC): (r: Result<PC>)
    ensures r.Raise? <==>
              convention.Some? && convention.value != "bruker" &&
              (Lower(convention.value) !in {"tsl", "oxford", "emsoft"} ||
               (Lower(convention.value) in {"oxford", "emsoft"} &&
                (width == 0.0 || height == 0.0 || height * pixelSize == 0.0)))
    ensures r.Raise? ==> r.error == (if Lower(convention.value) in {"oxford", "emsoft"} then ZeroDivisionError else ValueError)
    // each branch is undone by the conversion back to the named convention
    ensures r.Ok? && convention.Some? && Lower(convention.value) == "tsl" ==> Bruker2Tsl(r.value) == pc
    ensures r.Ok? && convention.Some? && Lower(convention.value) == "emsoft" ==>
              Bruker2Emsoft(width, height, pixelSize, r.value) == pc
    ensures r.Ok? && (convention.None? || convention.value == "bruker") ==> r.value == pc
  {
    if convention.None? || convention.value == "bruker" then Ok(pc)
    else if Lower(convention.value) == "tsl" then Ok(Tsl2Bruker(pc))
    else if Lower(convention.value) == "oxford" || Lower(convention.value) == "emsoft" then
      if width == 0.0 || height == 0.0 || height * pixelSize == 0.0 then Raise(ZeroDivisionError)
      else if Lower(convention.value) == "oxford" then
        Ok(Emsoft2Bruker(width, height, pixelSize, Oxford2Emsoft(width, height, pixelSize, pc)))
      else
        Ok(Emsoft2Bruker(width, height, pixelSize, pc))
    else Raise(ValueError)
  }

  /** None and the exact name "bruker" keep the PC; "tsl" in any letter
      case flips pcy. */
  lemma ConventionCases(width: real, height: real, pixelSize: real, pc: PC)
    ensures ConventionToBruker(None, width, height, pixelSize, pc) == Ok(pc)
    ensures ConventionToBruker(Some("bruker"), width, height, pixelSize, pc) == Ok(pc)
    ensures ConventionToBruker(Some("TSL"), width, height, pixelSize, pc) == Ok(PC(pc.x, 1.0 - pc.y, pc.z))
    ensures ConventionToBruker(Some("tsl"), width, height, pixelSize, pc) == Ok(PC(pc.x, 1.0 - pc.y, pc.z))
  {
    assert Lower("TSL") == "tsl";
    assert Lower("tsl") == "tsl";
  }

  /** An unknown name raises ValueError, and so does the capitalised
      "Bruker", which is compared before lowering. */
  lemma ConventionRejects(width: real, height: real, pixelSize: real, pc: PC)
    ensures ConventionToBruker(Some("Bruker"), width, height, pixelSize, pc) == Raise(ValueError)
    ensures ConventionToBruker(Some("nordif"), width, height, pixelSize, pc) == Raise(ValueError)
  {
    LowerOfNames();
  }

  lemma LowerOfNames()
    ensures Lower("Bruker") == "bruker"
    ensures Lower("nordif") == "nordif"
  {
    assert Lower("Bruker") == "bruker";
  }

  /** A recognised convention name never raises ValueError, and a name that
      does not lower to one of the four raises it. */
  lemma ConventionValueErrorIff(convention: string, width: real, height: real, pixelSize: real, pc: PC)
    ensures ConventionToBruker(Some(convention), width, height, pixelSize, pc) == Raise(ValueError)
            <==> (convention != "bruker" && Lower(convention) !in {"tsl", "oxford", "emsoft"})
  {
  }

  /** The Oxford branch of the dispatcher on a real detector. */
  lemma ConventionOxford(nrows: int, ncols: int, pixelSize: real, pc: PC)
    requires nrows != 0 && ncols != 0 && pixelSize != 0.0
    ensures ConventionToBruker(Some("oxford"), ncols as real * pixelSize, nrows as real * pixelSize, pixelSize, pc)
            == Ok(PC(pc.x, 1.0 - pc.y, pc.z * ncols as real / nrows as real))
  {
    assert Lower("oxford") == "oxford";
    OxfordToBruker(nrows, ncols, pixelSize, pc);
    var w, h := ncols as real * pixelSize, nrows as real * pixelSize;
    assert ConventionToBruker(Some("oxford"), w, h, pixelSize, pc)
        == Ok(Emsoft2Bruker(w, h, pixelSize, Oxford2Emsoft(w, h, pixelSize, pc)));
  }

  // ---------------------------------------------------------------------
  // The detector
  // ---------------------------------------------------------------------

  class EBSDDetector {
    var shape: (int, int)
    var pixelSize: real
    var binning: int
    var tilt: real
    var sampleTilt: real
    var pcx: real
    var pcy: real
    var pcz: real

    /** The attribute assignments of `__init__`, before the convention is
        applied. */
    constructor Raw(shape: (int, int), pixelSize: real, binning: int, tilt: real,
                    sampleTilt: real, pcx: real, pcy: real, pcz: real)
      ensures this.shape == shape && this.pixelSize == pixelSize && this.binning == binning
      ensures this.tilt == tilt && this.sampleTilt == sampleTilt
      ensures this.pcx == pcx && this.pcy == pcy && this.pcz == pcz
    {
      this.shape := shape;
      this.pixelSize := pixelSize;
      this.binning := binning;
      this.tilt := tilt;
      this.sampleTilt := sampleTilt;
      this.pcx := pcx;
      this.pcy := pcy;
      this.pcz := pcz;
    }

    function NRows(): int reads this { shape.0 }
    function NCols(): int reads this { shape.1 }
    function Size(): int reads this { NRows() * NCols() }
    function Height(): real reads this { NRows() as real * pixelSize }
    function Width(): real reads this { NCols() as real * pixelSize }

    /** `nrows / ncols`: ZeroDivisionError for a detector without columns,
        else the ratio that scales the column count to the row count. */
    function AspectRatio(): (r: Result<real>)
      reads this
      ensures r.Raise? <==> NCols() == 0
      ensures r.Raise? ==> r.error == ZeroDivisionError
      ensures r.Ok? ==> r.value * NCols() as real == NRows() as real
    {
      if NCols() == 0 then Raise(ZeroDivisionError) else Ok(NRows() as real / NCols() as real)
    }

    function ShapeUnbinned(): (int, int) reads this { (shape.0 * binning, shape.1 * binning) }

    function Pc(): PC reads this { PC(pcx, pcy, pcz) }

    /** The gnomonic bounds divide by the aspect ratio's column count and
        by pcz; either being zero raises ZeroDivisionError. */
    predicate GnomonicDefined()
      reads this
    {
      NCols() != 0 && pcz != 0.0
    }

    /** `-aspect_ratio * (pcx / pcz)`: the left bound, pcx depths to the
        left of the PC in units of the detector width. */
    function XMin(): (r: Result<real>)
      reads this
      ensures r.Raise? <==> !GnomonicDefined()
      ensures r.Raise? ==> r.error == ZeroDivisionError
      ensures r.Ok? ==> r.value * pcz == -AspectRatio().value * pcx
    {
      if !GnomonicDefined() then Raise(ZeroDivisionError)
      else
        ScaleCancels(pcx, pcz);
        Ok(-AspectRatio().value * (pcx / pcz))
    }

    /** `aspect_ratio * (1 - pcx) / pcz`: the right bound. */
    function XMax(): (r: Result<real>)
      reads this
      ensures r.Raise? <==> !GnomonicDefined()
      ensures r.Raise? ==> r.error == ZeroDivisionError
      ensures r.Ok? ==> r.value * pcz == AspectRatio().value * (1.0 - pcx)
    {
      if !GnomonicDefined() then Raise(ZeroDivisionError)
      else
        ScaleCancels(AspectRatio().value * (1.0 - pcx), pcz);
        Ok(AspectRatio().value * (1.0 - pcx) / pcz)
    }

    /** `-(1 - pcy) / pcz`: the top bound. The source divides by pcz only,
        so a detector without columns still has it. */
    function YMin(): (r: Result<real>)
      reads this
      ensures r.Raise? <==> pcz == 0.0
      ensures r.Raise? ==> r.error == ZeroDivisionError
      ensures r.Ok? ==> r.value * pcz == -(1.0 - pcy)
    {
      if pcz == 0.0 then Raise(ZeroDivisionError)
      else
        ScaleCancels(-(1.0 - pcy), pcz);
        Ok(-(1.0 - pcy) / pcz)
    }

    /** `pcy / pcz`: the bottom bound. */
    function YMax(): (r: Result<real>)
      reads this
      ensures r.Raise? <==> pcz == 0.0
      ensures r.Raise? ==> r.error == ZeroDivisionError
      ensures r.Ok? ==> r.value * pcz == pcy
    {
      if pcz == 0.0 then Raise(ZeroDivisionError)
      else
        ScaleCancels(pcy, pcz);
        Ok(pcy / pcz)
    }

    /** The `pc` setter: unpacks exactly three values. */
    method SetPc(value: seq<real>) returns (r: Result<()>)
      modifies this
      ensures r.Ok? <==> |value| == 3
      ensures r.Raise? ==> r.error == ValueError && Pc() == old(Pc())
      ensures r.Ok? ==> Pc() == PC(value[0], value[1], value[2])
      ensures shape == old(shape) && pixelSize == old(pixelSize) && binning == old(binning)
      ensures tilt == old(tilt) && sampleTilt == old(sampleTilt)
    {
      if |value| != 3 {
        return Raise(ValueError);
      }
      pcx, pcy, pcz := value[0], value[1], value[2];
      r := Ok(());
    }

    /** `_set_pc_convention`: rewrites the stored PC into Bruker's
        convention; the Oxford branch goes through EMsoft in two steps and
        stores the EMsoft PC before the second step, so a zero dimension
        raises with that PC already in place. */
    method SetPcConvention(convention: Option<string>) returns (r: Result<()>)
      modifies this
      ensures var c := ConventionToBruker(convention, old(Width()), old(Height()), pixelSize, old(Pc()));
              (r.Raise? <==> c.Raise?) &&
              (r.Raise? ==> r.error == c.error &&
                            Pc() == (if IsOxford(convention)
                                     then Oxford2Emsoft(old(Width()), old(Height()), pixelSize, old(Pc()))
                                     else old(Pc()))) &&
              (r.Ok? ==> Pc() == c.value)
      ensures shape == old(shape) && pixelSize == old(pixelSize) && binning == old(binning)
      ensures tilt == old(tilt) && sampleTilt == old(sampleTilt)
    {
      var w, h := Width(), Height();
      if convention.None? || convention.value == "bruker" {
        return Ok(());
      }
      var name := Lower(convention.value);
      if name == "tsl" {
        var p := Tsl2Bruker(Pc());
        pcx, pcy, pcz := p.x, p.y, p.z;
        r := Ok(());
      } else if name == "oxford" || name == "emsoft" {
        if name == "oxford" {
          var e := Oxford2Emsoft(w, h, pixelSize, Pc());
          pcx, pcy, pcz := e.x, e.y, e.z;
        }
        if w == 0.0 || h == 0.0 || h * pixelSize == 0.0 {
          return Raise(ZeroDivisionError);
        }
        var b := Emsoft2Bruker(w, h, pixelSize, Pc());
        pcx, pcy, pcz := b.x, b.y, b.z;
        r := Ok(());
      } else {
        r := Raise(ValueError);
      }
    }

    /** `to_emsoft`: the stored PC in EMsoft's convention, from which
        `Emsoft2Bruker` gives the stored PC back. */
    function ToEmsoft(): (r: PC)
      reads this
      ensures Width() != 0.0 && Height() != 0.0 && Height() * pixelSize != 0.0 ==>
                Emsoft2Bruker(Width(), Height(), pixelSize, r) == Pc()
    {
      if Width() != 0.0 && Height() != 0.0 && Height() * pixelSize != 0.0 then
        EmsoftBrukerRoundTrip(Width(), Height(), pixelSize, Pc());
        Bruker2Emsoft(Width(), Height(), pixelSize, Pc())
      else
        Bruker2Emsoft(Width(), Height(), pixelSize, Pc())
    }

    function ToBruker(): PC reads this { Pc() }

    /** `to_tsl`: the stored PC in TSL's convention, from which
        `Tsl2Bruker` gives the stored PC back. */
    function ToTsl(): (r: PC)
      reads this
      ensures Tsl2Bruker(r) == Pc()
    {
      Bruker2Tsl(Pc())
    }

    /** `to_oxford` is not implemented. */
    function ToOxford(): (r: Result<PC>)
      reads this
      ensures r == Raise(NotImplementedError)
    {
      Raise(NotImplementedError)
    }
  }

  /** `EBSDDetector(...)`: the attribute assignments followed by
      `_set_pc_convention`, whose exception aborts construction. */
  method NewDetector(shape: (int, int), pixelSize: real, binning: int, tilt: real, sampleTilt: real,
                     pcx: real, pcy: real, pcz: real, convention: Option<string>)
    returns (r: Result<EBSDDetector>)
    ensures var c := ConventionToBruker(convention, shape.1 as real * pixelSize,
                                        shape.0 as real * pixelSize, pixelSize, PC(pcx, pcy, pcz));
            (r.Raise? <==> c.Raise?) &&
            (r.Raise? ==> r.error == c.error) &&
            (r.Ok? ==> fresh(r.value) && r.value.Pc() == c.value && r.value.shape == shape &&
                       r.value.pixelSize == pixelSize && r.value.binning == binning &&
                       r.value.tilt == tilt && r.value.sampleTilt == sampleTilt)
  {
    var d := new EBSDDetector.Raw(shape, pixelSize, binning, tilt, sampleTilt, pcx, pcy, pcz);
    assert d.Width() == shape.1 as real * pixelSize && d.Height() == shape.0 as real * pixelSize;
    assert d.Pc() == PC(pcx, pcy, pcz);
    var e := d.SetPcConvention(convention);
    if e.Raise? {
      return Raise(e.error);
    }
    r := Ok(d);
  }

  /** The detector's height over its width is its aspect ratio, and binning
      multiplies the pixel count by binning squared. */
  lemma DetectorDimensions(d: EBSDDetector)
    requires d.NCols() != 0 && d.pixelSize != 0.0
    ensures d.Width() != 0.0
    ensures d.Height() / d.Width() == d.AspectRatio().value
    ensures d.ShapeUnbinned().0 * d.ShapeUnbinned().1 == d.Size() * d.binning * d.binning
  {
    var r, c, p := d.NRows() as real, d.NCols() as real, d.pixelSize;
    assert d.Width() != 0.0 by { ScaleCancels(c, p); }
    assert (r * p) / (c * p) == r / c by {
      assert (r * p) / (c * p) * c == r by {
        ScaleCancels(r, p);
      }
    }
    var b := d.binning;
    assert (d.shape.0 * b) * (d.shape.1 * b) == (d.shape.0 * d.shape.1) * b * b;
  }

  /** The gnomonic bounds span 1 / pcz vertically and aspect_ratio / pcz
      horizontally, with the PC itself mapped to the origin. */
  lemma GnomonicSpan(d: EBSDDetector)
    requires d.GnomonicDefined()
    ensures d.YMax().value - d.YMin().value == 1.0 / d.pcz
    ensures d.XMax().value - d.XMin().value == d.AspectRatio().value / d.pcz
  {
    var a, x, y, z := d.AspectRatio().value, d.pcx, d.pcy, d.pcz;
    assert y / z + (1.0 - y) / z == 1.0 / z;
    assert a * (1.0 - x) / z + a * (x / z) == a / z by {
      assert a * (1.0 - x) / z == a * ((1.0 - x) / z);
      assert a * ((1.0 - x) / z) + a * (x / z) == a * ((1.0 - x) / z + x / z);
      assert (1.0 - x) / z + x / z == 1.0 / z;
    }
  }
}
