# kikuchipy core in Dafny

This project models the bookkeeping core of kikuchipy, a Python library for
electron backscatter diffraction (EBSD) patterns, and proves properties of
that model. Each Python file of the core becomes one Dafny module:

- `Common` (common.dfy): Python exceptions as an `Exception` datatype inside
  a `Result`, `Option` for `None`. It also holds Python's `//`, `int()` and
  `ceil` on the values the core passes them.
- `DtypeRange` (dtype_range.dfy): the numpy data types, their intensity
  ranges (the `dtype_range` table) and their item sizes.
- `DocConf` (conf.dfy): `linkcode_resolve` of the documentation build.
- `EbsdDetector` (ebsd_detector.dfy): the `EBSDDetector` class with its
  projection-centre (PC) conventions Bruker, EDAX TSL, Oxford and EMsoft.
- `Pattern` (pattern.dfy): intensity rescaling, dynamic-background set-up,
  the FFT plan and the FFT frequency-vector grid.
- `Experimental` (experimental.dfy): the chunk loops that rescale, correct
  and normalise every pattern of a chunk, the frequency vectors of the
  image-quality map, and the normalised cross-correlation coefficient.
- `EbsdMasterPattern` (ebsd_master_pattern.dfy): the chunking and hemisphere
  and energy selection of `get_patterns`, the Lambert interpolation
  parameters, the chunk-count heuristic and `set_phase_parameters`.
- `SimulationGenerator` (simulation_generator.dfy): the
  `EBSDSimulationGenerator` class with its rotation and PC alignment, and
  the band selection of the geometrical simulation.
- `EbsdSignal` (ebsd_signal.dfy): the `EBSD` signal class. This covers the
  metadata it writes, dead-pixel detection and correction, the
  background-removal plan, the save file name and `LazyEBSD.compute`.
- `DictionaryIndexing` (dictionary_indexing.dfy): `StaticDictionaryIndexing`,
  which builds one crystal map per dictionary from the best matches.

Objects whose attributes the source updates in place are classes:
`EBSDDetector`, `EBSDSimulationGenerator`, `EBSD`, `StaticDictionaryIndexing`,
and the atom-coordinate table that `set_phase_parameters` converts. Their
methods state the whole new state. Pure computations are functions.
Lemmas relate the functions to each other:

- the PC conversions round-trip;
- a file name keeps its root when only its extension changes;
- the frequency grid matches the tabulated grids of the library's tests;
- the correlation of a pattern with itself is 1.

Loops that walk a chunk of patterns are methods with invariants. Each is
proved equal to a function over the whole chunk.

Code that this model cannot see enters as parameters. This covers the
pattern matcher, the crystal-map merger, the orientation similarity map,
the Gaussian blur, the normaliser, the single-pattern dead-pixel finder and
the reciprocal-lattice generator. The answer typed at the `input()` prompt
and the random pattern coordinates are parameters too. All arithmetic is
over mathematical reals and integers.

`_rescale_pattern` in the experimental module calls `pattern.clip` and
discards its result, so it does not clip. The model keeps that behaviour,
and `Experimental.RescalePatternDoesNotClip` shows how it differs from
`rescale_intensity`, which does clip. `_get_spatial_arrays` builds its `y`
coordinates with `np.tile`, as written.

## Model

| member | source | states |
|---|---|---|
| Common.FloorDiv | kikuchipy/indexing/_static_dictionary_indexing.py:116 | Python's `//`: the quotient rounded towards minus infinity, for either sign of the divisor |
| Common.Trunc | kikuchipy/_signals/electron_backscatter_diffraction.py:207 | Python's `int()` on a float: rounds towards zero, so the result lies within one of the input on the side of zero |
| Common.Ceil | kikuchipy/signals/ebsd_master_pattern.py:676 | `np.ceil`: the least integer not below the input |
| DtypeRange.DefaultOutRange | kikuchipy/util/pattern.py:81-88 | the default output range is `(0, max of the dtype)` with max >= 1; a dtype missing from the table (complex) raises KeyError, and only such a dtype does |
| DtypeRange.ItemSize | kikuchipy/signals/ebsd_master_pattern.py:674 | a numpy item size is 1, 2, 4, 8 or 16 bytes |
| DocConf.ReplaceDotsAt | doc/conf.py:101 | `replace(".", "/")` keeps the length and changes exactly the dots, each into a slash |
| DocConf.ReplaceDotsRemovesDots | doc/conf.py:101 | no dot is left after the replacement |
| DocConf.LinkcodeResolve | doc/conf.py:96-102 | a domain other than "py" gives None; a missing "module" key raises KeyError; a URL is returned exactly for a "py" domain with a truthy module, and it is the repository prefix, the module path with dots as slashes, then ".py" |
| EbsdDetector.TslBrukerInvolution | kikuchipy/detectors/ebsd_detector.py:217-223 | TSL-to-Bruker and Bruker-to-TSL are the same map, and it is its own inverse |
| EbsdDetector.EmsoftBrukerRoundTrip | kikuchipy/detectors/ebsd_detector.py:189-201 | for a detector of non-zero size, Bruker-to-EMsoft and EMsoft-to-Bruker are inverse to each other in both orders |
| EbsdDetector.EmsoftTslRoundTrip | kikuchipy/detectors/ebsd_detector.py:203-215 | TSL-to-EMsoft and EMsoft-to-TSL are inverse to each other in both orders |
| EbsdDetector.Bruker2Emsoft | kikuchipy/detectors/ebsd_detector.py:189-194 | EMsoft measures pcx and pcy from the detector centre: a PC at the centre of a detector of non-zero size becomes the origin |
| EbsdDetector.Emsoft2Bruker | kikuchipy/detectors/ebsd_detector.py:196-201 | on a detector of non-zero size, undone by the Bruker to EMsoft conversion |
| EbsdDetector.Tsl2Emsoft | kikuchipy/detectors/ebsd_detector.py:203-208 | a TSL PC at the centre of a detector of non-zero size becomes EMsoft's origin |
| EbsdDetector.Emsoft2Tsl | kikuchipy/detectors/ebsd_detector.py:210-215 | on a detector of non-zero size, undone by the TSL to EMsoft conversion |
| EbsdDetector.Tsl2Bruker | kikuchipy/detectors/ebsd_detector.py:217-219 | undone by the Bruker to TSL conversion |
| EbsdDetector.Bruker2Tsl | kikuchipy/detectors/ebsd_detector.py:221-223 | pcy is mirrored about the middle of the detector; pcx and pcz are kept |
| EbsdDetector.Oxford2Emsoft | kikuchipy/detectors/ebsd_detector.py:225-230 | an Oxford PC converts to EMsoft as its pcy-mirrored image does from TSL |
| EbsdDetector.ConventionToBruker | kikuchipy/detectors/ebsd_detector.py:171-187 | raises exactly for an unknown name (ValueError) or an EMsoft or Oxford PC on a detector of zero size (ZeroDivisionError); None and "bruker" keep the PC, and the TSL and EMsoft results convert back to the given PC |
| EbsdDetector.OxfordToBruker | kikuchipy/detectors/ebsd_detector.py:196-201 | an Oxford PC passed through EMsoft to Bruker keeps x, flips y to 1 - y and scales z by ncols / nrows |
| EbsdDetector.Lower | kikuchipy/detectors/ebsd_detector.py:175 | `str.lower` on ASCII keeps the length and lower-cases each character on its own |
| EbsdDetector.ConventionCases | kikuchipy/detectors/ebsd_detector.py:171-176 | None and "bruker" leave the PC unchanged; "tsl" in any case flips y |
| EbsdDetector.ConventionRejects | kikuchipy/detectors/ebsd_detector.py:173-187 | "Bruker" (capitalised, compared before lowering) and unknown names raise ValueError |
| EbsdDetector.ConventionValueErrorIff | kikuchipy/detectors/ebsd_detector.py:171-187 | a convention raises ValueError exactly when it is not "bruker" and its lower case is none of "tsl", "oxford", "emsoft" |
| EbsdDetector.ConventionOxford | kikuchipy/detectors/ebsd_detector.py:177-179 | the Oxford convention yields PC (x, 1 - y, z * ncols / nrows) in Bruker's convention |
| EbsdDetector.EBSDDetector.Raw | kikuchipy/detectors/ebsd_detector.py:71-78 | the constructor stores shape, pixel size, binning, tilts and PC as given |
| EbsdDetector.EBSDDetector.SetPc | kikuchipy/detectors/ebsd_detector.py:121-124 | the `pc` setter accepts exactly three values and stores them; any other length raises ValueError and changes nothing |
| EbsdDetector.EBSDDetector.SetPcConvention | kikuchipy/detectors/ebsd_detector.py:171-187 | the stored PC becomes the Bruker form of the old PC under the convention; an unknown convention raises ValueError with the PC unchanged, and a zero width, height or pixel size raises ZeroDivisionError, after the Oxford branch has already stored the EMsoft PC; geometry is untouched |
| EbsdDetector.EBSDDetector.AspectRatio | kikuchipy/detectors/ebsd_detector.py:105-108 | ZeroDivisionError exactly for a detector without columns; otherwise the ratio times the column count is the row count |
| EbsdDetector.EBSDDetector.XMin | kikuchipy/detectors/ebsd_detector.py:126-129 | ZeroDivisionError without columns or with pcz zero; otherwise xmin * pcz == -aspect_ratio * pcx |
| EbsdDetector.EBSDDetector.XMax | kikuchipy/detectors/ebsd_detector.py:131-134 | ZeroDivisionError without columns or with pcz zero; otherwise xmax * pcz == aspect_ratio * (1 - pcx) |
| EbsdDetector.EBSDDetector.YMin | kikuchipy/detectors/ebsd_detector.py:141-144 | ZeroDivisionError exactly when pcz is zero; otherwise ymin * pcz == -(1 - pcy) |
| EbsdDetector.EBSDDetector.YMax | kikuchipy/detectors/ebsd_detector.py:146-149 | ZeroDivisionError exactly when pcz is zero; otherwise ymax * pcz == pcy |
| EbsdDetector.EBSDDetector.ToEmsoft | kikuchipy/detectors/ebsd_detector.py:232-234 | on a detector of non-zero size, the EMsoft PC converts back to the stored one |
| EbsdDetector.EBSDDetector.ToTsl | kikuchipy/detectors/ebsd_detector.py:240-242 | the TSL PC converts back to the stored one |
| EbsdDetector.EBSDDetector.ToOxford | kikuchipy/detectors/ebsd_detector.py:244-246 | converting to Oxford raises NotImplementedError |
| EbsdDetector.NewDetector | kikuchipy/detectors/ebsd_detector.py:27-79 | a new detector holds the given shape, pixel size, binning, tilt and sample tilt and the Bruker form of the given PC; a convention that raises makes construction raise the same error |
| EbsdDetector.DetectorDimensions | kikuchipy/detectors/ebsd_detector.py:81-114 | height / width equals the aspect ratio, and the unbinned shape holds size * binning² pixels |
| EbsdDetector.GnomonicSpan | kikuchipy/detectors/ebsd_detector.py:126-154 | where the bounds are defined (columns and a non-zero pcz), the gnomonic extent is 1 / pcz high and aspect ratio / pcz wide |
| Pattern.Rescale | kikuchipy/util/pattern.py:95-104 | `_rescale` maps every intensity by the same affine map and keeps the length |
| Pattern.RescaleEndpoints | kikuchipy/util/pattern.py:103-104 | the affine map sends imin to omin and imax to omax, and [imin, imax] into [omin, omax] |
| Pattern.MinOf | kikuchipy/util/pattern.py:76 | `np.min` is an element no greater than any other |
| Pattern.MaxOf | kikuchipy/util/pattern.py:76 | `np.max` is an element no smaller than any other |
| Pattern.RescaleIntensity | kikuchipy/util/pattern.py:72-92 | ValueError exactly for an empty pattern without an input range, KeyError exactly for an unknown output dtype without an output range; the result keeps the length; with an input range every value lands in the output range (clipped); without one the pattern's minimum and maximum become omin and omax |
| Pattern.RescaleIntensityBounds | kikuchipy/util/pattern.py:75-92 | clipping to the input range then rescaling lands every value in the output range; without an input range both endpoints are reached |
| Pattern.GetDynamicBackgroundSetup | kikuchipy/util/pattern.py:273-300 | ValueError exactly for a filter domain other than "frequency" or "spatial"; std defaults to width / 8; the chosen domain is the named one |
| Pattern.OperationOf | kikuchipy/util/pattern.py:190-193 | "subtract" subtracts; every other operation divides |
| Pattern.RemoveDynamicBackgroundPlan | kikuchipy/util/pattern.py:157-193 | the same domain check and error; dtype_out defaults to the input's; the operation is subtraction exactly for "subtract" |
| Pattern.DynamicBackgroundAgree | kikuchipy/util/pattern.py:157-187 | `remove_dynamic_background` and `get_dynamic_background` fail together with ValueError and otherwise set up the same filter |
| Pattern.RemoveBackground | kikuchipy/util/pattern.py:190-193 | background removal keeps the pattern's length |
| Pattern.RemoveBackgroundInverts | kikuchipy/util/pattern.py:190-193 | subtracting a background undoes adding it, and dividing by a non-zero background undoes multiplying by it |
| Pattern.Fft | kikuchipy/util/pattern.py:405-418 | a truthy apodization raises NotImplementedError, and only it; otherwise the plan records the real-FFT and shift choices |
| Pattern.FrequencyWeightBounds | kikuchipy/util/pattern.py:505-517 | every entry of the frequency grid is at least 1, and the corner entry is 1 |
| Pattern.FrequencyGrid | kikuchipy/util/pattern.py:505-517 | sy rows of sx entries, every entry at least 1 and the zero-frequency corner exactly 1 |
| Pattern.TabulatedGrids | kikuchipy/util/test/test_pattern.py:303-326 | the 3×3 and 5×4 grids equal the tabulated answers |
| Pattern.LineVector | kikuchipy/util/pattern.py:508-511 | the loop fills a fresh array of length s with the shifted line 1..s, wrapped from s // 2 |
| Pattern.FftFrequencyVectors | kikuchipy/util/pattern.py:505-517 | the row loop fills an sy×sx array with liney[i]² + linex[j]² - 1 for every cell |
| Experimental.DtypeArgMax | kikuchipy/util/experimental.py:65-67 | an unrecognised dtype argument has no maximum |
| Experimental.RescalePattern | kikuchipy/util/experimental.py:56-77 | same error cases as `rescale_intensity` (ValueError for an empty pattern, KeyError for an unknown dtype); the length is kept; with an input range a value lands in the output range exactly when it lies in the input range (nothing is clipped); without one the minimum and maximum become omin and omax |
| Experimental.RescaleValueInsideIff | kikuchipy/util/experimental.py:76-77 | for increasing ranges, an intensity is inside the input range exactly when its rescaled value is inside the output range |
| Experimental.RescalePatternAgreesWithoutInRange | kikuchipy/util/experimental.py:56-77 | without an input range, `_rescale_pattern` and `rescale_intensity` agree |
| Experimental.RescalePatternDoesNotClip | kikuchipy/util/experimental.py:58-60 | with input range (0, 1), the intensity 2 is kept by `_rescale_pattern` but clipped to 1 by `rescale_intensity` |
| Experimental.ChunkOfOutcome | kikuchipy/util/experimental.py:107-115 | a chunk succeeds with every pattern's result in order, or raises the error of the first pattern that fails |
| Experimental.ChunkOfAllOk | kikuchipy/util/experimental.py:107-115 | when every pattern succeeds, the chunk is the list of their results |
| Experimental.ChunkOfFirstFailure | kikuchipy/util/experimental.py:107-115 | the chunk raises exactly the first failing pattern's error |
| Experimental.RescalePatternChunk | kikuchipy/util/experimental.py:107-115 | the loop's outcome equals the chunk outcome of rescaling each pattern |
| Experimental.CorrectPattern | kikuchipy/util/experimental.py:154-157 | a pattern is corrected by subtracting or dividing by the background as the operation names |
| Experimental.CorrectAndRescalePattern | kikuchipy/util/experimental.py:154-160 | correction followed by `_rescale_pattern` |
| Experimental.StaticBackgroundCorrectionChunk | kikuchipy/util/experimental.py:149-162 | dtype_out defaults to the input's; the loop's outcome is the chunk outcome of correcting and rescaling each pattern against the static background |
| Experimental.CorrectStatic | kikuchipy/util/experimental.py:152-162 | the static loop itself, equal to its chunk function |
| Experimental.DynamicBackgroundCorrectionChunk | kikuchipy/util/experimental.py:192-207 | each pattern is corrected against its own blurred copy, then rescaled; the loop equals the chunk function |
| Experimental.NormalizePatternChunk | kikuchipy/util/experimental.py:333-342 | every pattern of the chunk is normalised with the given options, in order |
| Experimental.CentredLineLength | kikuchipy/util/experimental.py:294-295 | `np.arange(-s // 2, s // 2)` has exactly s entries |
| Experimental.WrappedLineSymmetric | kikuchipy/util/experimental.py:289-292 | the wrapped line has equal squares at k and s - k |
| Experimental.FrequencyLineVector | kikuchipy/util/experimental.py:288-295 | the loop builds the line of the chosen method, entry by entry |
| Experimental.FrequencyVectors | kikuchipy/util/experimental.py:286-301 | the grid is built exactly when sx == sy or sx == 0, because of numpy broadcasting; otherwise IndexError or ValueError; a built grid holds linex[i]² + liney[j]² |
| Experimental.WrappedGridProperties | kikuchipy/util/experimental.py:286-301 | the wrapped grid is zero at the origin, non-negative, and symmetric under (i, j) ↦ (s - i, s - j) |
| Experimental.Centre | kikuchipy/util/experimental.py:382-384 | subtracting the mean keeps the length |
| Experimental.Prepared | kikuchipy/util/experimental.py:382-384 | the optional zero-normalisation keeps the length |
| Experimental.NormalisedCorrelation | kikuchipy/util/experimental.py:354-388 | the coefficient's sums satisfy N² <= P·T with P, T > 0, so the coefficient lies in [-1, 1] |
| Experimental.CauchySchwarz | kikuchipy/util/experimental.py:385-387 | sum(p·t)² <= sum(p²)·sum(t²) |
| Experimental.CorrelationWithItself | kikuchipy/util/experimental.py:354-388 | a pattern correlated with itself gives coefficient 1 |
| Experimental.CorrelationSymmetric | kikuchipy/util/experimental.py:385-387 | swapping pattern and template keeps the numerator and swaps the norms |
| Experimental.CorrelationOfNonnegative | kikuchipy/util/experimental.py:370-372 | without zero-normalisation, non-negative intensities give a coefficient in [0, 1] |
| EbsdMasterPattern.MinNumberOfChunks | kikuchipy/signals/ebsd_master_pattern.py:653-677 | the least number of 100 MB chunks that holds all the bytes of the simulation |
| EbsdMasterPattern.MinNumberOfChunksPositive | kikuchipy/signals/ebsd_master_pattern.py:674-676 | a non-empty simulation needs at least one chunk |
| EbsdMasterPattern.ChunkLength | kikuchipy/signals/ebsd_master_pattern.py:345 | `ceil(n / n_chunk)` rotations per chunk: for a positive count, n_chunk chunks cover all n and one fewer length would not; a negative count gives a length of at most zero, the least c with c * n_chunk <= n |
| EbsdMasterPattern.ClosestEnergyIndex | kikuchipy/signals/ebsd_master_pattern.py:356-357 | `argmin` of the distance: the first index of an energy closest to the requested one; an empty axis raises ValueError |
| EbsdMasterPattern.SelectHemispheres | kikuchipy/signals/ebsd_master_pattern.py:353-374 | the four data layouts: 4D data takes both hemispheres at the closest energy (ValueError without an energy axis); 2D data uses one pattern for both; other data uses the slice at the closest energy for both, or `data[0]` and `data[1]` when there is no energy axis or it is empty |
| EbsdMasterPattern.EnergyIndex | kikuchipy/signals/ebsd_master_pattern.py:366-372 | a missing or empty energy axis raises ValueError; otherwise it is the closest energy |
| EbsdMasterPattern.ChunkCount | kikuchipy/signals/ebsd_master_pattern.py:341-342 | `n_chunk == -1` selects the minimum chunk count, which is zero exactly for an empty simulation; any other count is kept as given |
| EbsdMasterPattern.GetPatterns | kikuchipy/signals/ebsd_master_pattern.py:324-374 | NotImplementedError outside the Lambert projection, ValueError for more than one PC, when the effective chunk count is zero OverflowError for some rotations (the numpy quotient is infinite) and ValueError for none (it is NaN), otherwise the plan: output shape (n, rows, cols), rescaling exactly for non-float32 output, the selected hemispheres, and for a positive count chunks that cover every rotation without a superfluous one (a negative count gives a chunk length of at most zero) |
| EbsdMasterPattern.LambertAxis | kikuchipy/signals/ebsd_master_pattern.py:542-553 | the two weights sum to 1, the neighbour is the pixel itself or the next one, and a coordinate inside the pattern gives pixels inside it and a weight in [0, 1) |
| EbsdMasterPattern.LambertInterpolationParameters | kikuchipy/signals/ebsd_master_pattern.py:542-553 | the same per axis, for both axes |
| EbsdMasterPattern.BilinearWeightsSumToOne | kikuchipy/signals/ebsd_master_pattern.py:640-645 | the four bilinear weights sum to 1 |
| EbsdMasterPattern.LambertAxisAtEdge | kikuchipy/signals/ebsd_master_pattern.py:546-547 | at the last pixel, the neighbour falls back to the pixel itself |
| EbsdMasterPattern.ToArray | kikuchipy/signals/ebsd_master_pattern.py:258-260 | `np.array` turns a list into an array and leaves an array as it is |
| EbsdMasterPattern.AtomCoordinates.constructor | kikuchipy/signals/ebsd_master_pattern.py:256-257 | the table holds the given sites in their insertion order |
| EbsdMasterPattern.AtomCoordinates.ConvertCoordinates | kikuchipy/signals/ebsd_master_pattern.py:256-260 | every site's coordinates become an array when every site has them; otherwise KeyError at the first site without them, with earlier sites converted |
| EbsdMasterPattern.RemoveNone | kikuchipy/signals/ebsd_master_pattern.py:277 | the dict comprehension keeps exactly the keys whose value is not None |
| EbsdMasterPattern.RemoveNoneEntry | kikuchipy/signals/ebsd_master_pattern.py:277 | a key with a value keeps that value, and a key whose value is None is dropped |
| EbsdMasterPattern.PhaseInputs | kikuchipy/signals/ebsd_master_pattern.py:262-274 | the eleven phase parameters appear in their fixed order under their names |
| EbsdMasterPattern.PhaseInputsKeys | kikuchipy/signals/ebsd_master_pattern.py:262-277 | each named parameter is in the phase dict exactly when it is given, with its value |
| EbsdMasterPattern.SetPhaseParameters | kikuchipy/signals/ebsd_master_pattern.py:255-278 | the phase dict holds the given parameters with the converted coordinates; KeyError exactly when a site lacks coordinates, and then the sites before the first such one in iteration order are converted and the rest unchanged; the iteration order stays |
| SimulationGenerator.Reshape | kikuchipy/generators/ebsd_simulation_generator.py:115 | a reshape succeeds exactly when the sizes agree and keeps the values in order; otherwise ValueError |
| SimulationGenerator.AlignPc | kikuchipy/generators/ebsd_simulation_generator.py:268-281 | a detector with navigation shape (1,) repeats its first PC over the rotations' shape; an equal shape keeps the PCs; any other shape raises ValueError |
| SimulationGenerator.AlignPcKeepsOnePerPosition | kikuchipy/generators/ebsd_simulation_generator.py:274-281 | after alignment there is one PC per navigation position |
| SimulationGenerator.AlignPcIdempotent | kikuchipy/generators/ebsd_simulation_generator.py:268-281 | aligning an aligned detector again changes nothing |
| SimulationGenerator.GeneratorDetector.constructor | kikuchipy/generators/ebsd_simulation_generator.py:79 | the generator's detector copy holds the navigation shape and PCs given |
| SimulationGenerator.EBSDSimulationGenerator.Init | kikuchipy/generators/ebsd_simulation_generator.py:79-81 | the generator stores detector, phase and rotations |
| SimulationGenerator.EBSDSimulationGenerator.NavigationDimension | kikuchipy/generators/ebsd_simulation_generator.py:117-120 | a valid generator has at most two navigation dimensions |
| SimulationGenerator.EBSDSimulationGenerator.AlignPcWithRotationsShape | kikuchipy/generators/ebsd_simulation_generator.py:268-281 | the detector's shape and PCs become the aligned ones, or stay as they were on error |
| SimulationGenerator.EBSDSimulationGenerator.SetRotations | kikuchipy/generators/ebsd_simulation_generator.py:88-96 | more than two dimensions raise ValueError and change nothing; otherwise the rotations are stored and the PCs aligned to them |
| SimulationGenerator.EBSDSimulationGenerator.SetNavigationShape | kikuchipy/generators/ebsd_simulation_generator.py:105-115 | at most two dimensions of the same size: the rotations are reshaped and the detector follows; otherwise ValueError; the detector's PCs are never touched |
| SimulationGenerator.EBSDSimulationGenerator.GetItem | kikuchipy/generators/ebsd_simulation_generator.py:131-137 | a slice of the first navigation axis gives a new generator with the same rows of rotations and PCs and the same phase |
| SimulationGenerator.NewGenerator | kikuchipy/generators/ebsd_simulation_generator.py:37-96 | construction succeeds exactly when the rotations have at most two dimensions and the PCs can be aligned to them |
| SimulationGenerator.RlpPhaseIsCompatible | kikuchipy/generators/ebsd_simulation_generator.py:254-266 | compatible exactly when the lattice parameters agree within 1e-4 and the point groups are equal; differing lattices raise ValueError |
| SimulationGenerator.RlpPhaseCompatibleWithItself | kikuchipy/generators/ebsd_simulation_generator.py:254-266 | a phase is compatible with itself |
| SimulationGenerator.GeometricalReflectors | kikuchipy/generators/ebsd_simulation_generator.py:177-188 | given reflectors, or without them the ones generated when the phase has a point group and a lattice (else ValueError), come back exactly when they are compatible with the phase, and otherwise the compatibility check's own error is raised |
| SimulationGenerator.GeometricalReflectorsOwnPhase | kikuchipy/generators/ebsd_simulation_generator.py:177-188 | reflectors of the generator's own phase are accepted unchanged |
| SimulationGenerator.VisibleBands | kikuchipy/generators/ebsd_simulation_generator.py:209-217 | the kept bands are, in increasing order, exactly those in the upper hemisphere in some pattern |
| SimulationGenerator.AnyPositive | kikuchipy/generators/ebsd_simulation_generator.py:213 | a band is in some pattern exactly when one of its z coordinates is positive |
| SimulationGenerator.InPattern | kikuchipy/generators/ebsd_simulation_generator.py:218 | the pattern-by-band table marks exactly the positive z coordinates |
| SimulationGenerator.KeptBandsAppear | kikuchipy/generators/ebsd_simulation_generator.py:213-218 | every kept band is marked in at least one pattern |
| EbsdSignal.SetItemsOthers | kikuchipy/_signals/electron_backscatter_diffraction.py:74-91 | keys that are not written keep their entry or absence |
| EbsdSignal.SetItemsWritten | kikuchipy/_signals/electron_backscatter_diffraction.py:74-91 | a given value is stored under its key |
| EbsdSignal.SetItemsNone | kikuchipy/_signals/electron_backscatter_diffraction.py:74-91 | a None parameter leaves its key as it was |
| EbsdSignal.SetItemsAllNone | kikuchipy/_signals/electron_backscatter_diffraction.py:74-91 | with every parameter None, the metadata is unchanged |
| EbsdSignal.SetItemsOne | kikuchipy/_signals/electron_backscatter_diffraction.py:74-91 | with one parameter given, exactly that key is set |
| EbsdSignal.SetItemsTwo | kikuchipy/_signals/electron_backscatter_diffraction.py:74-91 | with two parameters given, exactly those keys are set |
| EbsdSignal.ApplyEntries | kikuchipy/_signals/electron_backscatter_diffraction.py:74-91 | the sequence of `set_item` calls yields the specified tree |
| EbsdSignal.OriginalKeysDistinct | kikuchipy/_signals/electron_backscatter_diffraction.py:71-91 | the eight original-metadata keys are distinct |
| EbsdSignal.ExperimentalParametersWritten | kikuchipy/_signals/electron_backscatter_diffraction.py:69-91 | the accelerating voltage goes to the metadata, the other parameters to the original metadata; None leaves a key alone and no other key changes |
| EbsdSignal.LastIndexOf | kikuchipy/_signals/electron_backscatter_diffraction.py:651 | the last position of a character, or -1 |
| EbsdSignal.Splitext | kikuchipy/_signals/electron_backscatter_diffraction.py:651 | `os.path.splitext`: root + ext is the path, and the extension is empty or a dot followed by neither dot nor slash |
| EbsdSignal.SplitextRoundTrip | kikuchipy/_signals/electron_backscatter_diffraction.py:650-652 | splitting root + "." + ext gives back root and "." + ext |
| EbsdSignal.Join | kikuchipy/_signals/electron_backscatter_diffraction.py:640-642 | `os.path.join`: an absolute second part replaces the first; otherwise the parts are joined with at most one slash |
| EbsdSignal.SaveFilename | kikuchipy/_signals/electron_backscatter_diffraction.py:637-652 | the file name given, or folder/filename from tmp_parameters, or the original file name; ValueError when there is none, AttributeError when tmp_parameters has no extension to fall back on; a given extension replaces the name's own, and the tmp_parameters name always takes an extension, the given one or, when none or an empty one is given, the tmp_parameters extension |
| EbsdSignal.SaveFilenameSwapsExtension | kikuchipy/_signals/electron_backscatter_diffraction.py:650-652 | saving root.old with extension new writes root.new |
| EbsdSignal.Insert | kikuchipy/_signals/electron_backscatter_diffraction.py:437-438 | inserting into a sorted pixel list keeps it sorted, without duplicates, and adds the pixel |
| EbsdSignal.Unique | kikuchipy/_signals/electron_backscatter_diffraction.py:437-438 | `np.unique` along axis 0: sorted, duplicate-free, same pixels |
| EbsdSignal.KeepFrequent | kikuchipy/_signals/electron_backscatter_diffraction.py:441-443 | keeps exactly the pixels counted more often than the limit |
| EbsdSignal.Deadpixels | kikuchipy/_signals/electron_backscatter_diffraction.py:437-443 | the dead pixels are, sorted and unique, exactly the candidates found more often than the limit |
| EbsdSignal.DeadpixelsAntitone | kikuchipy/_signals/electron_backscatter_diffraction.py:441-443 | a higher threshold never keeps more pixels |
| EbsdSignal.DeadpixelsKeepsUnanimous | kikuchipy/_signals/electron_backscatter_diffraction.py:441-443 | a pixel found in every checked pattern is kept for any threshold fraction below 1 |
| EbsdSignal.CollectCandidates | kikuchipy/_signals/electron_backscatter_diffraction.py:425-434 | the loop appends every pattern's dead-pixel candidates in order |
| EbsdSignal.DefaultSigma | kikuchipy/_signals/electron_backscatter_diffraction.py:206-207 | the default sigma is width // 30 |
| EbsdSignal.RemoveBackgroundPlan | kikuchipy/_signals/electron_backscatter_diffraction.py:157-207 | ValueError when neither correction is asked for; AttributeError for a static correction without a background or an original file path; the background defaults to the acquisition pattern in that path, sigma to width // 30, and lazy signals set ragged to False |
| EbsdSignal.RemoveBackgroundWithMasksSigma | kikuchipy/_signals/electron_backscatter_diffraction.py:214-218 | lazy signals raise TypeError; otherwise sigma defaults to width // 30 for a dynamic correction |
| EbsdSignal.EBSD.constructor | kikuchipy/_signals/electron_backscatter_diffraction.py:31-36 | a new signal records `deadpixels_corrected = False` in its original metadata |
| EbsdSignal.EBSD.Copy | kikuchipy/_signals/electron_backscatter_diffraction.py:498-500 | the signal returned by `map` holds the metadata trees, tmp_parameters, laziness, signal class and open-file state as given |
| EbsdSignal.EBSD.SetExperimentalParameters | kikuchipy/_signals/electron_backscatter_diffraction.py:38-91 | both metadata trees become their `set_item` results; nothing else changes |
| EbsdSignal.EBSD.StoreDeadpixels | kikuchipy/_signals/electron_backscatter_diffraction.py:448 | the dead pixels are recorded in the original metadata; metadata, tmp_parameters, laziness, signal class and open-file state are unchanged |
| EbsdSignal.EBSD.FindDeadpixels | kikuchipy/_signals/electron_backscatter_diffraction.py:412-450 | IndexError with no coordinates; otherwise the returned and recorded pixels are the candidates found more than int(threshold * pattern_number) times; the rest of the signal's state, signal class and open-file state included, is unchanged |
| EbsdSignal.EBSD.RemoveDeadpixels | kikuchipy/_signals/electron_backscatter_diffraction.py:479-502 | uses the given or the recorded dead pixels; in place it marks this signal corrected with the dead value; otherwise it returns a new, marked signal with this one's metadata, tmp_parameters, laziness, signal class and open-file state, and leaves this one alone; neither changes class or open-file state |
| EbsdSignal.EBSD.SaveName | kikuchipy/_signals/electron_backscatter_diffraction.py:637-652 | the save file name from this signal's parameters and metadata; an explicit file name never fails |
| EbsdSignal.EBSD.Compute | kikuchipy/_signals/electron_backscatter_diffraction.py:674-685 | a lazy signal becomes a non-lazy EBSD; the file stays open unless asked to close |
| DictionaryIndexing.Arange | kikuchipy/indexing/_static_dictionary_indexing.py:199 | `np.arange`: entry i is start + i·step; a zero step raises ZeroDivisionError |
| DictionaryIndexing.ArangeWithinBounds | kikuchipy/indexing/_static_dictionary_indexing.py:199 | with a positive step all entries lie in [start, stop), and the next one would not |
| DictionaryIndexing.ArangeIncludesEnd | kikuchipy/indexing/_static_dictionary_indexing.py:197-199 | `arange(x0, x1 + dx, dx)` runs from x0 to x1 when x1 is a whole number of steps from x0 |
| DictionaryIndexing.Tile | kikuchipy/indexing/_static_dictionary_indexing.py:203-204 | `np.tile` repeats the sequence reps times |
| DictionaryIndexing.TileEntries | kikuchipy/indexing/_static_dictionary_indexing.py:203-204 | entry i of a tile is entry i mod n of the sequence |
| DictionaryIndexing.GetSpatialArrays | kikuchipy/indexing/_static_dictionary_indexing.py:190-205 | no axes give (); one axis gives the line arange(x0, x1 + dx, dx), with ValueError for an extent of other than two values, IndexError without a step size and ZeroDivisionError for a zero step; two or more axes give ValueError unless the extent holds four values and the step sizes two, ZeroDivisionError for a zero step, and otherwise the grid whose x is arange(x0, x1 + dx, dx) tiled shape[1] times and whose y is arange(y0, y1 + dy, dy) tiled shape[0] times |
| DictionaryIndexing.LineCoordinates | kikuchipy/indexing/_static_dictionary_indexing.py:196-199 | on one axis whose end is k positive steps past its start, the line holds the k + 1 values from start to end |
| DictionaryIndexing.GridCoordinates | kikuchipy/indexing/_static_dictionary_indexing.py:200-205 | the 2D x and y coordinates are the axis lines tiled by the other axis' size |
| DictionaryIndexing.NavigationShape | kikuchipy/indexing/_static_dictionary_indexing.py:131 | one size per navigation axis |
| DictionaryIndexing.NavigationExtent | kikuchipy/indexing/_static_dictionary_indexing.py:132 | two bounds per navigation axis |
| DictionaryIndexing.StepSizes | kikuchipy/indexing/_static_dictionary_indexing.py:133 | one scale per navigation axis |
| DictionaryIndexing.Wrapped | kikuchipy/indexing/_static_dictionary_indexing.py:51-53 | a single dictionary is wrapped in a list; a list is kept |
| DictionaryIndexing.MaxNavigationSize | kikuchipy/indexing/_static_dictionary_indexing.py:112-114 | the largest navigation size among the dictionaries |
| DictionaryIndexing.ClampKeepN | kikuchipy/indexing/_static_dictionary_indexing.py:147 | keep_n is lowered to the smallest dictionary size when needed, and is one of the candidates |
| DictionaryIndexing.Take | kikuchipy/indexing/_static_dictionary_indexing.py:162 | fancy indexing: IndexError exactly for an out-of-range index; otherwise entry (p, j) is the dictionary orientation at index p, j, a negative index counting from the end |
| DictionaryIndexing.Maps | kikuchipy/indexing/_static_dictionary_indexing.py:151-170 | building the maps only fails with IndexError |
| DictionaryIndexing.MapsOnePerDictionary | kikuchipy/indexing/_static_dictionary_indexing.py:151-170 | the loop succeeds exactly when every dictionary's map does, giving those maps in dictionary order |
| DictionaryIndexing.MapsPrefixFailure | kikuchipy/indexing/_static_dictionary_indexing.py:151-170 | the first failing dictionary decides the error |
| DictionaryIndexing.WithOsm | kikuchipy/indexing/_static_dictionary_indexing.py:179-182 | adding similarity maps keeps one map per map |
| DictionaryIndexing.ResolveMetric | kikuchipy/indexing/_static_dictionary_indexing.py:127 | a registered metric name is replaced by its registered metric; any other metric is used as it is |
| DictionaryIndexing.Finish | kikuchipy/indexing/_static_dictionary_indexing.py:172-182 | one map per matched dictionary, plus the merged map exactly when it is asked for and there is more than one dictionary; without similarity maps the matched maps are unchanged |
| DictionaryIndexing.Index | kikuchipy/indexing/_static_dictionary_indexing.py:110-187 | no dictionaries raise ValueError; a result holds one map per dictionary plus the merged map when asked for with more than one dictionary |
| DictionaryIndexing.Prepare | kikuchipy/indexing/_static_dictionary_indexing.py:112-147 | the set-up resolves the metric through the registry and clamps keep_n |
| DictionaryIndexing.IndexDeclines | kikuchipy/indexing/_static_dictionary_indexing.py:112-123 | indexing returns None exactly when the work per slice exceeds 13500 and the answer is not "y" |
| DictionaryIndexing.IndexErrors | kikuchipy/indexing/_static_dictionary_indexing.py:112-123 | no dictionaries raise ValueError (`max` of an empty list), n_slices = 0 raises ZeroDivisionError, and nothing else but IndexError can be raised |
| DictionaryIndexing.FinishMaps | kikuchipy/indexing/_static_dictionary_indexing.py:174-182 | the merged map is appended exactly when asked for with several dictionaries, and every map gets its similarity map exactly when asked for |
| DictionaryIndexing.IndexMaps | kikuchipy/indexing/_static_dictionary_indexing.py:151-187 | one map per dictionary, plus the merged one when asked for; each holds the matcher's indices and scores, the dictionary's phases and the matched orientations; a single map is returned unwrapped |
| DictionaryIndexing.IndexUnfolds | kikuchipy/indexing/_static_dictionary_indexing.py:151-187 | a result is the set-up, then the loop, then merging and similarity maps |
| DictionaryIndexing.IndexSimilarityMaps | kikuchipy/indexing/_static_dictionary_indexing.py:179-182 | each dictionary map carries its similarity map with n_best = keep_n exactly when asked for |
| DictionaryIndexing.IndexMergedMap | kikuchipy/indexing/_static_dictionary_indexing.py:174-182 | the last map is the merge of the dictionary maps under the resolved metric |
| DictionaryIndexing.StaticDictionaryIndexing.constructor | kikuchipy/indexing/_static_dictionary_indexing.py:51-53 | the indexer stores the wrapped dictionaries |
| DictionaryIndexing.StaticDictionaryIndexing.Call | kikuchipy/indexing/_static_dictionary_indexing.py:112-187 | `__call__` computes exactly the indexing result above |
| DictionaryIndexing.BuildMaps | kikuchipy/indexing/_static_dictionary_indexing.py:151-170 | the loop over dictionaries computes the maps above |
| DictionaryIndexing.AddSimilarityMaps | kikuchipy/indexing/_static_dictionary_indexing.py:179-182 | the loop over maps adds each similarity map |

## Left out

- Numerical kernels: FFT filtering, Gaussian filters and normalisation by
  mean and standard deviation. They enter as functions (`Blur`,
  `Normalizer`), and `fft` is modelled only as its plan.
- Lambert projection, `_get_direction_cosines` and `_get_patterns_chunk`:
  the model covers the interpolation parameters and weights, not the
  projection or the blending of master-pattern intensities.
- `pc_emsoft` is called by `get_patterns` but is not defined on the
  detector. The number of PCs is a parameter of `GetPatterns`.
- Dictionary indexing does not model the pattern matcher, the crystal-map
  merger or the orientation similarity map; they are fields of `Engine`.
  Metric objects are opaque values. `CrystalMap` keeps only the fields the
  indexer sets.
- The answer typed at `input()` and the random pattern coordinates of
  `find_deadpixels` are parameters.
- Data-type casts (`astype`, float32 in the correlation, integer
  wrap-around in the output dtype) are not modelled; all intensities are
  reals.
- NaN and infinity: a constant pattern in rescaling and a zero norm in the
  correlation are excluded by `requires` (`NonDegenerate`,
  `CorrelationDefined`, non-zero backgrounds).
- Experimental.NormalisedCorrelation: gives the coefficient's three sums
  and proves the bounds on them, without the final square root and
  division.
- EbsdDetector.Lower: lower-cases ASCII letters only.
- EbsdDetector.EBSDDetector: holds one scalar PC; arrays of PCs are not
  modelled.
- DictionaryIndexing.Arange: uses exact reals, so `np.arange`'s
  floating-point length rounding is absent. A zero step raises
  ZeroDivisionError where numpy gives an error or an empty array.
- Output ranges given as a dtype rather than a tuple are not modelled.
- SimulationGenerator.EBSDSimulationGenerator.GetItem: slices along the
  first navigation axis only. A generator with no navigation axes is
  modelled as raising IndexError; the source first slices the PC array,
  whose trailing axis of three components survives such a key, and what
  indexing the rotations then raises is orix code outside this model.
- SimulationGenerator.Reshape: does not accept the `-1` wildcard.
- The EBSDDetector class shown has no `navigation_shape`, `deepcopy` or
  `r_max`, yet the simulation generator uses them. SimulationGenerator.GeneratorDetector
  is therefore an assumed interface, like `pc_emsoft`; its
  `navigation_shape` setter is taken to keep the PCs as they are.
- `_update_phase_info` and hyperspy's `get_item`, `map`, `io.save` and
  `imread` are not part of this model. The signal data they touch is not
  modelled either.
- `remove_background`: the `relative` scaling branch and the background's
  own dead-pixel correction are not modelled.
- `remove_background_static_interactive`, plotting, `get_virtual_image`,
  `get_radon_transform`, `__repr__`, `get_image_quality`, `ifft`,
  `fft_spectrum` and adaptive histogram equalisation are outside this
  model.
- EbsdMasterPattern.ToArray: converts lists only.
- Lazy and dask machinery is modelled only as the `lazy` flag and the
  `ragged` keyword.
- EbsdMasterPattern.GetPatterns: a negative `n_chunk` other than -1 gives
  a chunk length of at most zero; what dask then does with such chunks is
  not modelled.
