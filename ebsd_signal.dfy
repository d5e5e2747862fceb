/** The `EBSD` signal's own bookkeeping: which metadata entries
    `set_experimental_parameters` writes, the dead-pixel vote of
    `find_deadpixels`, the flags `remove_deadpixels` sets, the argument
    checks of the background corrections, the file name `save` resolves,
    and what `LazyEBSD.compute` switches. */
module EbsdSignal {
  import opened Common

  // ---------------------------------------------------------------------
  // Metadata trees
  // ---------------------------------------------------------------------

  /** A detector pixel (row, column). */
  type Pixel = (int, int)

  /** A leaf of a metadata tree. */
  datatype MetaValue = Number(x: real) | Flag(b: bool) | Text(s: string) | Pixels(ps: seq<Pixel>) | Count(n: int)

  /** A metadata tree, flattened to its dotted item paths. */
  type Tree = map<string, MetaValue>

  const SemNode: string := "Acquisition_instrument.SEM."
  const EbsdNode: string := SemNode + "Detector.EBSD."

  /** `set_item` for every entry that is not None, in order. */
  function SetItems(tree: Tree, entries: seq<(string, Option<MetaValue>)>): Tree
  {
    if entries == [] then tree
    else
      var before := SetItems(tree, entries[..|entries| - 1]);
      var last := entries[|entries| - 1];
      if last.1.Some? then before[last.0 := last.1.value] else before
  }

  /** An item no entry names is left as it was. */
  lemma {:induction false} SetItemsOthers(tree: Tree, entries: seq<(string, Option<MetaValue>)>, key: string)
    requires forall i :: 0 <= i < |entries| ==> entries[i].0 != key
    ensures key in SetItems(tree, entries) <==> key in tree
    ensures key in tree ==> SetItems(tree, entries)[key] == tree[key]
  {
    if entries != [] {
      SetItemsOthers(tree, entries[..|entries| - 1], key);
    }
  }

  /** An entry that is not None is written, unless a later entry names
      the same item. */
  lemma {:induction false} SetItemsWritten(tree: Tree, entries: seq<(string, Option<MetaValue>)>, i: nat)
    requires i < |entries| && entries[i].1.Some?
    requires forall j :: i < j < |entries| ==> entries[j].0 != entries[i].0
    ensures entries[i].0 in SetItems(tree, entries)
    ensures SetItems(tree, entries)[entries[i].0] == entries[i].1.value
  {
    if i < |entries| - 1 {
      SetItemsWritten(tree, entries[..|entries| - 1], i);
    }
  }

  /** A None entry whose item no other entry names leaves that item as it was. */
  lemma {:induction false} SetItemsNone(tree: Tree, entries: seq<(string, Option<MetaValue>)>, i: nat)
    requires i < |entries| && entries[i].1.None?
    requires forall j :: 0 <= j < |entries| && j != i ==> entries[j].0 != entries[i].0
    ensures entries[i].0 in SetItems(tree, entries) <==> entries[i].0 in tree
    ensures entries[i].0 in tree ==> SetItems(tree, entries)[entries[i].0] == tree[entries[i].0]
  {
    var prefix := entries[..|entries| - 1];
    if i < |entries| - 1 {
      SetItemsNone(tree, prefix, i);
    } else {
      SetItemsOthers(tree, prefix, entries[i].0);
    }
  }

  /** Entries that are all None change nothing. */
  lemma {:induction false} SetItemsAllNone(tree: Tree, entries: seq<(string, Option<MetaValue>)>)
    requires forall j :: 0 <= j < |entries| ==> entries[j].1.None?
    ensures SetItems(tree, entries) == tree
  {
    if entries != [] {
      SetItemsAllNone(tree, entries[..|entries| - 1]);
    }
  }

  /** With a single entry that is not None, exactly its item is written. */
  lemma {:induction false} SetItemsOne(tree: Tree, entries: seq<(string, Option<MetaValue>)>, i: nat)
    requires i < |entries| && entries[i].1.Some?
    requires forall j :: 0 <= j < |entries| && j != i ==> entries[j].1.None?
    ensures SetItems(tree, entries) == tree[entries[i].0 := entries[i].1.value]
  {
    var prefix := entries[..|entries| - 1];
    if i < |entries| - 1 {
      SetItemsOne(tree, prefix, i);
    } else {
      SetItemsAllNone(tree, prefix);
    }
  }

  /** With two entries that are not None, exactly their items are written,
      in order. */
  lemma {:induction false} SetItemsTwo(tree: Tree, entries: seq<(string, Option<MetaValue>)>, i: nat, j: nat)
    requires i < j < |entries| && entries[i].1.Some? && entries[j].1.Some?
    requires forall k :: 0 <= k < |entries| && k != i && k != j ==> entries[k].1.None?
    ensures SetItems(tree, entries) == tree[entries[i].0 := entries[i].1.value][entries[j].0 := entries[j].1.value]
  {
    var prefix := entries[..|entries| - 1];
    if j < |entries| - 1 {
      SetItemsTwo(tree, prefix, i, j);
    } else {
      SetItemsOne(tree, prefix, i);
    }
  }

  /** The `if ... is not None: set_item(...)` sequence, one entry after
      the other. */
  method ApplyEntries(tree: Tree, entries: seq<(string, Option<MetaValue>)>) returns (result: Tree)
    ensures result == SetItems(tree, entries)
  {
    result := tree;
    for i := 0 to |entries|
      invariant result == SetItems(tree, entries[..i])
    {
      assert entries[..i + 1][..i] == entries[..i];
      if entries[i].1.Some? {
        result := result[entries[i].0 := entries[i].1.value];
      }
    }
    assert entries[..|entries|] == entries;
  }

  function NumberOf(x: Option<real>): Option<MetaValue>
  {
    if x.Some? then Some(Number(x.value)) else None
  }

  /** The entries `set_experimental_parameters` writes to `metadata`. */
  function MetadataEntries(acceleratingVoltage: Option<real>): seq<(string, Option<MetaValue>)>
  {
    [(SemNode + "accelerating_voltage", NumberOf(acceleratingVoltage))]
  }

  /** The entries `set_experimental_parameters` writes to
      `original_metadata`, in the order of the source. */
  function OriginalEntries(condenserAperture: Option<real>, deadpixelsCorrected: Option<bool>,
                           deadpixels: Option<seq<Pixel>>, deadvalue: Option<string>, deadthreshold: Option<int>,
                           exposureTime: Option<real>, frameRate: Option<real>, workingDistance: Option<real>)
    : seq<(string, Option<MetaValue>)>
  {
    [ (SemNode + "condenser_aperture", NumberOf(condenserAperture)),
      (EbsdNode + "deadpixels_corrected", if deadpixelsCorrected.Some? then Some(Flag(deadpixelsCorrected.value)) else None),
      (EbsdNode + "deadpixels", if deadpixels.Some? then Some(Pixels(deadpixels.value)) else None),
      (EbsdNode + "deadvalue", if deadvalue.Some? then Some(Text(deadvalue.value)) else None),
      (EbsdNode + "deadthreshold", if deadthreshold.Some? then Some(Count(deadthreshold.value)) else None),
      (EbsdNode + "exposure_time", NumberOf(exposureTime)),
      (EbsdNode + "frame_rate", NumberOf(frameRate)),
      (EbsdNode + "working_distance", NumberOf(workingDistance)) ]
  }

  /** The eight items are distinct: the first is outside the EBSD node,
      and items of equal length differ right after the node's path. */
  lemma OriginalKeysDistinct(entries: seq<(string, Option<MetaValue>)>)
    requires |entries| == 8
    requires forall i :: 0 <= i < 8 ==> entries[i].0 == OriginalEntries(None, None, None, None, None, None, None, None)[i].0
    ensures forall i, j :: 0 <= i < j < |entries| ==> entries[i].0 != entries[j].0
  {
    assert |SemNode| == 27 && |EbsdNode| == 41;
    assert entries[0].0[27] == 'c';
    assert forall i :: 1 <= i < 8 ==> entries[i].0[27] == 'D';
    assert entries[2].0[41] == 'd' && entries[6].0[41] == 'f';
    assert entries[4].0[41] == 'd' && entries[5].0[41] == 'e';
  }

  /** `set_experimental_parameters` writes exactly the parameters given:
      each one that is not None is stored under its item path, and every
      other item of both trees is left as it was. */
  lemma ExperimentalParametersWritten(md: Tree, omd: Tree, acceleratingVoltage: Option<real>,
                                      condenserAperture: Option<real>, deadpixelsCorrected: Option<bool>,
                                      deadpixels: Option<seq<Pixel>>, deadvalue: Option<string>, deadthreshold: Option<int>,
                                      exposureTime: Option<real>, frameRate: Option<real>, workingDistance: Option<real>)
    ensures var entries := OriginalEntries(condenserAperture, deadpixelsCorrected, deadpixels, deadvalue, deadthreshold,
                                           exposureTime, frameRate, workingDistance);
            var omd' := SetItems(omd, entries);
            (forall i :: 0 <= i < |entries| && entries[i].1.Some? ==> entries[i].0 in omd' && omd'[entries[i].0] == entries[i].1.value) &&
            (forall i :: 0 <= i < |entries| && entries[i].1.None? ==>
               (entries[i].0 in omd' <==> entries[i].0 in omd) && (entries[i].0 in omd ==> omd'[entries[i].0] == omd[entries[i].0])) &&
            (forall k :: (forall i :: 0 <= i < |entries| ==> entries[i].0 != k) ==>
               (k in omd' <==> k in omd) && (k in omd ==> omd'[k] == omd[k]))
    ensures var md' := SetItems(md, MetadataEntries(acceleratingVoltage));
            (acceleratingVoltage.Some? ==> md' == md[SemNode + "accelerating_voltage" := Number(acceleratingVoltage.value)]) &&
            (acceleratingVoltage.None? ==> md' == md)
  {
    var entries := OriginalEntries(condenserAperture, deadpixelsCorrected, deadpixels, deadvalue, deadthreshold,
                                   exposureTime, frameRate, workingDistance);
    OriginalKeysDistinct(entries);
    forall i | 0 <= i < |entries| && entries[i].1.Some?
      ensures entries[i].0 in SetItems(omd, entries) && SetItems(omd, entries)[entries[i].0] == entries[i].1.value
    {
      SetItemsWritten(omd, entries, i);
    }
    forall i | 0 <= i < |entries| && entries[i].1.None?
      ensures entries[i].0 in SetItems(omd, entries) <==> entries[i].0 in omd
      ensures entries[i].0 in omd ==> SetItems(omd, entries)[entries[i].0] == omd[entries[i].0]
    {
      SetItemsNone(omd, entries, i);
    }
    forall k | forall i :: 0 <= i < |entries| ==> entries[i].0 != k
      ensures k in SetItems(omd, entries) <==> k in omd
      ensures k in omd ==> SetItems(omd, entries)[k] == omd[k]
    {
      SetItemsOthers(omd, entries, k);
    }
  }

  // ---------------------------------------------------------------------
  // Paths
  // ---------------------------------------------------------------------

  /** `str.rfind(c)`: the last index of c, or -1. */
  function LastIndexOf(p: string, c: char): (i: int)
    ensures -1 <= i < |p|
    ensures i >= 0 ==> p[i] == c
    ensures forall j :: i < j < |p| ==> p[j] != c
  {
    if p == [] then -1
    else if p[|p| - 1] == c then |p| - 1
    else LastIndexOf(p[..|p| - 1], c)
  }

  /** Some character of p[lo..hi] is not a dot. */
  predicate HasNonDot(p: string, lo: int, hi: int)
    requires 0 <= lo <= hi <= |p|
  {
    exists k :: lo <= k < hi && p[k] != '.'
  }

  /** `os.path.splitext` (POSIX): the extension starts at the last dot of
      the last path component, unless everything before that dot in the
      component is dots. */
  function Splitext(p: string): (parts: (string, string))
    ensures parts.0 + parts.1 == p
    ensures parts.1 == [] || (parts.1[0] == '.' && forall k :: 0 <= k < |parts.1| ==> parts.1[k] != '/')
    ensures parts.1 != [] ==> forall k :: 1 <= k < |parts.1| ==> parts.1[k] != '.'
  {
    var sep := LastIndexOf(p, '/');
    var dot := LastIndexOf(p, '.');
    if dot > sep && HasNonDot(p, sep + 1, dot) then
      assert p[..dot] + p[dot..] == p;
      (p[..dot], p[dot..])
    else (p, [])
  }

  /** Splitting `root + "." + ext` gives back root and ".ext" when ext has
      no dot or slash and root's last component is not all dots. */
  lemma SplitextRoundTrip(root: string, ext: string)
    requires forall k :: 0 <= k < |ext| ==> ext[k] != '.' && ext[k] != '/'
    requires HasNonDot(root, LastIndexOf(root, '/') + 1, |root|)
    ensures Splitext(root + "." + ext) == (root, "." + ext)
  {
    var suffix := "." + ext;
    var p := root + suffix;
    ConcatAssociates(root, ".", ext);
    ConcatSlices(root, suffix);
    SeparatorsAfterRoot(root, ext);
    RootHasNonDot(root, p);
    SplitextAtDot(p, |root|);
  }

  lemma ConcatAssociates(a: string, b: string, c: string)
    ensures a + b + c == a + (b + c)
  {
  }

  lemma ConcatSlices(a: string, b: string)
    ensures (a + b)[..|a|] == a && (a + b)[|a|..] == b
  {
  }

  /** Splitext splits at the last dot when it lies after the last slash
      and something other than a dot precedes it in the component. */
  lemma SplitextAtDot(p: string, dot: int)
    requires 0 <= dot < |p|
    requires LastIndexOf(p, '.') == dot && LastIndexOf(p, '/') < dot
    requires HasNonDot(p, LastIndexOf(p, '/') + 1, dot)
    ensures Splitext(p) == (p[..dot], p[dot..])
  {
  }

  lemma RootHasNonDot(root: string, p: string)
    requires |root| <= |p| && p[..|root|] == root
    requires HasNonDot(root, LastIndexOf(root, '/') + 1, |root|)
    ensures HasNonDot(p, LastIndexOf(root, '/') + 1, |root|)
  {
    var k :| LastIndexOf(root, '/') + 1 <= k < |root| && root[k] != '.';
    assert p[k] == root[k];
  }

  /** In `root + "." + ext`, with no dot or slash in ext, the last dot is
      the one added and the last slash is root's. */
  lemma SeparatorsAfterRoot(root: string, ext: string)
    requires forall k :: 0 <= k < |ext| ==> ext[k] != '.' && ext[k] != '/'
    ensures LastIndexOf(root + "." + ext, '.') == |root|
    ensures LastIndexOf(root + "." + ext, '/') == LastIndexOf(root, '/')
  {
    var suffix := ['.'] + ext;
    assert root + "." + ext == root + suffix;
    forall k | 0 <= k < |suffix|
      ensures suffix[k] != '/'
    {
      if k > 0 {
        assert suffix[k] == ext[k - 1];
      }
    }
    LastIndexOfPrefix(root, suffix, '/');
    assert root + "." + ext == (root + ".") + ext;
    LastIndexOfPrefix(root + ".", ext, '.');
  }

  /** The last slash of `a + b` is in a when b has none. */
  lemma {:induction false} LastIndexOfPrefix(a: string, b: string, c: char)
    requires forall k :: 0 <= k < |b| ==> b[k] != c
    ensures LastIndexOf(a + b, c) == LastIndexOf(a, c)
  {
    if b == [] {
      assert a + b == a;
    } else {
      assert (a + b)[..|a + b| - 1] == a + b[..|b| - 1];
      LastIndexOfPrefix(a, b[..|b| - 1], c);
    }
  }

  /** `os.path.join(a, b)` (POSIX). */
  function Join(a: string, b: string): (p: string)
    ensures |b| > 0 && b[0] == '/' ==> p == b
    ensures !(|b| > 0 && b[0] == '/') ==> exists s :: (s == "" || s == "/") && p == a + s + b
  {
    if |b| > 0 && b[0] == '/' then b
    else if a == [] || a[|a| - 1] == '/' then assert a + b == a + "" + b; a + b
    else a + "/" + b
  }

  /** `save`'s choice of file name: the name given; else the temporary
      folder joined with the temporary file name, taking the temporary
      extension when no (or an empty) extension is passed; else the
      original file name; else ValueError. A resulting extension replaces
      the name's own. */
  function SaveFilename(filename: Option<string>, tmpParameters: map<string, string>,
                        originalFilename: Option<string>, extension: Option<string>): (r: Result<string>)
    ensures r.Raise? <==>
              filename.None? &&
              ((("filename" in tmpParameters && "folder" in tmpParameters) &&
                (extension.None? || extension.value == "") && "extension" !in tmpParameters) ||
               (!("filename" in tmpParameters && "folder" in tmpParameters) && originalFilename.None?))
    ensures r.Raise? ==> r.error == (if filename.None? && "filename" in tmpParameters && "folder" in tmpParameters
                                     then AttributeError else ValueError)
    ensures r.Ok? && filename.Some? && extension.None? ==> r.value == filename.value
    ensures r.Ok? && filename.Some? && extension.Some? ==> r.value == Splitext(filename.value).0 + "." + extension.value
    ensures r.Ok? && filename.None? && !("filename" in tmpParameters && "folder" in tmpParameters) && extension.None? ==>
              r.value == originalFilename.value
    ensures r.Ok? && filename.None? && !("filename" in tmpParameters && "folder" in tmpParameters) && extension.Some? ==>
              r.value == Splitext(originalFilename.value).0 + "." + extension.value
    ensures r.Ok? && filename.None? && "filename" in tmpParameters && "folder" in tmpParameters ==>
              var ext := if extension.None? || extension.value == "" then tmpParameters["extension"] else extension.value;
              r.value == Splitext(Join(tmpParameters["folder"], tmpParameters["filename"])).0 + "." + ext
  {
    var (name, ext) :-
      if filename.Some? then Ok((filename.value, extension))
      else if "filename" in tmpParameters && "folder" in tmpParameters then
        var name := Join(tmpParameters["folder"], tmpParameters["filename"]);
        if extension.None? || extension.value == "" then
          if "extension" in tmpParameters then Ok((name, Some(tmpParameters["extension"])))
          else Raise(AttributeError)
        else Ok((name, extension))
      else if originalFilename.Some? then Ok((originalFilename.value, extension))
      else Raise(ValueError);
    if ext.Some? then Ok(Splitext(name).0 + "." + ext.value) else Ok(name)
  }

  /** Saving under a name with a plain extension and passing another
      extension swaps the extension. */
  lemma SaveFilenameSwapsExtension(root: string, old_: string, new_: string, tmpParameters: map<string, string>,
                                   originalFilename: Option<string>)
    requires forall k :: 0 <= k < |old_| ==> old_[k] != '.' && old_[k] != '/'
    requires HasNonDot(root, LastIndexOf(root, '/') + 1, |root|)
    ensures SaveFilename(Some(root + "." + old_), tmpParameters, originalFilename, Some(new_)) == Ok(root + "." + new_)
  {
    SplitextRoundTrip(root, old_);
  }

  // ---------------------------------------------------------------------
  // Dead pixels
  // ---------------------------------------------------------------------

  /** Lexicographic order on pixels, as `np.unique(..., axis=0)` sorts rows. */
  predicate LexLess(p: Pixel, q: Pixel)
  {
    p.0 < q.0 || (p.0 == q.0 && p.1 < q.1)
  }

  predicate StrictlySorted(s: seq<Pixel>)
  {
    forall i, j :: 0 <= i < j < |s| ==> LexLess(s[i], s[j])
  }

  /** The candidates found in the checked patterns, in order: the first
      pattern's, then each next pattern's appended. */
  function Candidates(coordinates: seq<Pixel>, singlePattern: Pixel -> seq<Pixel>): seq<Pixel>
  {
    if coordinates == [] then []
    else Candidates(coordinates[..|coordinates| - 1], singlePattern) + singlePattern(coordinates[|coordinates| - 1])
  }

  /** Adds a pixel to a strictly sorted sequence. */
  function Insert(s: seq<Pixel>, p: Pixel): (t: seq<Pixel>)
    requires StrictlySorted(s)
    ensures StrictlySorted(t)
    ensures forall q :: q in t <==> q in s || q == p
  {
    if s == [] then [p]
    else if p == s[0] then s
    else if LexLess(p, s[0]) then [p] + s
    else
      var rest := Insert(s[1..], p);
      assert forall q :: q in s[1..] ==> LexLess(s[0], q);
      [s[0]] + rest
  }

  /** The distinct pixels of s in lexicographic order (`np.unique`). */
  function Unique(s: seq<Pixel>): (u: seq<Pixel>)
    ensures StrictlySorted(u)
    ensures forall p :: p in u <==> p in s
  {
    if s == [] then []
    else
      var u := Insert(Unique(s[..|s| - 1]), s[|s| - 1]);
      assert forall p :: p in s <==> p in s[..|s| - 1] || p == s[|s| - 1] by {
        assert s == s[..|s| - 1] + [s[|s| - 1]];
      }
      u
  }

  /** The pixels of u found more than `limit` times in the candidates. */
  function KeepFrequent(u: seq<Pixel>, candidates: seq<Pixel>, limit: int): (kept: seq<Pixel>)
    requires StrictlySorted(u)
    ensures StrictlySorted(kept)
    ensures forall p :: p in kept <==> p in u && multiset(candidates)[p] > limit
  {
    if u == [] then []
    else
      var rest := KeepFrequent(u[1..], candidates, limit);
      assert forall q :: q in u[1..] ==> LexLess(u[0], q);
      if multiset(candidates)[u[0]] > limit then [u[0]] + rest else rest
  }

  /** The dead pixels `find_deadpixels` returns: the distinct candidates,
      sorted, that were found more than `limit` times. */
  function Deadpixels(candidates: seq<Pixel>, limit: int): (dead: seq<Pixel>)
    ensures StrictlySorted(dead)
    ensures forall p :: p in dead <==> p in candidates && multiset(candidates)[p] > limit
  {
    KeepFrequent(Unique(candidates), candidates, limit)
  }

  /** The least count above which a candidate is kept:
      `int(pattern_number_threshold * pattern_number)`. */
  function VoteLimit(fraction: real, n: nat): int
  {
    Trunc(fraction * n as real)
  }

  /** Raising the vote threshold never adds a dead pixel. */
  lemma DeadpixelsAntitone(candidates: seq<Pixel>, limit: int, limit': int)
    requires limit <= limit'
    ensures forall p :: p in Deadpixels(candidates, limit') ==> p in Deadpixels(candidates, limit)
  {
  }

  /** A pixel found in every one of n checked patterns (at least n times)
      is kept whenever the vote fraction is below one. */
  lemma DeadpixelsKeepsUnanimous(candidates: seq<Pixel>, p: Pixel, n: nat, fraction: real)
    requires n > 0 && 0.0 <= fraction < 1.0
    requires multiset(candidates)[p] >= n
    ensures p in Deadpixels(candidates, VoteLimit(fraction, n))
  {
    var x := fraction * n as real;
    assert 0.0 <= x < n as real by {
      FractionBelow(fraction, n as real);
    }
    assert VoteLimit(fraction, n) as real <= x;
    assert p in multiset(candidates);
  }

  lemma FractionBelow(f: real, m: real)
    requires 0.0 <= f < 1.0 && m > 0.0
    ensures 0.0 <= f * m < m
  {
  }

  /** The loop of `find_deadpixels` that checks the first pattern and
      appends the candidates of every further one. */
  method CollectCandidates(coordinates: seq<Pixel>, singlePattern: Pixel -> seq<Pixel>) returns (found: seq<Pixel>)
    requires |coordinates| > 0
    ensures found == Candidates(coordinates, singlePattern)
  {
    found := singlePattern(coordinates[0]);
    assert coordinates[..1][..0] == [];
    for i := 1 to |coordinates|
      invariant found == Candidates(coordinates[..i], singlePattern)
    {
      assert coordinates[..i + 1][..i] == coordinates[..i];
      found := found + singlePattern(coordinates[i]);
    }
    assert coordinates[..|coordinates|] == coordinates;
  }

  // ---------------------------------------------------------------------
  // Background correction arguments
  // ---------------------------------------------------------------------

  const BackgroundFilename: string := "Background acquisition pattern.bmp"

  /** The arguments `remove_background` hands to the correction. */
  datatype BackgroundPlan = BackgroundPlan(isStatic: bool, isDynamic: bool, bg: Option<string>,
                                           sigma: Option<real>, ragged: Option<bool>)

  /** The default dynamic sigma `int(width / 30)`. */
  function DefaultSigma(width: nat): (sigma: int)
    ensures sigma >= 0 && sigma * 30 <= width < (sigma + 1) * 30
  {
    Trunc(width as real / 30.0)
  }

  /** `remove_background` up to the correction: with neither correction,
      ValueError; a static correction without a background reads the
      signal directory's background image, and a signal without an
      original file path raises AttributeError (which the source's
      `except ValueError` does not catch); a dynamic correction without
      sigma uses `int(width / 30)`. The relative-intensity scaling is not
      part of this model. */
  function RemoveBackgroundPlan(isStatic: bool, isDynamic: bool, bg: Option<string>, sigma: Option<real>,
                                lazy: bool, width: nat, originalFilepath: Option<string>): (r: Result<BackgroundPlan>)
    ensures r.Raise? <==> (!isStatic && !isDynamic) || (isStatic && bg.None? && originalFilepath.None?)
    ensures r.Raise? ==> r.error == (if !isStatic && !isDynamic then ValueError else AttributeError)
    ensures r.Ok? ==> r.value.isStatic == isStatic && r.value.isDynamic == isDynamic
    ensures r.Ok? && isStatic && bg.None? ==> r.value.bg == Some(Join(originalFilepath.value, BackgroundFilename))
    ensures r.Ok? && bg.Some? ==> r.value.bg == bg
    ensures r.Ok? && isDynamic && sigma.None? ==> r.value.sigma == Some(DefaultSigma(width) as real)
    ensures r.Ok? && sigma.Some? ==> r.value.sigma == sigma
    ensures r.Ok? ==> (r.value.ragged == Some(false) <==> lazy)
  {
    if !isStatic && !isDynamic then Raise(ValueError)
    else
      var bg' :-
        if isStatic && bg.None? then
          if originalFilepath.None? then Raise(AttributeError) else Ok(Some(Join(originalFilepath.value, BackgroundFilename)))
        else Ok(bg);
      var sigma' := if isDynamic && sigma.None? then Some(DefaultSigma(width) as real) else sigma;
      Ok(BackgroundPlan(isStatic, isDynamic, bg', sigma', if lazy then Some(false) else None))
  }

  /** `remove_background_with_masks` up to the correction: a lazy signal
      raises TypeError; the sigma default is the same as above. */
  function RemoveBackgroundWithMasksSigma(lazy: bool, isDynamic: bool, sigma: Option<real>, width: nat): (r: Result<Option<real>>)
    ensures r.Raise? <==> lazy
    ensures r.Raise? ==> r.error == TypeError
    ensures r.Ok? && isDynamic && sigma.None? ==> r.value == Some(DefaultSigma(width) as real)
    ensures r.Ok? && !(isDynamic && sigma.None?) ==> r.value == sigma
  {
    if lazy then Raise(TypeError)
    else Ok(if isDynamic && sigma.None? then Some(DefaultSigma(width) as real) else sigma)
  }

  // ---------------------------------------------------------------------
  // The signal
  // ---------------------------------------------------------------------

  datatype SignalClass = EBSDClass | LazyEBSDClass

  class EBSD {
    var metadata: Tree
    var originalMetadata: Tree
    var tmpParameters: map<string, string>
    var lazy: bool
    var signalClass: SignalClass
    var fileOpen: bool

    /** `EBSD(...)` / `LazyEBSD(...)`: the trees the base signal builds,
        then `deadpixels_corrected = False`. */
    constructor (metadata: Tree, originalMetadata: Tree, tmpParameters: map<string, string>, lazy: bool)
      ensures this.metadata == metadata
      ensures this.originalMetadata == originalMetadata[EbsdNode + "deadpixels_corrected" := Flag(false)]
      ensures this.tmpParameters == tmpParameters && this.lazy == lazy && fileOpen
      ensures signalClass == (if lazy then LazyEBSDClass else EBSDClass)
    {
      this.metadata := metadata;
      this.originalMetadata := originalMetadata;
      this.tmpParameters := tmpParameters;
      this.lazy := lazy;
      this.signalClass := if lazy then LazyEBSDClass else EBSDClass;
      this.fileOpen := true;
      new;
      SetExperimentalParameters(None, None, Some(false), None, None, None, None, None, None);
      SetItemsOne(originalMetadata, OriginalEntries(None, Some(false), None, None, None, None, None, None), 1);
    }

    /** A signal with the given state, as hyperspy's `map(...,
        inplace=False)` returns it (its construction is not modelled). */
    constructor Copy(metadata: Tree, originalMetadata: Tree, tmpParameters: map<string, string>, lazy: bool,
                     signalClass: SignalClass, fileOpen: bool)
      ensures this.metadata == metadata && this.originalMetadata == originalMetadata
      ensures this.tmpParameters == tmpParameters && this.lazy == lazy
      ensures this.signalClass == signalClass && this.fileOpen == fileOpen
    {
      this.metadata := metadata;
      this.originalMetadata := originalMetadata;
      this.tmpParameters := tmpParameters;
      this.lazy := lazy;
      this.signalClass := signalClass;
      this.fileOpen := fileOpen;
    }

    /** `set_experimental_parameters`: each parameter that is not None is
        written to its item, the accelerating voltage to `metadata`, the
        others to `original_metadata`. */
    method SetExperimentalParameters(acceleratingVoltage: Option<real>, condenserAperture: Option<real>,
                                     deadpixelsCorrected: Option<bool>, deadvalue: Option<string>,
                                     deadpixels: Option<seq<Pixel>>, deadthreshold: Option<int>,
                                     exposureTime: Option<real>, frameRate: Option<real>, workingDistance: Option<real>)
      modifies this
      ensures metadata == SetItems(old(metadata), MetadataEntries(acceleratingVoltage))
      ensures originalMetadata == SetItems(old(originalMetadata),
                OriginalEntries(condenserAperture, deadpixelsCorrected, deadpixels, deadvalue, deadthreshold,
                                exposureTime, frameRate, workingDistance))
      ensures tmpParameters == old(tmpParameters) && lazy == old(lazy) && signalClass == old(signalClass)
      ensures fileOpen == old(fileOpen)
    {
      if acceleratingVoltage.Some? {
        metadata := metadata[SemNode + "accelerating_voltage" := Number(acceleratingVoltage.value)];
      }
      assert MetadataEntries(acceleratingVoltage)[..0] == [];
      var entries := OriginalEntries(condenserAperture, deadpixelsCorrected, deadpixels, deadvalue, deadthreshold,
                                     exposureTime, frameRate, workingDistance);
      var omd := ApplyEntries(originalMetadata, entries);
      originalMetadata := omd;
    }

    /** `set_experimental_parameters(deadpixels=dead)`. */
    method StoreDeadpixels(dead: seq<Pixel>)
      modifies this
      ensures originalMetadata == old(originalMetadata)[EbsdNode + "deadpixels" := Pixels(dead)]
      ensures metadata == old(metadata) && tmpParameters == old(tmpParameters) && lazy == old(lazy)
      ensures signalClass == old(signalClass) && fileOpen == old(fileOpen)
    {
      SetExperimentalParameters(None, None, None, None, Some(dead), None, None, None, None);
      SetItemsOne(old(originalMetadata), OriginalEntries(None, None, Some(dead), None, None, None, None, None), 2);
    }

    /** `find_deadpixels`: checks the patterns at the given coordinates (or
        at `drawn`, the random coordinates, when none are given), appends
        the candidates each yields, and keeps the distinct ones found more
        than `int(pattern_number_threshold * pattern_number)` times, sorted;
        they are stored in `original_metadata` and returned. Given
        coordinates override `pattern_number`; none at all raise IndexError. */
    method FindDeadpixels(patternNumber: nat, patternCoordinates: Option<seq<Pixel>>, drawn: seq<Pixel>,
                          patternNumberThreshold: real, singlePattern: Pixel -> seq<Pixel>)
      returns (r: Result<seq<Pixel>>)
      requires patternCoordinates.None? ==> |drawn| == patternNumber
      modifies this
      ensures var coordinates := if patternCoordinates.Some? then patternCoordinates.value else drawn;
              (r.Raise? <==> |coordinates| == 0) && (r.Raise? ==> r.error == IndexError)
      ensures var coordinates := if patternCoordinates.Some? then patternCoordinates.value else drawn;
              var n := if patternCoordinates.Some? then |patternCoordinates.value| else patternNumber;
              r.Ok? ==> r.value == Deadpixels(Candidates(coordinates, singlePattern), VoteLimit(patternNumberThreshold, n))
      ensures r.Ok? ==> originalMetadata == old(originalMetadata)[EbsdNode + "deadpixels" := Pixels(r.value)]
      ensures r.Raise? ==> originalMetadata == old(originalMetadata)
      ensures metadata == old(metadata) && tmpParameters == old(tmpParameters) && lazy == old(lazy)
      ensures signalClass == old(signalClass) && fileOpen == old(fileOpen)
    {
      var coordinates := if patternCoordinates.Some? then patternCoordinates.value else drawn;
      var n := if patternCoordinates.Some? then |patternCoordinates.value| else patternNumber;
      if |coordinates| == 0 {
        return Raise(IndexError);
      }
      var found := CollectCandidates(coordinates, singlePattern);
      var dead := Deadpixels(found, VoteLimit(patternNumberThreshold, n));
      StoreDeadpixels(dead);
      r := Ok(dead);
    }

    /** `remove_deadpixels`: the dead pixels used are the ones given or the
        ones stored; the corrected signal (this one, or with `inplace`
        false a new one that is returned) is marked as corrected with the
        dead value used. */
    method RemoveDeadpixels(deadpixels: Option<seq<Pixel>>, deadvalue: string, inplace: bool)
      returns (corrected: EBSD?, used: Option<MetaValue>)
      modifies this
      ensures used == if deadpixels.Some? then Some(Pixels(deadpixels.value))
                      else if EbsdNode + "deadpixels" in old(originalMetadata) then Some(old(originalMetadata)[EbsdNode + "deadpixels"])
                      else None
      ensures inplace ==> (corrected == null &&
                originalMetadata == old(originalMetadata)[EbsdNode + "deadpixels_corrected" := Flag(true)][EbsdNode + "deadvalue" := Text(deadvalue)])
      ensures !inplace ==> originalMetadata == old(originalMetadata)
      ensures !inplace ==> (corrected != null && fresh(corrected) &&
                corrected.originalMetadata == old(originalMetadata)[EbsdNode + "deadpixels_corrected" := Flag(true)][EbsdNode + "deadvalue" := Text(deadvalue)] &&
                corrected.metadata == metadata && corrected.lazy == lazy &&
                corrected.tmpParameters == tmpParameters &&
                corrected.signalClass == signalClass && corrected.fileOpen == fileOpen)
      ensures metadata == old(metadata) && lazy == old(lazy) && tmpParameters == old(tmpParameters)
      ensures signalClass == old(signalClass) && fileOpen == old(fileOpen)
    {
      used := if deadpixels.Some? then Some(Pixels(deadpixels.value))
              else if EbsdNode + "deadpixels" in originalMetadata then Some(originalMetadata[EbsdNode + "deadpixels"])
              else None;
      if inplace {
        ghost var before := originalMetadata;
        SetExperimentalParameters(None, None, Some(true), Some(deadvalue), None, None, None, None, None);
        SetItemsTwo(before, OriginalEntries(None, Some(true), None, Some(deadvalue), None, None, None, None), 1, 3);
        corrected := null;
      } else {
        corrected := new EBSD.Copy(metadata, originalMetadata, tmpParameters, lazy, signalClass, fileOpen);
        corrected.SetExperimentalParameters(None, None, Some(true), Some(deadvalue), None, None, None, None, None);
        SetItemsTwo(old(originalMetadata), OriginalEntries(None, Some(true), None, Some(deadvalue), None, None, None, None), 1, 3);
      }
    }

    /** `save`'s file name for this signal. */
    function SaveName(filename: Option<string>, extension: Option<string>): (r: Result<string>)
      reads this
      ensures r == SaveFilename(filename, tmpParameters,
                                if "General.original_filename" in metadata && metadata["General.original_filename"].Text?
                                then Some(metadata["General.original_filename"].s) else None, extension)
      ensures filename.Some? ==> r.Ok?
    {
      SaveFilename(filename, tmpParameters,
                   if "General.original_filename" in metadata && metadata["General.original_filename"].Text?
                   then Some(metadata["General.original_filename"].s) else None, extension)
    }

    /** `LazyEBSD.compute`: the data is loaded (its values are unchanged),
        the file closed on request, and the signal becomes a plain EBSD. */
    method Compute(progressbar: bool, closeFile: bool)
      requires signalClass == LazyEBSDClass
      modifies this
      ensures !lazy && signalClass == EBSDClass
      ensures fileOpen == (old(fileOpen) && !closeFile)
      ensures metadata == old(metadata) && originalMetadata == old(originalMetadata) && tmpParameters == old(tmpParameters)
    {
      if closeFile {
        fileOpen := false;
      }
      lazy := false;
      signalClass := EBSDClass;
    }
  }
}
