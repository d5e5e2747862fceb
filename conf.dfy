/** The Sphinx `linkcode_resolve` hook of the documentation configuration:
    maps a documented Python object to the URL of its source file on
    GitHub. */
module DocConf {
  import opened Common

  const SourceTreeUrl: string := "https://github.com/kikuchipy/kikuchipy/tree/master/"

  /** `module.replace(".", "/")`: every dot becomes a slash. */
  function ReplaceDots(s: string): string
  {
    if s == [] then []
    else [if s[0] == '.' then '/' else s[0]] + ReplaceDots(s[1..])
  }

  /** The replaced string keeps the module's length and differs from it
      exactly at the positions that hold a dot. */
  lemma {:induction false} ReplaceDotsAt(s: string)
    ensures |ReplaceDots(s)| == |s|
    ensures forall k :: 0 <= k < |s| ==>
      ReplaceDots(s)[k] == (if s[k] == '.' then '/' else s[k])
  {
    if s != [] {
      ReplaceDotsAt(s[1..]);
    }
  }

  /** A dotted module name becomes a path without dots. */
  lemma ReplaceDotsRemovesDots(s: string)
    ensures '.' !in ReplaceDots(s)
  {
    ReplaceDotsAt(s);
  }

  /** A Python string is falsy when it is empty; `None` is falsy too. */
  predicate Truthy(v: Option<string>)
  {
    v.Some? && v.value != ""
  }

  /** `linkcode_resolve(domain, info)`: `None` for a non-Python domain or a
      falsy module (the module is looked up only after the domain test, so
      a missing "module" key raises only for the Python domain);
      otherwise the GitHub URL of the module's file. */
  function LinkcodeResolve(domain: string, info: map<string, Option<string>>): (r: Result<Option<string>>)
    ensures domain != "py" ==> r == Ok(None)
    ensures domain == "py" && "module" !in info ==> r == Raise(KeyError)
    ensures (r.Ok? && r.value.Some?) <==>
              (domain == "py" && "module" in info && Truthy(info["module"]))
    ensures r.Ok? && r.value.Some? ==>
              var m := info["module"].value;
              var url := r.value.value;
              |url| == |SourceTreeUrl| + |m| + 3 &&
              url[..|SourceTreeUrl|] == SourceTreeUrl &&
              url[|SourceTreeUrl| + |m|..] == ".py" &&
              forall k :: 0 <= k < |m| ==>
                url[|SourceTreeUrl| + k] == (if m[k] == '.' then '/' else m[k])
  {
    if domain != "py" then Ok(None)
    else if "module" !in info then Raise(KeyError)
    else if !Truthy(info["module"]) then Ok(None)
    else
      var m := info["module"].value;
      ReplaceDotsAt(m);
      Ok(Some(SourceTreeUrl + ReplaceDots(m) + ".py"))
  }
}
