/**
  The data-source service: the list of source types the registry offers, the
  check of a source's parameters, and the in-memory list of saved sources,
  which only grows.
*/
module SourceService {
  import opened Wrappers
  import opened PyValues

  /** The source registry: its categories, in order, and the sources of each. */
  datatype SourceRegistry = SourceRegistry(categories: seq<string>, sourcesIn: string -> seq<string>)

  /** SourceError by cause; `Unhandled` is any other exception the callers do not catch. */
  datatype SourceError =
    | NoSourceType
    | NoDirectory
    | DirectoryMissing(directory: string)
    | NoTags
    | BadFormat
    | UnknownType(sourceType: Value)
    | NoSelection
    | Unhandled

  /** The source type whose parameters name a local directory. */
  const LocalSource: string := "LocalSource"

  /** The sources of the given categories, category after category. */
  function AllSources(categories: seq<string>, sourcesIn: string -> seq<string>): (r: seq<string>)
    decreases |categories|
  {
    if categories == [] then []
    else AllSources(categories[..|categories| - 1], sourcesIn) + sourcesIn(categories[|categories| - 1])
  }

  /** A source type is offered exactly when some category lists it. */
  lemma {:induction false} AllSourcesMembership(categories: seq<string>, sourcesIn: string -> seq<string>, t: string)
    ensures t in AllSources(categories, sourcesIn) <==> exists i :: 0 <= i < |categories| && t in sourcesIn(categories[i])
    decreases |categories|
  {
    if categories != [] {
      var init := categories[..|categories| - 1];
      AllSourcesMembership(init, sourcesIn, t);
      if exists i :: 0 <= i < |init| && t in sourcesIn(init[i]) {
        var i :| 0 <= i < |init| && t in sourcesIn(init[i]);
        assert categories[i] == init[i];
      }
    }
  }

  /** get_source_types: every category's sources, extended onto one list in category order. */
  method GetSourceTypes(registry: SourceRegistry) returns (types: seq<string>)
    ensures types == AllSources(registry.categories, registry.sourcesIn)
  {
    var categories := registry.categories;
    types := [];
    var i := 0;
    while i < |categories|
      invariant 0 <= i <= |categories|
      invariant types == AllSources(categories[..i], registry.sourcesIn)
    {
      assert categories[..i + 1][..i] == categories[..i];
      types := types + registry.sourcesIn(categories[i]);
      i := i + 1;
    }
    assert categories[..i] == categories;
  }

  /**
    validate_source: a local source needs a directory that, stripped, is
    non-empty and exists (a missing "directory" key counts as ""); any other
    source fails only when it has a "tags" entry that is empty. `pathExists` is
    os.path.exists. The check changes nothing.
  */
  function ValidateSource(sourceType: string, params: Dict, pathExists: string -> bool): (r: Outcome<SourceError>)
    ensures sourceType == LocalSource ==>
      match Get(params, "directory")
        case None => r == Fail(NoDirectory)
        case Some(d) =>
          && (!d.Str? ==> r == Fail(Unhandled))
          && (d.Str? && AllSpace(d.s) ==> r == Fail(NoDirectory))
          && (d.Str? && !AllSpace(d.s) ==> (r.Pass? <==> pathExists(Strip(d.s))))
          && (r.Fail? && d.Str? && !AllSpace(d.s) ==> r == Fail(DirectoryMissing(Strip(d.s))))
    ensures sourceType != LocalSource ==>
      (r.Fail? <==> HasKey(params, "tags") && !Truthy(Get(params, "tags").value))
    ensures sourceType != LocalSource && r.Fail? ==> r == Fail(NoTags)
  {
    if sourceType == LocalSource then
      var raw := if HasKey(params, "directory") then Get(params, "directory").value else Str("");
      if !raw.Str? then Fail(Unhandled)
      else
        var directory := Strip(raw.s);
        StripEmptyIffBlank(raw.s);
        if directory == "" then Fail(NoDirectory)
        else if !pathExists(directory) then Fail(DirectoryMissing(directory))
        else Pass
    else if HasKey(params, "tags") && !Truthy(Get(params, "tags").value) then Fail(NoTags)
    else Pass
  }

  /** Parameters without a "tags" entry always pass for a non-local source. */
  lemma UntaggedSourcesPass(sourceType: string, params: Dict, pathExists: string -> bool)
    requires sourceType != LocalSource && !HasKey(params, "tags")
    ensures ValidateSource(sourceType, params, pathExists) == Pass
  {
  }

  /** `isinstance(d, dict) and "type" in d and "params" in d`. */
  predicate SourceShape(v: Value)
  {
    v.Dict? && HasKey(v.entries, "type") && HasKey(v.entries, "params")
  }

  /** `d["type"]` of a well-shaped source. */
  function TypeOf(v: Value): Value
    requires SourceShape(v)
  {
    Get(v.entries, "type").value
  }

  /** `d["params"]` of a well-shaped source. */
  function ParamsOf(v: Value): Value
    requires SourceShape(v)
  {
    Get(v.entries, "params").value
  }

  /** A saved source: well shaped, with a type that is a string. */
  predicate SavedForm(v: Value)
  {
    SourceShape(v) && TypeOf(v).Str?
  }

  class SourceRepository {
    /** SourceService._saved_sources, oldest first. */
    var saved: seq<Value>

    /** Every saved entry was accepted by save_source. */
    ghost predicate Valid()
      reads this
    {
      forall i :: 0 <= i < |saved| ==> SavedForm(saved[i])
    }

    constructor ()
      ensures Valid() && saved == []
    {
      saved := [];
    }

    /**
      save_source: a value that is not a dict with "type" and "params" is
      rejected, then a type the registry does not offer; an accepted source
      is appended, and the earlier entries are left as they were.
    */
    method SaveSource(sourceData: Value, registry: SourceRegistry) returns (r: Outcome<SourceError>)
      requires Valid()
      modifies this
      ensures Valid()
      ensures !SourceShape(sourceData) ==> r == Fail(BadFormat)
      ensures (SourceShape(sourceData) &&
        !(TypeOf(sourceData).Str? && TypeOf(sourceData).s in AllSources(registry.categories, registry.sourcesIn))) ==>
        r == Fail(UnknownType(TypeOf(sourceData)))
      ensures r.Pass? <==>
        && SourceShape(sourceData) && TypeOf(sourceData).Str?
        && TypeOf(sourceData).s in AllSources(registry.categories, registry.sourcesIn)
      ensures r.Pass? ==> saved == old(saved) + [sourceData]
      ensures r.Fail? ==> saved == old(saved)
    {
      if !SourceShape(sourceData) {
        return Fail(BadFormat);
      }
      var types := GetSourceTypes(registry);
      var sourceType := TypeOf(sourceData);
      if !sourceType.Str? || sourceType.s !in types {
        return Fail(UnknownType(sourceType));
      }
      saved := saved + [sourceData];
      r := Pass;
    }

    /** get_saved_sources: the saved sources in the order they were saved, each in saved form. */
    function GetSavedSources(): (r: seq<Value>)
      reads this
      requires Valid()
      ensures forall i :: 0 <= i < |r| ==> SavedForm(r[i])
      ensures r == saved
    {
      saved
    }
  }
}
