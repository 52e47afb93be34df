/**
  The data-source page: which fields a source type shows, the parameters built
  from those fields, the validate-then-save handler, and loading a saved
  source back from the saved-sources table.
*/
module SourcePanel {
  import opened Wrappers
  import opened PyValues
  import opened SourceService

  /** Which of the directory, tags and limit fields are shown. */
  datatype Visibility = Visibility(directory: bool, tags: bool, limit: bool)

  /** One row of the saved-sources table: the type and the parameters as JSON text. */
  datatype SourceRow = SourceRow(sourceType: string, params: string)

  /** update_params: a local source shows only the directory; any other shows only tags and limit. */
  function UpdateParams(sourceType: Option<string>): (v: Visibility)
    ensures v.directory <==> sourceType == Some(LocalSource)
    ensures v.tags == v.limit == !v.directory
  {
    var isLocal := sourceType == Some(LocalSource);
    Visibility(isLocal, !isLocal, !isLocal)
  }

  /**
    The parameters select_source builds: a local source gets only its
    directory; any other gets its tags split on whitespace (none when the
    field is empty) and its limit through int().
  */
  function BuildParams(sourceType: string, directory: Value, tags: Value, limit: Value, rt: Runtime)
    : (r: Result<Dict, SourceError>)
    ensures sourceType == LocalSource ==> r == Ok([Binding("directory", directory)])
    ensures sourceType != LocalSource && rt.toInt(limit).None? ==> r == Err(Unhandled)
    ensures sourceType != LocalSource && Truthy(tags) && !tags.Str? ==> r == Err(Unhandled)
    ensures r.Ok? && sourceType != LocalSource ==>
      && |r.value| == 2 && r.value[0].key == "tags" && r.value[1].key == "limit"
      && r.value[0].value == List(if tags.Str? then Words(tags.s) else [])
      && r.value[1].value == Int(rt.toInt(limit).value)
  {
    if sourceType == LocalSource then Ok([Binding("directory", directory)])
    else if Truthy(tags) && !tags.Str? then Err(Unhandled)
    else
      var words := if tags.Str? then Words(tags.s) else [];
      match rt.toInt(limit)
        case None => Err(Unhandled)
        case Some(n) => Ok([Binding("tags", List(words)), Binding("limit", Int(n))])
  }

  /** `s.split()` as a list of strings. */
  function Words(s: string): (r: seq<Value>)
    ensures |r| == |SplitWords(s)|
    ensures forall i :: 0 <= i < |r| ==> r[i] == Str(SplitWords(s)[i])
  {
    var words := SplitWords(s);
    seq(|words|, i requires 0 <= i < |words| => Str(words[i]))
  }

  /** The tag list is empty exactly when the tags field is blank. */
  lemma WordsEmptyIffBlank(tags: string)
    ensures Words(tags) == [] <==> AllSpace(tags)
  {
    SplitWordsEmptyIffBlank(tags);
    assert |Words(tags)| == |SplitWords(tags)|;
  }

  /** A non-local source built from the form passes validation exactly when its tag list is non-empty. */
  lemma ValidateBuiltTags(sourceType: string, tags: Value, limit: Value, pathExists: string -> bool)
    requires sourceType != LocalSource
    ensures ValidateSource(sourceType, [Binding("tags", tags), Binding("limit", limit)], pathExists)
      == if Truthy(tags) then Pass else Fail(NoTags)
  {
    assert Get([Binding("tags", tags), Binding("limit", limit)], "tags") == Some(tags);
  }

  /**
    Tags typed as whitespace only give an empty tag list, which validation
    then refuses: a non-local source cannot be saved without a tag.
  */
  lemma BlankTagsAreRefused(sourceType: string, tags: string, limit: Value, rt: Runtime, pathExists: string -> bool)
    requires sourceType != LocalSource && AllSpace(tags) && rt.toInt(limit).Some?
    ensures BuildParams(sourceType, Str(""), Str(tags), limit, rt).Ok?
    ensures ValidateSource(sourceType, BuildParams(sourceType, Str(""), Str(tags), limit, rt).value, pathExists) == Fail(NoTags)
  {
    var words := List(Words(tags));
    var limitValue := Int(rt.toInt(limit).value);
    assert BuildParams(sourceType, Str(""), Str(tags), limit, rt) == Ok([Binding("tags", words), Binding("limit", limitValue)]);
    ValidateBuiltTags(sourceType, words, limitValue, pathExists);
    WordsEmptyIffBlank(tags);
  }

  /** A non-local source with at least one word of tags passes validation. */
  lemma TaggedSourcesPass(sourceType: string, tags: string, limit: Value, rt: Runtime, pathExists: string -> bool)
    requires sourceType != LocalSource && !AllSpace(tags) && rt.toInt(limit).Some?
    ensures BuildParams(sourceType, Str(""), Str(tags), limit, rt).Ok?
    ensures ValidateSource(sourceType, BuildParams(sourceType, Str(""), Str(tags), limit, rt).value, pathExists) == Pass
  {
    WordsEmptyIffBlank(tags);
    var words := List(Words(tags));
    var limitValue := Int(rt.toInt(limit).value);
    assert BuildParams(sourceType, Str(""), Str(tags), limit, rt) == Ok([Binding("tags", words), Binding("limit", limitValue)]);
    ValidateBuiltTags(sourceType, words, limitValue, pathExists);
  }

  /** The saved-sources table: `[type, json.dumps(params)]` for each saved source, in order. */
  function SavedRows(saved: seq<Value>, rt: Runtime): (rows: seq<SourceRow>)
    requires forall i :: 0 <= i < |saved| ==> SavedForm(saved[i])
    ensures |rows| == |saved|
    ensures forall i :: 0 <= i < |saved| ==>
      SavedForm(saved[i]) && rows[i] == SourceRow(TypeOf(saved[i]).s, rt.jsonDumps(ParamsOf(saved[i])))
  {
    seq(|saved|, i requires 0 <= i < |saved| && SavedForm(saved[i]) =>
      SourceRow(TypeOf(saved[i]).s, rt.jsonDumps(ParamsOf(saved[i]))))
  }

  /** `{"type": source_type, "params": params}`. */
  function SourceData(sourceType: string, params: Dict): (v: Value)
    ensures SavedForm(v) && TypeOf(v) == Str(sourceType) && ParamsOf(v) == Dict(params)
  {
    var entries := [Binding("type", Str(sourceType)), Binding("params", Dict(params))];
    assert entries[1..] == [Binding("params", Dict(params))];
    assert Get(entries[1..], "params") == Some(Dict(params));
    assert Get(entries, "params") == Some(Dict(params));
    assert Get(entries, "type") == Some(Str(sourceType));
    Dict(entries)
  }

  /**
    select_source: a missing type is refused; the parameters are built and
    validated before anything is saved, so a failure leaves the saved list as
    it was. On success the new source is the last saved entry and the table
    shows every saved source.
  */
  method SelectSource(repo: SourceRepository, registry: SourceRegistry, sourceType: Option<string>,
                      directory: Value, tags: Value, limit: Value, pathExists: string -> bool, rt: Runtime)
    returns (r: Result<(Value, seq<SourceRow>), SourceError>)
    requires repo.Valid()
    modifies repo
    ensures repo.Valid()
    ensures sourceType.None? || sourceType.value == "" ==> r == Err(NoSourceType)
    ensures r.Err? ==> repo.saved == old(repo.saved)
    ensures (sourceType.Some? && sourceType.value != ""
      && BuildParams(sourceType.value, directory, tags, limit, rt).Ok?
      && ValidateSource(sourceType.value, BuildParams(sourceType.value, directory, tags, limit, rt).value, pathExists).Fail?) ==>
      r == Err(ValidateSource(sourceType.value, BuildParams(sourceType.value, directory, tags, limit, rt).value, pathExists).error)
    ensures (sourceType.Some? && sourceType.value != ""
      && BuildParams(sourceType.value, directory, tags, limit, rt).Err?) ==>
      r == Err(BuildParams(sourceType.value, directory, tags, limit, rt).error)
    ensures (sourceType.Some? && sourceType.value != ""
      && BuildParams(sourceType.value, directory, tags, limit, rt).Ok?
      && ValidateSource(sourceType.value, BuildParams(sourceType.value, directory, tags, limit, rt).value, pathExists) == Pass
      && sourceType.value !in AllSources(registry.categories, registry.sourcesIn)) ==>
      r == Err(UnknownType(Str(sourceType.value)))
    ensures r.Ok? <==>
      && sourceType.Some? && sourceType.value != ""
      && BuildParams(sourceType.value, directory, tags, limit, rt).Ok?
      && ValidateSource(sourceType.value, BuildParams(sourceType.value, directory, tags, limit, rt).value, pathExists) == Pass
      && sourceType.value in AllSources(registry.categories, registry.sourcesIn)
    ensures r.Ok? ==>
      && sourceType.Some? && sourceType.value != ""
      && BuildParams(sourceType.value, directory, tags, limit, rt).Ok?
      && var params := BuildParams(sourceType.value, directory, tags, limit, rt).value;
      && ValidateSource(sourceType.value, params, pathExists) == Pass
      && sourceType.value in AllSources(registry.categories, registry.sourcesIn)
      && r.value.0 == SourceData(sourceType.value, params)
      && repo.saved == old(repo.saved) + [r.value.0]
      && r.value.1 == SavedRows(repo.saved, rt)
  {
    if sourceType.None? || sourceType.value == "" {
      return Err(NoSourceType);
    }
    var params := BuildParams(sourceType.value, directory, tags, limit, rt);
    if params.Err? {
      return Err(params.error);
    }
    var valid := ValidateSource(sourceType.value, params.value, pathExists);
    if valid.Fail? {
      return Err(valid.error);
    }
    var data := SourceData(sourceType.value, params.value);
    var saved := repo.SaveSource(data, registry);
    if saved.Fail? {
      return Err(saved.error);
    }
    var all := repo.GetSavedSources();
    r := Ok((data, SavedRows(all, rt)));
  }

  /**
    load_saved_source: an empty table is refused; otherwise its first row is
    read as type and JSON parameters. A row that is not a pair, or text that
    is not JSON, raises.
  */
  function LoadSavedSource(table: seq<seq<string>>, rt: Runtime): (r: Result<Value, SourceError>)
    ensures table == [] ==> r == Err(NoSelection)
    ensures r.Ok? <==> table != [] && |table[0]| == 2 && rt.jsonLoads(Str(table[0][1])).Some?
    ensures r.Ok? ==> r.value == Dict([Binding("type", Str(table[0][0])), Binding("params", rt.jsonLoads(Str(table[0][1])).value)])
    ensures r.Err? && table != [] ==> r == Err(Unhandled)
  {
    if table == [] then Err(NoSelection)
    else if |table[0]| != 2 then Err(Unhandled)
    else match rt.jsonLoads(Str(table[0][1]))
      case None => Err(Unhandled)
      case Some(params) => Ok(Dict([Binding("type", Str(table[0][0])), Binding("params", params)]))
  }

  /**
    Loading the first row of the saved-sources table gives back the first
    saved source, whenever JSON reads back what it wrote for its parameters.
  */
  lemma LoadFirstSavedSource(saved: seq<Value>, rt: Runtime)
    requires forall i :: 0 <= i < |saved| ==> SavedForm(saved[i])
    requires saved != [] && SavedForm(saved[0])
    requires rt.jsonLoads(Str(rt.jsonDumps(ParamsOf(saved[0])))) == Some(ParamsOf(saved[0]))
    ensures var table := seq(|saved|, i requires 0 <= i < |saved| => [SavedRows(saved, rt)[i].sourceType, SavedRows(saved, rt)[i].params]);
      LoadSavedSource(table, rt) == Ok(Dict([Binding("type", TypeOf(saved[0])), Binding("params", ParamsOf(saved[0]))]))
  {
  }
}
