/**
 * The language-code to script-code table of bhashini_api.py: a process-wide
 * `defaultdict` whose default is "Latn", filled once from the service's list of
 * pipeline models, and read (and, on a miss, written) by every payload builder.
 */
module ScriptMap {
  import opened Wrappers
  import opened Json

  /** The script code the table answers for a language it does not hold. */
  const DefaultScript: string := "Latn"

  /** The value `SCRIPT_MAP[language]` evaluates to when the table holds `table`. */
  function ScriptOf(table: map<string, string>, language: string): string {
    if language in table then table[language] else DefaultScript
  }

  /** The table after `SCRIPT_MAP[language]`: a `defaultdict` miss stores the default. */
  function Touch(table: map<string, string>, language: string): map<string, string> {
    if language in table then table else table[language := DefaultScript]
  }

  /** A lookup stores an entry for its key, that entry is the answer, and every other entry stays. */
  lemma TouchSpec(table: map<string, string>, language: string)
    ensures language in Touch(table, language)
    ensures Touch(table, language)[language] == ScriptOf(table, language)
    ensures language in table ==> Touch(table, language) == table
    ensures forall k :: k != language ==> (k in Touch(table, language) <==> k in table)
    ensures forall k :: k != language && k in table ==> Touch(table, language)[k] == table[k]
  {
  }

  /** The entry a miss stores cannot be told apart by later lookups. */
  lemma TouchUnobservable(table: map<string, string>, language: string, other: string)
    ensures ScriptOf(Touch(table, language), other) == ScriptOf(table, other)
  {
  }

  /** `if fetched: table.update(fetched)`. */
  function Merge(table: map<string, string>, fetched: map<string, string>): (merged: map<string, string>)
    ensures fetched == map[] ==> merged == table
    ensures forall k :: k in fetched ==> k in merged && merged[k] == fetched[k]
    ensures forall k :: k !in fetched ==> (k in merged <==> k in table)
    ensures forall k :: k !in fetched && k in table ==> merged[k] == table[k]
  {
    if fetched == map[] then table else table + fetched
  }

  /** `SCRIPT_MAP` itself. */
  class ScriptTable {
    var entries: map<string, string>

    /** `defaultdict(lambda: 'Latn')`: no entries yet. */
    constructor ()
      ensures entries == map[]
    {
      entries := map[];
    }

    /** `get_script_code(language)`. */
    method Lookup(language: string) returns (script: string)
      modifies this
      ensures script == ScriptOf(old(entries), language)
      ensures entries == Touch(old(entries), language)
    {
      if language !in entries {
        entries := entries[language := DefaultScript];
      }
      script := entries[language];
    }

    /** The guarded bulk update that follows `fetch_supported_languages()`. */
    method Update(fetched: map<string, string>)
      modifies this
      ensures entries == Merge(old(entries), fetched)
    {
      if fetched != map[] {
        entries := entries + fetched;
      }
    }
  }

  // ---------------------------------------------------------------------------
  // fetch_supported_languages: the getModelsPipeline response, read as a table
  // ---------------------------------------------------------------------------

  /** What `for pipeline in data.get('pipelineModels', [])` visits; `None` when it raises. */
  function Pipelines(data: Value): Option<seq<Value>> {
    if data.Obj? then Iterable(GetOr(data, "pipelineModels", Arr([]))) else None
  }

  /** What `for lang in pipeline.get('languages', [])` visits; `None` when it raises. */
  function Languages(pipeline: Value): Option<seq<Value>> {
    if pipeline.Obj? then Iterable(GetOr(pipeline, "languages", Arr([]))) else None
  }

  /**
   * The inner loop body runs on `lang` without raising: it is an object, and
   * when both codes are truthy the language code can be hashed as a dict key.
   */
  predicate EntryReadable(lang: Value) {
    && lang.Obj?
    && var code := GetOr(lang, "sourceLanguage", Null);
       var script := GetOr(lang, "sourceScriptCode", Null);
       !(Truthy(code) && Truthy(script) && Unhashable(code))
  }

  /** The inner loop runs through `pipeline` without raising. */
  predicate PipelineShaped(pipeline: Value) {
    && Languages(pipeline).Some?
    && forall i :: 0 <= i < |Languages(pipeline).value| ==> EntryReadable(Languages(pipeline).value[i])
  }

  /** Both loops run through `data` without raising. */
  predicate ModelsShaped(data: Value) {
    && Pipelines(data).Some?
    && forall i :: 0 <= i < |Pipelines(data).value| ==> PipelineShaped(Pipelines(data).value[i])
  }

  /** `if lang_code and script_code`: the entry carries both codes, as non-empty strings. */
  predicate Kept(lang: Value) {
    && lang.Obj?
    && NonEmptyStr(GetOr(lang, "sourceLanguage", Null))
    && NonEmptyStr(GetOr(lang, "sourceScriptCode", Null))
  }

  function CodeOf(lang: Value): string
    requires Kept(lang)
  {
    GetOr(lang, "sourceLanguage", Null).s
  }

  function ScriptCodeOf(lang: Value): string
    requires Kept(lang)
  {
    GetOr(lang, "sourceScriptCode", Null).s
  }

  /** The language entries of `pipelines`, in the order the nested loops visit them. */
  function AllLanguages(pipelines: seq<Value>): seq<Value>
    requires forall i :: 0 <= i < |pipelines| ==> Languages(pipelines[i]).Some?
  {
    if pipelines == [] then []
    else AllLanguages(pipelines[..|pipelines| - 1]) + Languages(pipelines[|pipelines| - 1]).value
  }

  /** `language_map` once the loops have visited `langs`, in order, starting from `{}`. */
  function MapOfEntries(langs: seq<Value>): map<string, string> {
    if langs == [] then map[]
    else
      var before := MapOfEntries(langs[..|langs| - 1]);
      var lang := langs[|langs| - 1];
      if Kept(lang) then before[CodeOf(lang) := ScriptCodeOf(lang)] else before
  }

  /** What `fetch_supported_languages()` returns, or raises, for a decoded response. */
  function LanguageMapOf(data: Value): Result<map<string, string>, Error> {
    if ModelsShaped(data) then Ok(MapOfEntries(AllLanguages(Pipelines(data).value)))
    else Err(Malformed)
  }

  /**
   * The same, when the request itself may have failed (`None`): a
   * `RequestException` is caught and yields the empty map.
   */
  function FetchedMap(response: Option<Value>): Result<map<string, string>, Error> {
    match response
    case None => Ok(map[])
    case Some(data) => LanguageMapOf(data)
  }

  /**
   * An entry whose truthy `sourceLanguage` is a list or an object, beside a
   * truthy script code, cannot become a dict key: the TypeError escapes the
   * `RequestException` handler, whatever the other entries hold.
   */
  lemma UnhashableCodeRaises(data: Value, i: nat, j: nat)
    requires Pipelines(data).Some? && i < |Pipelines(data).value|
    requires Languages(Pipelines(data).value[i]).Some? && j < |Languages(Pipelines(data).value[i]).value|
    requires var lang := Languages(Pipelines(data).value[i]).value[j];
      && lang.Obj?
      && Truthy(GetOr(lang, "sourceLanguage", Null))
      && Truthy(GetOr(lang, "sourceScriptCode", Null))
      && Unhashable(GetOr(lang, "sourceLanguage", Null))
    ensures FetchedMap(Some(data)) == Err(Malformed)
  {
    assert !EntryReadable(Languages(Pipelines(data).value[i]).value[j]);
    assert !PipelineShaped(Pipelines(data).value[i]);
  }

  /** A reply listing `"sourceLanguage": ["hi"]` with script `"Deva"` makes the import fail. */
  lemma ListLanguageCodeFailsImport()
    ensures var lang := Obj(map["sourceLanguage" := Arr([Str("hi")]), "sourceScriptCode" := Str("Deva")]);
      var data := Obj(map["pipelineModels" := Arr([Obj(map["languages" := Arr([lang])])])]);
      FetchedMap(Some(data)) == Err(Malformed)
  {
    var lang := Obj(map["sourceLanguage" := Arr([Str("hi")]), "sourceScriptCode" := Str("Deva")]);
    var pipeline := Obj(map["languages" := Arr([lang])]);
    var data := Obj(map["pipelineModels" := Arr([pipeline])]);
    assert Pipelines(data).value == [pipeline];
    assert Languages(pipeline).value == [lang];
    UnhashableCodeRaises(data, 0, 0);
  }

  /** A language is in the fetched map exactly when some kept entry names it. */
  lemma {:induction false} MapOfEntriesDomain(langs: seq<Value>, language: string)
    ensures language in MapOfEntries(langs) <==>
            exists k :: 0 <= k < |langs| && Kept(langs[k]) && CodeOf(langs[k]) == language
  {
    if langs != [] {
      var init := langs[..|langs| - 1];
      MapOfEntriesDomain(init, language);
      if language in MapOfEntries(init) {
        var k :| 0 <= k < |init| && Kept(init[k]) && CodeOf(init[k]) == language;
        assert langs[k] == init[k];
      }
      if exists k :: 0 <= k < |langs| && Kept(langs[k]) && CodeOf(langs[k]) == language {
        var k :| 0 <= k < |langs| && Kept(langs[k]) && CodeOf(langs[k]) == language;
        if k < |init| {
          assert init[k] == langs[k];
        }
      }
    }
  }

  /** For a repeated language, the last kept entry naming it decides its script. */
  lemma {:induction false} MapOfEntriesLastWins(langs: seq<Value>, k: nat)
    requires k < |langs| && Kept(langs[k])
    requires forall j :: k < j < |langs| && Kept(langs[j]) ==> CodeOf(langs[j]) != CodeOf(langs[k])
    ensures CodeOf(langs[k]) in MapOfEntries(langs)
    ensures MapOfEntries(langs)[CodeOf(langs[k])] == ScriptCodeOf(langs[k])
  {
    var init := langs[..|langs| - 1];
    if k < |langs| - 1 {
      assert init[k] == langs[k];
      forall j | k < j < |init| && Kept(init[j])
        ensures CodeOf(init[j]) != CodeOf(init[k])
      {
        assert init[j] == langs[j];
      }
      MapOfEntriesLastWins(init, k);
    }
  }

  /** Every script in the fetched map comes from a kept entry that names its language. */
  lemma {:induction false} MapOfEntriesSound(langs: seq<Value>, language: string)
    requires language in MapOfEntries(langs)
    ensures exists k :: 0 <= k < |langs| && Kept(langs[k]) && CodeOf(langs[k]) == language &&
                        ScriptCodeOf(langs[k]) == MapOfEntries(langs)[language]
  {
    var init := langs[..|langs| - 1];
    var last := langs[|langs| - 1];
    if Kept(last) && CodeOf(last) == language {
      assert langs[|langs| - 1] == last;
    } else {
      MapOfEntriesSound(init, language);
      var k :| 0 <= k < |init| && Kept(init[k]) && CodeOf(init[k]) == language &&
               ScriptCodeOf(init[k]) == MapOfEntries(init)[language];
      assert langs[k] == init[k];
    }
  }

  /** One more visited entry. */
  lemma MapOfEntriesStep(done: seq<Value>, lang: Value)
    ensures MapOfEntries(done + [lang]) ==
      if Kept(lang) then MapOfEntries(done)[CodeOf(lang) := ScriptCodeOf(lang)] else MapOfEntries(done)
  {
    assert (done + [lang])[..|done + [lang]| - 1] == done;
  }

  /** One more visited pipeline. */
  lemma AllLanguagesStep(pipelines: seq<Value>, i: nat)
    requires i < |pipelines|
    requires forall k :: 0 <= k <= i ==> Languages(pipelines[k]).Some?
    ensures AllLanguages(pipelines[..i + 1]) == AllLanguages(pipelines[..i]) + Languages(pipelines[i]).value
  {
    assert pipelines[..i + 1][..i] == pipelines[..i];
  }

  /**
   * The inner loop of `fetch_supported_languages`, over one pipeline's
   * `languages`: `None` when it raises, else `language_map` afterwards.
   */
  method ScanLanguages(languageMap: map<string, string>, ghost done: seq<Value>, langs: seq<Value>)
    returns (r: Option<map<string, string>>)
    requires languageMap == MapOfEntries(done)
    ensures r.Some? <==> forall k :: 0 <= k < |langs| ==> EntryReadable(langs[k])
    ensures r.Some? ==> r.value == MapOfEntries(done + langs)
  {
    var updated := languageMap;
    var j := 0;
    assert done + langs[..j] == done;
    while j < |langs|
      invariant 0 <= j <= |langs|
      invariant forall k :: 0 <= k < j ==> EntryReadable(langs[k])
      invariant updated == MapOfEntries(done + langs[..j])
    {
      var lang := langs[j];
      if !lang.Obj? {
        assert !EntryReadable(langs[j]);
        return None;
      }
      var langCode := GetOr(lang, "sourceLanguage", Null);
      var scriptCode := GetOr(lang, "sourceScriptCode", Null);
      if Truthy(langCode) && Truthy(scriptCode) {
        if Unhashable(langCode) {
          assert !EntryReadable(langs[j]);
          return None;
        }
        if NonEmptyStr(langCode) && NonEmptyStr(scriptCode) {
          updated := updated[langCode.s := scriptCode.s];
        }
      }
      MapOfEntriesStep(done + langs[..j], lang);
      assert done + langs[..j + 1] == done + langs[..j] + [lang];
      j := j + 1;
    }
    assert langs[..j] == langs;
    return Some(updated);
  }

  /** `fetch_supported_languages()`, with the HTTP exchange replaced by its outcome. */
  method FetchSupportedLanguages(response: Option<Value>) returns (r: Result<map<string, string>, Error>)
    ensures r == FetchedMap(response)
  {
    if response.None? {
      return Ok(map[]);
    }
    var data := response.value;
    if !data.Obj? {
      return Err(Malformed);
    }
    var models := Iterable(GetOr(data, "pipelineModels", Arr([])));
    if models.None? {
      return Err(Malformed);
    }
    var pipelines := models.value;
    var languageMap: map<string, string> := map[];
    var i := 0;
    while i < |pipelines|
      invariant 0 <= i <= |pipelines|
      invariant forall k :: 0 <= k < i ==> PipelineShaped(pipelines[k])
      invariant languageMap == MapOfEntries(AllLanguages(pipelines[..i]))
    {
      var pipeline := pipelines[i];
      if !pipeline.Obj? {
        return Err(Malformed);
      }
      var listed := Iterable(GetOr(pipeline, "languages", Arr([])));
      if listed.None? {
        return Err(Malformed);
      }
      var scanned := ScanLanguages(languageMap, AllLanguages(pipelines[..i]), listed.value);
      if scanned.None? {
        assert !PipelineShaped(pipelines[i]);
        return Err(Malformed);
      }
      languageMap := scanned.value;
      AllLanguagesStep(pipelines, i);
      i := i + 1;
    }
    assert pipelines[..i] == pipelines;
    return Ok(languageMap);
  }

  /**
   * The module-level initialisation: a fresh table, the fetch, and the guarded
   * update. A malformed response raises during the import, so no table exists.
   */
  method LoadScriptTable(response: Option<Value>) returns (r: Result<ScriptTable, Error>)
    ensures r.Err? <==> FetchedMap(response).Err?
    ensures r.Err? ==> r.error == Malformed
    ensures r.Ok? ==> fresh(r.value) && r.value.entries == FetchedMap(response).value
  {
    var table := new ScriptTable();
    var fetched := FetchSupportedLanguages(response);
    if fetched.Err? {
      return Err(fetched.error);
    }
    table.Update(fetched.value);
    return Ok(table);
  }
}
