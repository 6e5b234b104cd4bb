# Bhashini client: script table, request bodies, reply selection, translation pairs

This project models the logic a small speech and translation client owns. The client sends jobs to the Bhashini inference pipeline: speech recognition (ASR), machine translation (NMT), speech synthesis (TTS), and two chained pipelines (ASR→NMT and ASR→NMT→TTS). The remote service does the actual work. What the client owns, and what the model covers:

- **The script table** (`SCRIPT_MAP`). This is a process-wide `defaultdict` mapping a language code to a script code, with default `"Latn"`.
  - It is filled once from the service's `getModelsPipeline` reply, and only when the fetched map is non-empty.
  - Every lookup of a missing language also stores `"Latn"` for it.
  - It is modelled as class `ScriptMap.ScriptTable`, which holds a `map<string, string>` and has the methods `Lookup` and `Update`.
  - The nested loop that builds the fetched map is the method `FetchSupportedLanguages`, proved equal to the specification function `FetchedMap` (and so `LanguageMapOf` for a reply that arrived). Its inner loop is the method `ScanLanguages`, proved to extend the map as `MapOfEntries` does over the entries it visits.
- **Request bodies.** A JSON body is an ordered list of pipeline tasks, each with its language and script-code fields. The five bodies are pure functions in module `Payloads`, over the JSON datatype `Json.Value`.
- **Reply selection.** The loop that ends every task function is written once:
  - the specification function `Selection.Select`, with the task type, the output field and the error message as parameters;
  - the method `Selection.SelectOutput`, which runs the loop.
  The five task functions are methods in module `Tasks`. Each performs its script lookups on the table, returns the body it would send, and selects its answer from the reply, which it receives as a parameter.
- **Translation pairs** (`fetch_available_translation_pairs`, in module `LanguageUtils`). The function collects the (source, target) pairs with both languages non-empty into a set, then returns them sorted. The model orders strings as Python does (by code point, a proper prefix first) and orders pairs by that ordering, lexicographically.

Python behaviour the model writes out explicitly:
- **Truthiness.** `Json.Truthy`.
- **`dict.get` with a default.** `Json.GetOr`.
- **`for x in v` over a decoded value.** This is `Json.Iterable`:
  - a list yields its items;
  - an empty string or an empty dict yields nothing;
  - a non-empty string or a non-empty dict makes the loop raise: its elements are strings, on which the next `.get` fails;
  - `null`, a boolean or a number cannot be iterated at all, and the `for` itself raises TypeError.
- **Shape errors.** The AttributeError, TypeError and KeyError that an unexpected reply shape causes are all `Json.Error.Malformed`.
  - In `fetch_supported_languages` they are not caught, because only `RequestException` is caught. So the import fails, and `LoadScriptTable` returns an error.
  - In `fetch_available_translation_pairs`, `except Exception` turns them into `[]`.
- **Messages.** Exceptions the client raises itself are `Raised(message)`, with the source's exact message.

## Model

| member | source | states |
|---|---|---|
| ScriptMap.ScriptTable.constructor | bhashini_api.py:35 | the table starts with no entries |
| ScriptMap.ScriptTable.Lookup | bhashini_api.py:69-70 | answers the stored script, else `"Latn"`; a miss stores `language ↦ "Latn"` and the rest of the table is unchanged |
| ScriptMap.TouchSpec | bhashini_api.py:69-70 | after a lookup the key is present with the answered script; a hit changes nothing; every other key keeps its presence and its value |
| ScriptMap.TouchUnobservable | bhashini_api.py:35 | the entry a miss stores never changes the answer of any later lookup |
| ScriptMap.Merge | bhashini_api.py:63-64 | an empty fetched map leaves the table as it was; otherwise every fetched key maps to its fetched script, and other keys keep their presence and values |
| ScriptMap.ScriptTable.Update | bhashini_api.py:62-64 | the table after the guarded update is the merge of the old table with the fetched map |
| ScriptMap.LoadScriptTable | bhashini_api.py:61-67 | initialisation fails (with a shape error) exactly when fetching raises, including on a truthy list or object as a language code beside a truthy script code; otherwise the fresh table holds exactly the fetched map |
| ScriptMap.FetchSupportedLanguages | bhashini_api.py:45-59 | a failed request gives `{}`; a reply that a loop cannot walk, or that has an entry whose truthy language code cannot be hashed as a key, raises; otherwise the result is the map the nested loops build over all language entries in order |
| ScriptMap.ScanLanguages | bhashini_api.py:51-55 | the inner loop raises exactly when some entry is not an object, or has truthy codes and a list or object as its language code; otherwise it extends `language_map` by the pipeline's entries, in order |
| ScriptMap.MapOfEntriesDomain | bhashini_api.py:49-56 | a language is in the fetched map if and only if some entry names it with both codes non-empty |
| ScriptMap.MapOfEntriesSound | bhashini_api.py:52-55 | every fetched script comes from an entry with that language and a non-empty script code |
| ScriptMap.MapOfEntriesLastWins | bhashini_api.py:54-55 | for a repeated language, the last kept entry decides its script |
| ScriptMap.ScriptOf | bhashini_api.py:69-70 | the value `SCRIPT_MAP[language]` evaluates to: the stored script when present, else `"Latn"` |
| ScriptMap.Touch | bhashini_api.py:35 | the table after that lookup: unchanged on a hit, extended by `language ↦ "Latn"` on a miss |
| ScriptMap.Kept | bhashini_api.py:52-54 | an entry is kept when it is an object whose `sourceLanguage` and `sourceScriptCode` are both non-empty strings |
| ScriptMap.MapOfEntries | bhashini_api.py:49-55 | `language_map` after visiting the entries in order from `{}`: each kept entry assigns its language its script, later ones overwriting earlier ones |
| ScriptMap.LanguageMapOf | bhashini_api.py:48-56 | for a decoded reply: a shape error when either loop would raise (a value that is not iterable, an entry that is not an object, an unhashable language code with truthy codes), else the map of all pipelines' entries in loop order |
| ScriptMap.FetchedMap | bhashini_api.py:45-59 | the same, with a failed request giving `{}` |
| ScriptMap.EntryReadable | bhashini_api.py:52-55 | the inner loop body runs on an entry without raising: it is an object, and when both codes are truthy the language code is not a list or an object |
| ScriptMap.UnhashableCodeRaises | bhashini_api.py:54-59 | one entry with truthy codes and a list or object as its language code makes the whole fetch raise, whatever the other entries hold |
| ScriptMap.ListLanguageCodeFailsImport | bhashini_api.py:54-59 | a reply whose only entry has `sourceLanguage` `["hi"]` and script `"Deva"` makes the fetch raise |
| ScriptMap.Pipelines | bhashini_api.py:50 | the sequence the outer loop visits: `data.get('pipelineModels', [])`, or none when the reply is not an object or that value cannot be iterated |
| ScriptMap.Languages | bhashini_api.py:51 | the sequence the inner loop visits: `pipeline.get('languages', [])`, or none when it cannot be iterated |
| ScriptMap.AllLanguages | bhashini_api.py:50-51 | all language entries in the order the nested loops visit them |
| Payloads.AsrTask | bhashini_api.py:91-104 | the asr task: its service and model ids, the source language and script, domain `general`, `wav` audio at 16000 Hz |
| Payloads.TranslationTask | bhashini_api.py:122-135 | the translation task: its service and model ids, source and target languages and scripts |
| Payloads.TtsTask | bhashini_api.py:153-165 | the tts task: its service and model ids, the language and script, the gender |
| Payloads.AsrPayload | bhashini_api.py:89-113 | the single asr task with the audio as input |
| Payloads.NmtPayload | bhashini_api.py:121-144 | the single translation task with the text as input |
| Payloads.TtsPayload | bhashini_api.py:151-174 | the single tts task with the text as input, gender `female` unless given |
| Payloads.AsrNmtPayload | bhashini_api.py:182-219 | asr then translation from the ASR language, with the audio as input |
| Payloads.AsrNmtTtsPayload | bhashini_api.py:227-276 | asr, translation, then tts in the target language with gender `female`, with the audio as input |
| Selection.Matches | bhashini_api.py:116 | a response entry answers the request when its `taskType` is the wanted one and its `output` is truthy |
| Selection.OutputField | bhashini_api.py:117 | `task_output['output'][0].get(field, '')`, or a shape error unless that output is a non-empty list whose first item is an object |
| Selection.Select | bhashini_api.py:116-118 | the scan: a non-object entry raises, the first entry of the wanted type with truthy `output` gives `output[0].get(field, '')` (raising unless `output` is a list whose first item is an object), and running off the end raises the message |
| Selection.SelectFromResponse | bhashini_api.py:115-118 | the scan over `response.get('pipelineResponse', [])`, raising when the reply is not an object or that value cannot be iterated |
| Payloads.AsrTaskFields | bhashini_api.py:91-104 | the asr task has type `asr` and carries the given language and script, with no target script |
| Payloads.TranslationTaskFields | bhashini_api.py:122-135 | the translation task has type `translation` and carries the given source and target languages and scripts |
| Payloads.TtsTaskFields | bhashini_api.py:153-165 | the tts task has type `tts` and carries the given language, script and gender |
| Payloads.SingleTaskShapes | bhashini_api.py:89-174 | the ASR, NMT and TTS bodies each hold exactly one task, of their own kind; TTS sends the gender it is given |
| Payloads.AsrNmtChain | bhashini_api.py:182-211 | two tasks, asr then translation; the translation's source language is the ASR language; both tasks equal the ones the single-task functions send |
| Payloads.AsrNmtTtsChain | bhashini_api.py:227-268 | three tasks, asr, translation, tts in order; translation source equals ASR source; TTS language equals translation target; gender `female`; the tts task equals what `bhashini_tts` sends with its default gender |
| Payloads.TaskScriptsAgree | bhashini_api.py:96-99 | each task built from looked-up scripts has every script field equal to the table's answer for the language beside it |
| Payloads.PayloadScriptsAgree | bhashini_api.py:88-276 | in all five bodies, each script-code field equals the lookup of the language field next to it |
| Selection.SelectOutput | bhashini_api.py:115-118 | the loop's outcome is the selection function's outcome, malformed-reply errors included |
| Selection.SelectFirstMatch | bhashini_api.py:115-117 | the first entry of the wanted type with non-empty `output` decides the result: the field of `output[0]`, `''` when absent |
| Selection.SelectNoMatch | bhashini_api.py:118 | when no entry matches, the function raises its own message |
| Selection.SelectOutcome | bhashini_api.py:115-118 | a returned value always comes from a first match; a raised message only arises when no entry matches |
| Selection.SelectSkipsPrefix | bhashini_api.py:146-148 | entries of another type, or with empty output, before the rest change nothing |
| Selection.MissingResponseRaises | bhashini_api.py:176-179 | a reply without `pipelineResponse` raises the task's message |
| Tasks.Asr | bhashini_api.py:88-118 | one lookup of the language; the ASR body with that script; the `source` of the asr output, or `"ASR failed to get transcription."` |
| Tasks.Nmt | bhashini_api.py:120-149 | lookups of source then target; the NMT body; the `target` of the translation output, or the translation error |
| Tasks.Tts | bhashini_api.py:151-179 | gender defaults to `female`; the TTS body; the `audioContent` of the tts output, or the TTS error |
| Tasks.AsrNmt | bhashini_api.py:181-224 | lookups of source (twice) and target; the two-task body; the translation's `target`, or the ASR-NMT error |
| Tasks.AsrNmtTts | bhashini_api.py:226-281 | lookups of source and target (twice each); the three-task body; the tts `audioContent`, or the ASR-NMT-TTS error |
| Tasks.AsrNmtAnswersTranslation | bhashini_api.py:220-223 | for a reply listing asr then translation, the ASR-NMT function answers with the translation's `target`, not the transcript |
| Tasks.AsrNmtTtsAnswersAudio | bhashini_api.py:277-280 | for a reply listing asr, translation, tts, the pipeline answers with the tts `audioContent` |
| LanguageUtils.FetchAvailableTranslationPairs | language_utils.py:25-42 | a failed request or a reply the loop cannot read gives `[]`; otherwise the result is strictly ascending and holds exactly the collected pairs |
| LanguageUtils.LanguageInfo | language_utils.py:32 | `item.get("config", {}).get("language", {})`, or a failure when the item or either value is not an object |
| LanguageUtils.ItemReadable | language_utils.py:32-36 | the loop body does not raise: the language object is readable and, when both languages are truthy, neither is a list or an object |
| LanguageUtils.ResponseItems | language_utils.py:31 | the sequence the loop visits: `data.get("pipelineResponse", [])`, or none when it cannot be iterated |
| Json.Unhashable | language_utils.py:36 | the JSON values Python cannot hash, as a dict key or inside a tuple added to a set: lists and objects |
| LanguageUtils.ItemPair | language_utils.py:33-36 | the pair an item contributes: `(src, tgt)` when both are non-empty strings, else none |
| LanguageUtils.Collected | language_utils.py:29-36 | `available_languages` after the loop: the union of the pairs the items contribute |
| LanguageUtils.UnhashableLanguageDiscardsReply | language_utils.py:36-42 | a truthy list among an item's languages makes the reply unreadable, so the result is `[]` even though an earlier item reports a good pair |
| LanguageUtils.StrLess | language_utils.py:38 | Python's `<` on strings: lexicographic by code point, a proper prefix first |
| LanguageUtils.PairLess | language_utils.py:38 | Python's `<` on pairs of strings: by the first component, then by the second |
| LanguageUtils.CollectedMembership | language_utils.py:31-36 | a pair is collected if and only if some item's `config.language` reports it with both languages non-empty |
| LanguageUtils.CollectedNonEmpty | language_utils.py:35-36 | collected pairs have both languages non-empty |
| LanguageUtils.SortPairs | language_utils.py:38 | the sorted list is strictly ascending and holds exactly the set's pairs |
| LanguageUtils.InsertSorted | language_utils.py:38 | inserting a new pair keeps the list strictly ascending and adds exactly that pair |
| LanguageUtils.StrictlySortedDistinct | language_utils.py:29 | the result holds no pair twice |
| LanguageUtils.StrictlySortedUnique | language_utils.py:38 | two strictly ascending lists with the same pairs are equal, so the result is the one sorted listing of the set |
| LanguageUtils.StrLessIrreflexive | language_utils.py:38 | no string sorts before itself |
| LanguageUtils.StrLessTransitive | language_utils.py:38 | string order is transitive |
| LanguageUtils.StrLessTotal | language_utils.py:38 | any two distinct strings are ordered one way or the other |
| LanguageUtils.PairLessTransitive | language_utils.py:38 | pair order is transitive |
| LanguageUtils.PairLessTotal | language_utils.py:38 | any two distinct pairs are ordered one way or the other |

## Left out

- **Transport.** The HTTP exchange is not modelled. This covers `requests.post`, `raise_for_status`, `response.json()` and the error re-wrapping in `bhashini_pipeline_request` (bhashini_api.py:72-86), and the same calls in language_utils.py:26-28.
  - The task methods take the decoded reply as a parameter and return the body they would send. A transport failure of a task function, which re-raises as `Exception`, is not modelled.
  - `fetch_supported_languages` and `fetch_available_translation_pairs` take `Option<Value>`, where `None` is a failed request.
- **Configuration and output.** Environment and credential loading, the missing-credential check, `HEADERS`, the URLs and every debug or status `print` (bhashini_api.py:8-32, 38-43, 58, 65-67; language_utils.py:5-23, 41) are I/O or configuration.
- **Other files.** app.py, utils.py and form_filler.py are not part of this model:
  - app.py is a UI that only dispatches to these functions;
  - utils.py is audio device I/O;
  - form_filler.py wraps a foreign NER model.
- ScriptMap.Kept: keeps an entry only when both codes are non-empty strings. Python also stores truthy hashable non-string values, such as a number or `true` as a code, and a script table of strings cannot hold them. An unhashable language code with truthy codes raises TypeError in Python, and the model raises there too (`EntryReadable`).
- LanguageUtils.ItemPair: collects a pair only when both languages are non-empty strings. When both are truthy and one is a list or an object, the tuple cannot be hashed, `add` raises and the whole reply yields `[]`; the model does the same (`ItemReadable`). A truthy number or `true` is hashable: Python adds such a pair (and sorting mixed types may then raise), while the model skips it.
- **JSON content.** JSON numbers are integers; floating-point values and their truthiness are not modelled. Objects are maps, so the key order of a body is not represented.
- Json.Iterable: iterating a non-empty string or object is treated as failing at once. In Python the iteration yields strings and the next `.get` on them raises, so the outcome is the same, but the exception type and the point where it occurs are not kept.
- Json.Error.Malformed: AttributeError, TypeError and KeyError are merged into one error and the exception text is not kept. Only the client's own `Exception` messages are exact.
- LanguageUtils.SortPairs: Python's built-in `sorted` is a library routine. The model replaces it with an insertion sort stated by its result (strictly ascending, same pairs), and `StrictlySortedUnique` shows that this result is unique.
- **Module structure.** `ScanLanguages` is the inner loop of `fetch_supported_languages`, written as a method of its own; the behaviour is that of the single Python function.
- **Strings.** A Dafny `string` holds only Unicode scalar values. A lone surrogate such as `"\ud800"`, which Python's `json` decodes into a `str`, has no `Json.Str` value here.
