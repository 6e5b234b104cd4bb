/**
 * The request bodies the five task functions of bhashini_api.py send to the
 * inference pipeline: an ordered list of pipeline tasks, each with its service,
 * model and language settings, and the input data. The script codes are
 * parameters here; the callers in module Tasks pass what the script table answers.
 */
module Payloads {
  import opened Json
  import opened ScriptMap

  const AsrServiceId: string := "ai4bharat/conformer-hi-gpu--t4"
  const AsrModelId: string := "648025f27cdd753e77f461a9"
  const NmtServiceId: string := "ai4bharat/indictrans-v2-all-gpu--t4"
  const NmtModelId: string := "641d1cd18ecee6735a1b372a"
  const TtsServiceId: string := "ai4bharat/indic-tts-coqui-misc-gpu--t4"
  const TtsModelId: string := "63f7384c2ff3ab138f88c64e"

  /** The gender `bhashini_tts` uses when its caller names none, and the one the speech-to-speech pipeline always uses. */
  const DefaultGender: string := "female"

  /** The speech recognition task for audio in `language`. */
  function AsrTask(language: string, script: string): Value {
    Obj(map[
      "taskType" := Str("asr"),
      "config" := Obj(map[
        "serviceId" := Str(AsrServiceId),
        "modelId" := Str(AsrModelId),
        "language" := Obj(map["sourceLanguage" := Str(language), "sourceScriptCode" := Str(script)]),
        "domain" := Arr([Str("general")]),
        "audioFormat" := Str("wav"),
        "samplingRate" := Num(16000)])])
  }

  /** The translation task from `source` to `target`. */
  function TranslationTask(source: string, sourceScript: string, target: string, targetScript: string): Value {
    Obj(map[
      "taskType" := Str("translation"),
      "config" := Obj(map[
        "serviceId" := Str(NmtServiceId),
        "modelId" := Str(NmtModelId),
        "language" := Obj(map[
          "sourceLanguage" := Str(source),
          "sourceScriptCode" := Str(sourceScript),
          "targetLanguage" := Str(target),
          "targetScriptCode" := Str(targetScript)])])])
  }

  /** The speech synthesis task for text in `language`. */
  function TtsTask(language: string, script: string, gender: string): Value {
    Obj(map[
      "taskType" := Str("tts"),
      "config" := Obj(map[
        "serviceId" := Str(TtsServiceId),
        "modelId" := Str(TtsModelId),
        "language" := Obj(map["sourceLanguage" := Str(language), "sourceScriptCode" := Str(script)]),
        "gender" := Str(gender)])])
  }

  function AudioInput(audio: string): Value {
    Obj(map["audio" := Arr([Obj(map["audioContent" := Str(audio)])])])
  }

  function TextInput(text: string): Value {
    Obj(map["text" := Arr([Obj(map["source" := Str(text)])])])
  }

  function Request(tasks: seq<Value>, input: Value): Value {
    Obj(map["pipelineTasks" := Arr(tasks), "inputData" := input])
  }

  /** The body `bhashini_asr` sends. */
  function AsrPayload(audio: string, language: string, script: string): Value {
    Request([AsrTask(language, script)], AudioInput(audio))
  }

  /** The body `bhashini_nmt` sends. */
  function NmtPayload(text: string, source: string, sourceScript: string, target: string, targetScript: string): Value {
    Request([TranslationTask(source, sourceScript, target, targetScript)], TextInput(text))
  }

  /** The body `bhashini_tts` sends. */
  function TtsPayload(text: string, language: string, script: string, gender: string := DefaultGender): Value {
    Request([TtsTask(language, script, gender)], TextInput(text))
  }

  /** The body `bhashini_asr_nmt` sends. */
  function AsrNmtPayload(audio: string, source: string, sourceScript: string, target: string, targetScript: string): Value {
    Request([AsrTask(source, sourceScript), TranslationTask(source, sourceScript, target, targetScript)],
            AudioInput(audio))
  }

  /** The body `bhashini_asr_nmt_tts_pipeline` sends. */
  function AsrNmtTtsPayload(audio: string, source: string, sourceScript: string, target: string, targetScript: string): Value {
    Request([AsrTask(source, sourceScript),
             TranslationTask(source, sourceScript, target, targetScript),
             TtsTask(target, targetScript, DefaultGender)],
            AudioInput(audio))
  }

  // ---------------------------------------------------------------------------
  // Reading a request body back
  // ---------------------------------------------------------------------------

  /** `payload["pipelineTasks"]`, or no tasks when it is absent or not a list. */
  function PipelineTasks(payload: Value): seq<Value> {
    if payload.Obj? && "pipelineTasks" in payload.fields && payload.fields["pipelineTasks"].Arr?
    then payload.fields["pipelineTasks"].items
    else []
  }

  /** `task["taskType"]`, `Null` when absent. */
  function TaskType(task: Value): Value {
    if task.Obj? then GetOr(task, "taskType", Null) else Null
  }

  /** `task["config"][key]`, `Null` when absent. */
  function ConfigField(task: Value, key: string): Value {
    if task.Obj? then
      var config := GetOr(task, "config", Null);
      if config.Obj? then GetOr(config, key, Null) else Null
    else Null
  }

  /** `task["config"]["language"][key]`, `Null` when absent. */
  function LanguageField(task: Value, key: string): Value {
    var language := ConfigField(task, "language");
    if language.Obj? then GetOr(language, key, Null) else Null
  }

  /** A script-code field, when present, holds what the table answers for the language field beside it. */
  predicate FieldAgrees(task: Value, languageKey: string, scriptKey: string, table: map<string, string>) {
    LanguageField(task, scriptKey) != Null ==>
      && LanguageField(task, languageKey).Str?
      && LanguageField(task, scriptKey) == Str(ScriptOf(table, LanguageField(task, languageKey).s))
  }

  /** Both of a task's script codes agree with the table. */
  predicate TaskAgrees(task: Value, table: map<string, string>) {
    && FieldAgrees(task, "sourceLanguage", "sourceScriptCode", table)
    && FieldAgrees(task, "targetLanguage", "targetScriptCode", table)
  }

  /** Every task's script codes agree with the table on the languages next to them. */
  predicate ScriptsAgree(payload: Value, table: map<string, string>) {
    forall i :: 0 <= i < |PipelineTasks(payload)| ==> TaskAgrees(PipelineTasks(payload)[i], table)
  }

  // ---------------------------------------------------------------------------
  // Properties of the five bodies
  // ---------------------------------------------------------------------------

  /** The fields of the asr task, read back. */
  lemma AsrTaskFields(language: string, script: string)
    ensures TaskType(AsrTask(language, script)) == Str("asr")
    ensures LanguageField(AsrTask(language, script), "sourceLanguage") == Str(language)
    ensures LanguageField(AsrTask(language, script), "sourceScriptCode") == Str(script)
    ensures LanguageField(AsrTask(language, script), "targetScriptCode") == Null
  {
  }

  /** The fields of the translation task, read back. */
  lemma TranslationTaskFields(source: string, sourceScript: string, target: string, targetScript: string)
    ensures TaskType(TranslationTask(source, sourceScript, target, targetScript)) == Str("translation")
    ensures LanguageField(TranslationTask(source, sourceScript, target, targetScript), "sourceLanguage") == Str(source)
    ensures LanguageField(TranslationTask(source, sourceScript, target, targetScript), "sourceScriptCode") == Str(sourceScript)
    ensures LanguageField(TranslationTask(source, sourceScript, target, targetScript), "targetLanguage") == Str(target)
    ensures LanguageField(TranslationTask(source, sourceScript, target, targetScript), "targetScriptCode") == Str(targetScript)
  {
  }

  /** The fields of the tts task, read back. */
  lemma TtsTaskFields(language: string, script: string, gender: string)
    ensures TaskType(TtsTask(language, script, gender)) == Str("tts")
    ensures LanguageField(TtsTask(language, script, gender), "sourceLanguage") == Str(language)
    ensures LanguageField(TtsTask(language, script, gender), "sourceScriptCode") == Str(script)
    ensures LanguageField(TtsTask(language, script, gender), "targetScriptCode") == Null
    ensures ConfigField(TtsTask(language, script, gender), "gender") == Str(gender)
  {
  }

  /** The single-task bodies hold one task each, of the kind their function is named for. */
  lemma SingleTaskShapes(audio: string, text: string, source: string, s1: string, target: string, s2: string, gender: string)
    ensures PipelineTasks(AsrPayload(audio, source, s1)) == [AsrTask(source, s1)]
    ensures TaskType(AsrTask(source, s1)) == Str("asr")
    ensures PipelineTasks(NmtPayload(text, source, s1, target, s2)) == [TranslationTask(source, s1, target, s2)]
    ensures TaskType(TranslationTask(source, s1, target, s2)) == Str("translation")
    ensures PipelineTasks(TtsPayload(text, target, s2, gender)) == [TtsTask(target, s2, gender)]
    ensures TaskType(TtsTask(target, s2, gender)) == Str("tts")
    ensures ConfigField(TtsTask(target, s2, gender), "gender") == Str(gender)
  {
  }

  /**
   * Speech to text translation: an asr task, then a translation task that
   * starts from the language the speech was recognised in; both tasks are the
   * ones `bhashini_asr` and `bhashini_nmt` send on their own.
   */
  lemma AsrNmtChain(audio: string, source: string, s1: string, target: string, s2: string)
    ensures var tasks := PipelineTasks(AsrNmtPayload(audio, source, s1, target, s2));
      && |tasks| == 2
      && TaskType(tasks[0]) == Str("asr")
      && TaskType(tasks[1]) == Str("translation")
      && LanguageField(tasks[0], "sourceLanguage") == Str(source)
      && LanguageField(tasks[1], "sourceLanguage") == LanguageField(tasks[0], "sourceLanguage")
      && LanguageField(tasks[1], "targetLanguage") == Str(target)
      && tasks[0] == PipelineTasks(AsrPayload(audio, source, s1))[0]
      && tasks[1] == PipelineTasks(NmtPayload("", source, s1, target, s2))[0]
  {
  }

  /**
   * Speech to speech translation: asr, translation, tts in that order; the
   * translation starts from the recognised language and the synthesis speaks
   * the translation's target language with the default gender, exactly as the
   * task `bhashini_tts` sends when no gender is given.
   */
  lemma AsrNmtTtsChain(audio: string, text: string, source: string, s1: string, target: string, s2: string)
    ensures var tasks := PipelineTasks(AsrNmtTtsPayload(audio, source, s1, target, s2));
      && |tasks| == 3
      && TaskType(tasks[0]) == Str("asr")
      && TaskType(tasks[1]) == Str("translation")
      && TaskType(tasks[2]) == Str("tts")
      && LanguageField(tasks[0], "sourceLanguage") == Str(source)
      && LanguageField(tasks[1], "sourceLanguage") == LanguageField(tasks[0], "sourceLanguage")
      && LanguageField(tasks[1], "targetLanguage") == Str(target)
      && LanguageField(tasks[2], "sourceLanguage") == LanguageField(tasks[1], "targetLanguage")
      && ConfigField(tasks[2], "gender") == Str("female")
      && tasks[2] == PipelineTasks(TtsPayload(text, target, s2))[0]
  {
    AsrTaskFields(source, s1);
    TranslationTaskFields(source, s1, target, s2);
    TtsTaskFields(target, s2, DefaultGender);
  }

  /** Each task built from looked-up script codes agrees with the table. */
  lemma TaskScriptsAgree(table: map<string, string>, source: string, target: string, gender: string)
    ensures TaskAgrees(AsrTask(source, ScriptOf(table, source)), table)
    ensures TaskAgrees(TranslationTask(source, ScriptOf(table, source), target, ScriptOf(table, target)), table)
    ensures TaskAgrees(TtsTask(target, ScriptOf(table, target), gender), table)
  {
    AsrTaskFields(source, ScriptOf(table, source));
    TranslationTaskFields(source, ScriptOf(table, source), target, ScriptOf(table, target));
    TtsTaskFields(target, ScriptOf(table, target), gender);
  }

  /** A body agrees with the table when each of its tasks does. */
  lemma RequestScriptsAgree(tasks: seq<Value>, input: Value, table: map<string, string>)
    requires forall i :: 0 <= i < |tasks| ==> TaskAgrees(tasks[i], table)
    ensures ScriptsAgree(Request(tasks, input), table)
  {
    assert PipelineTasks(Request(tasks, input)) == tasks;
  }

  /** When each script code is looked up for the language beside it, every body agrees with the table. */
  lemma PayloadScriptsAgree(table: map<string, string>, audio: string, text: string, source: string, target: string, gender: string)
    ensures ScriptsAgree(AsrPayload(audio, source, ScriptOf(table, source)), table)
    ensures ScriptsAgree(NmtPayload(text, source, ScriptOf(table, source), target, ScriptOf(table, target)), table)
    ensures ScriptsAgree(TtsPayload(text, target, ScriptOf(table, target), gender), table)
    ensures ScriptsAgree(AsrNmtPayload(audio, source, ScriptOf(table, source), target, ScriptOf(table, target)), table)
    ensures ScriptsAgree(AsrNmtTtsPayload(audio, source, ScriptOf(table, source), target, ScriptOf(table, target)), table)
  {
    TaskScriptsAgree(table, source, target, gender);
    TaskScriptsAgree(table, source, target, DefaultGender);
    var asr := AsrTask(source, ScriptOf(table, source));
    var nmt := TranslationTask(source, ScriptOf(table, source), target, ScriptOf(table, target));
    var tts := TtsTask(target, ScriptOf(table, target), gender);
    var ttsDefault := TtsTask(target, ScriptOf(table, target), DefaultGender);
    RequestScriptsAgree([asr], AudioInput(audio), table);
    RequestScriptsAgree([nmt], TextInput(text), table);
    RequestScriptsAgree([tts], TextInput(text), table);
    RequestScriptsAgree([asr, nmt], AudioInput(audio), table);
    RequestScriptsAgree([asr, nmt, ttsDefault], AudioInput(audio), table);
  }
}
