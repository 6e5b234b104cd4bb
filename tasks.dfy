/**
 * The five task functions of bhashini_api.py. Each looks up the script codes of
 * its languages in the shared table (which a miss extends), builds its request
 * body, and selects its answer from the service's decoded reply. The HTTP
 * exchange is not modelled: the body is returned and the reply is a parameter.
 */
module Tasks {
  import opened Wrappers
  import opened Json
  import opened ScriptMap
  import opened Payloads
  import opened Selection

  const AsrFailure: string := "ASR failed to get transcription."
  const NmtFailure: string := "Translation failed to get output."
  const TtsFailure: string := "TTS failed to generate audio."
  const AsrNmtFailure: string := "ASR-NMT failed to return translation."
  const AsrNmtTtsFailure: string := "ASR-NMT-TTS failed to generate audio."

  /** `bhashini_asr`: the transcript, the `source` of the asr output. */
  method Asr(table: ScriptTable, audio: string, language: string, response: Value)
    returns (payload: Value, transcript: Result<Value, Error>)
    modifies table
    ensures table.entries == Touch(old(table.entries), language)
    ensures payload == AsrPayload(audio, language, ScriptOf(old(table.entries), language))
    ensures ScriptsAgree(payload, old(table.entries))
    ensures transcript == SelectFromResponse(response, "asr", "source", AsrFailure)
  {
    var script := table.Lookup(language);
    payload := AsrPayload(audio, language, script);
    PayloadScriptsAgree(old(table.entries), audio, "", language, language, DefaultGender);
    transcript := SelectOutput(response, "asr", "source", AsrFailure);
  }

  /** `bhashini_nmt`: the translation, the `target` of the translation output. */
  method Nmt(table: ScriptTable, text: string, source: string, target: string, response: Value)
    returns (payload: Value, translation: Result<Value, Error>)
    modifies table
    ensures table.entries == Touch(Touch(old(table.entries), source), target)
    ensures payload == NmtPayload(text, source, ScriptOf(old(table.entries), source), target, ScriptOf(old(table.entries), target))
    ensures ScriptsAgree(payload, old(table.entries))
    ensures translation == SelectFromResponse(response, "translation", "target", NmtFailure)
  {
    ghost var before := table.entries;
    var sourceScript := table.Lookup(source);
    var targetScript := table.Lookup(target);
    TouchUnobservable(before, source, target);
    payload := NmtPayload(text, source, sourceScript, target, targetScript);
    PayloadScriptsAgree(before, "", text, source, target, DefaultGender);
    translation := SelectOutput(response, "translation", "target", NmtFailure);
  }

  /** `bhashini_tts`: the audio, the `audioContent` of the tts output; the gender defaults to female. */
  method Tts(table: ScriptTable, text: string, language: string, response: Value, gender: string := DefaultGender)
    returns (payload: Value, audio: Result<Value, Error>)
    modifies table
    ensures table.entries == Touch(old(table.entries), language)
    ensures payload == TtsPayload(text, language, ScriptOf(old(table.entries), language), gender)
    ensures ScriptsAgree(payload, old(table.entries))
    ensures audio == SelectFromResponse(response, "tts", "audioContent", TtsFailure)
  {
    var script := table.Lookup(language);
    payload := TtsPayload(text, language, script, gender);
    PayloadScriptsAgree(old(table.entries), "", text, language, language, gender);
    audio := SelectOutput(response, "tts", "audioContent", TtsFailure);
  }

  /** `bhashini_asr_nmt`: speech in, the translation's `target` out. */
  method AsrNmt(table: ScriptTable, audio: string, source: string, target: string, response: Value)
    returns (payload: Value, translation: Result<Value, Error>)
    modifies table
    ensures table.entries == Touch(Touch(old(table.entries), source), target)
    ensures payload == AsrNmtPayload(audio, source, ScriptOf(old(table.entries), source), target, ScriptOf(old(table.entries), target))
    ensures ScriptsAgree(payload, old(table.entries))
    ensures translation == SelectFromResponse(response, "translation", "target", AsrNmtFailure)
  {
    ghost var before := table.entries;
    var asrScript := table.Lookup(source);
    var sourceScript := table.Lookup(source);
    var targetScript := table.Lookup(target);
    TouchUnobservable(before, source, source);
    TouchUnobservable(before, source, target);
    assert Touch(Touch(before, source), source) == Touch(before, source);
    assert asrScript == sourceScript;
    payload := AsrNmtPayload(audio, source, sourceScript, target, targetScript);
    PayloadScriptsAgree(before, audio, "", source, target, DefaultGender);
    translation := SelectOutput(response, "translation", "target", AsrNmtFailure);
  }

  /** `bhashini_asr_nmt_tts_pipeline`: speech in, synthesised speech in the target language out. */
  method AsrNmtTts(table: ScriptTable, audio: string, source: string, target: string, response: Value)
    returns (payload: Value, speech: Result<Value, Error>)
    modifies table
    ensures table.entries == Touch(Touch(old(table.entries), source), target)
    ensures payload == AsrNmtTtsPayload(audio, source, ScriptOf(old(table.entries), source), target, ScriptOf(old(table.entries), target))
    ensures ScriptsAgree(payload, old(table.entries))
    ensures speech == SelectFromResponse(response, "tts", "audioContent", AsrNmtTtsFailure)
  {
    ghost var before := table.entries;
    var asrScript := table.Lookup(source);
    var sourceScript := table.Lookup(source);
    var targetScript := table.Lookup(target);
    var ttsScript := table.Lookup(target);
    TouchUnobservable(before, source, source);
    TouchUnobservable(before, source, target);
    assert Touch(Touch(before, source), source) == Touch(before, source);
    assert Touch(Touch(Touch(before, source), target), target) == Touch(Touch(before, source), target);
    assert asrScript == sourceScript && targetScript == ttsScript;
    payload := AsrNmtTtsPayload(audio, source, sourceScript, target, targetScript);
    PayloadScriptsAgree(before, audio, "", source, target, DefaultGender);
    speech := SelectOutput(response, "tts", "audioContent", AsrNmtTtsFailure);
  }

  /** A reply entry of kind `taskType` whose output holds one item. */
  function Entry(taskType: string, item: map<string, Value>): Value {
    Obj(map["taskType" := Str(taskType), "output" := Arr([Obj(item)])])
  }

  /**
   * The reply to the speech-to-text pipeline lists the asr result first; the
   * function answers with the translation's `target`, not the transcript.
   */
  lemma AsrNmtAnswersTranslation(transcript: map<string, Value>, translated: map<string, Value>)
    ensures var response := Obj(map["pipelineResponse" := Arr([Entry("asr", transcript), Entry("translation", translated)])]);
      SelectFromResponse(response, "translation", "target", AsrNmtFailure)
        == Ok(if "target" in translated then translated["target"] else Str(""))
  {
    var entries := [Entry("asr", transcript), Entry("translation", translated)];
    SelectFirstMatch(entries, 1, "translation", "target", AsrNmtFailure);
  }

  /**
   * The reply to the speech-to-speech pipeline lists asr and translation
   * results before the tts one; the function answers with the audio.
   */
  lemma AsrNmtTtsAnswersAudio(transcript: map<string, Value>, translated: map<string, Value>, spoken: map<string, Value>)
    ensures var response := Obj(map["pipelineResponse" :=
        Arr([Entry("asr", transcript), Entry("translation", translated), Entry("tts", spoken)])]);
      SelectFromResponse(response, "tts", "audioContent", AsrNmtTtsFailure)
        == Ok(if "audioContent" in spoken then spoken["audioContent"] else Str(""))
  {
    var entries := [Entry("asr", transcript), Entry("translation", translated), Entry("tts", spoken)];
    SelectFirstMatch(entries, 2, "tts", "audioContent", AsrNmtTtsFailure);
  }
}
