/**
 * The TextToSpeech component: an effect that, when speech is supported,
 * `autoSpeak` is on and there is text, speaks it with a voice chosen by the
 * same hint/voice/fallback rule that SignboardReader's `speak` uses (the
 * component writes that rule out a second time; `AgreesWithSpeak` shows the
 * two copies choose alike).
 */
module TextToSpeech {
  import opened Wrappers
  import opened Speech

  /**
   * The utterance the effect hands to the platform, or None when its guard
   * returns early. `supported` is the component's state flag; `autoSpeak` is
   * the optional prop, None when the caller leaves it out (it then defaults to false).
   */
  function AutoSpeak(supported: bool, autoSpeak: Option<bool>, text: string, language: Lang,
                     voices: seq<Voice>): (r: Option<Utterance>)
    ensures r.Some? <==> supported && autoSpeak == Some(true) && text != ""
    ensures r.Some? ==> r.value.text == text
  {
    if !supported || !autoSpeak.GetOr(false) || text == "" then None
    else
      var hint := if language == Eng then "en-" else if language == Hin then "hi-" else "te-";
      var v := FindVoice(voices, hint);
      var locale := if v.Some? && v.value.lang != "" then v.value.lang
                    else if language == Eng then "en-US" else if language == Hin then "hi-IN" else "te-IN";
      Some(Utterance(text, locale, v))
  }

  /** The component's prefix hint is 'en-', 'hi-' and 'te-' for the three languages. */
  lemma HintMapping(text: string, voices: seq<Voice>)
    requires text != ""
    ensures forall language: Lang ::
      AutoSpeak(true, Some(true), text, language, voices).value.voice == FindVoice(voices, Hint(language))
    ensures Hint(Eng) == "en-" && Hint(Hin) == "hi-" && Hint(Tel) == "te-"
  {
  }

  /**
   * For every language and every voice list, the effect picks the same voice
   * and locale as `speak` does when both are allowed to speak.
   */
  lemma AgreesWithSpeak(text: string, language: Lang, voices: seq<Voice>)
    requires text != ""
    ensures AutoSpeak(true, Some(true), text, language, voices) == Speak(Platform(true, voices), text, language)
  {
  }

  /** The component speaks nothing for its default `autoSpeak`, whatever text and voices it gets. */
  lemma SilentByDefault(supported: bool, text: string, language: Lang, voices: seq<Voice>)
    ensures AutoSpeak(supported, None, text, language, voices) == None
  {
  }
}
