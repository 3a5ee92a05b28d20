/**
 * The speech side of the app: the three languages, the platform's installed
 * voices, and `speak(text, lang)` of SignboardReader.tsx, which picks a voice
 * whose locale starts with the language's prefix hint and otherwise falls back
 * to a fixed locale per language.
 */
module Speech {
  import opened Wrappers

  /** The OCR and speech languages, named by their three-letter OCR codes. */
  datatype Lang = Eng | Hin | Tel

  /** An installed platform voice; `lang` is its BCP 47 locale tag. */
  datatype Voice = Voice(name: string, lang: string)

  /** What the platform is asked to speak: the text, the locale, and the voice when one was chosen. */
  datatype Utterance = Utterance(text: string, locale: string, voice: Option<Voice>)

  /** The part of the browser that speech depends on: whether speech synthesis exists, and its voices. */
  datatype Platform = Platform(speechSupported: bool, voices: seq<Voice>)

  /** JavaScript's `s.startsWith(prefix)`. */
  predicate StartsWith(s: string, prefix: string) {
    |prefix| <= |s| && s[..|prefix|] == prefix
  }

  /** The locale prefix a voice must have to be preferred for `lang`. */
  function Hint(lang: Lang): string {
    if lang == Eng then "en-" else if lang == Hin then "hi-" else "te-"
  }

  /** The locale used when no installed voice matches the hint. */
  function FallbackLocale(lang: Lang): string {
    if lang == Eng then "en-US" else if lang == Hin then "hi-IN" else "te-IN"
  }

  /** `voices.find(v => v.lang.startsWith(hint))`: the first matching voice, if any. */
  function FindVoice(voices: seq<Voice>, hint: string): (r: Option<Voice>)
    ensures r.Some? ==> r.value in voices && StartsWith(r.value.lang, hint)
    ensures r.None? <==> forall i :: 0 <= i < |voices| ==> !StartsWith(voices[i].lang, hint)
  {
    if voices == [] then None
    else if StartsWith(voices[0].lang, hint) then Some(voices[0])
    else FindVoice(voices[1..], hint)
  }

  /** The voice found is the one at the first matching position, and no other. */
  lemma {:induction false} FindVoiceFirst(voices: seq<Voice>, hint: string, i: nat)
    requires i < |voices| && StartsWith(voices[i].lang, hint)
    requires forall j :: 0 <= j < i ==> !StartsWith(voices[j].lang, hint)
    ensures FindVoice(voices, hint) == Some(voices[i])
  {
    if i > 0 {
      assert !StartsWith(voices[0].lang, hint);
      forall j | 0 <= j < i - 1
        ensures !StartsWith(voices[1..][j].lang, hint)
      {
        assert voices[1..][j] == voices[j + 1];
      }
      FindVoiceFirst(voices[1..], hint, i - 1);
    }
  }

  /** Conversely, a found voice sits at some position before which nothing matches. */
  lemma {:induction false} FindVoiceIsFirst(voices: seq<Voice>, hint: string) returns (i: nat)
    requires FindVoice(voices, hint).Some?
    ensures i < |voices| && voices[i] == FindVoice(voices, hint).value
    ensures forall j :: 0 <= j < i ==> !StartsWith(voices[j].lang, hint)
  {
    if StartsWith(voices[0].lang, hint) {
      i := 0;
    } else {
      var k := FindVoiceIsFirst(voices[1..], hint);
      i := k + 1;
      forall j | 0 <= j < i
        ensures !StartsWith(voices[j].lang, hint)
      {
        if j > 0 { assert voices[j] == voices[1..][j - 1]; }
      }
    }
  }

  /** `preferred?.lang || fallback`: the voice's locale unless it is missing or empty. */
  function ChosenLocale(preferred: Option<Voice>, lang: Lang): string {
    if preferred.Some? && preferred.value.lang != "" then preferred.value.lang else FallbackLocale(lang)
  }

  /** Every fallback locale starts with its language's hint. */
  lemma FallbackMatchesHint(lang: Lang)
    ensures StartsWith(FallbackLocale(lang), Hint(lang))
  {
  }

  /**
   * `speak(text, lang)`: nothing when speech synthesis is unsupported; otherwise
   * the utterance handed to `speechSynthesis.speak` after `cancel()`.
   */
  function Speak(platform: Platform, text: string, lang: Lang): (r: Option<Utterance>)
    ensures r.Some? <==> platform.speechSupported
    ensures r.Some? ==> r.value.text == text && StartsWith(r.value.locale, Hint(lang))
    ensures r.Some? ==> r.value.voice == FindVoice(platform.voices, Hint(lang))
    ensures r.Some? && r.value.voice.Some? ==> r.value.locale == r.value.voice.value.lang
    ensures r.Some? && r.value.voice.None? ==> r.value.locale == FallbackLocale(lang)
  {
    if !platform.speechSupported then None
    else
      var preferred := FindVoice(platform.voices, Hint(lang));
      FallbackMatchesHint(lang);
      Some(Utterance(text, ChosenLocale(preferred, lang), preferred))
  }

  /** With no installed voice for the hint, the fallback locale is used and no voice is set. */
  lemma SpeakFallback(platform: Platform, text: string, lang: Lang)
    requires platform.speechSupported
    requires forall i :: 0 <= i < |platform.voices| ==> !StartsWith(platform.voices[i].lang, Hint(lang))
    ensures Speak(platform, text, lang) == Some(Utterance(text, FallbackLocale(lang), None))
  {
  }

  /** With a matching voice at position `i` and none before it, that voice and its locale are used. */
  lemma SpeakPrefersFirstMatch(platform: Platform, text: string, lang: Lang, i: nat)
    requires platform.speechSupported
    requires i < |platform.voices| && StartsWith(platform.voices[i].lang, Hint(lang))
    requires forall j :: 0 <= j < i ==> !StartsWith(platform.voices[j].lang, Hint(lang))
    ensures var v := platform.voices[i]; Speak(platform, text, lang) == Some(Utterance(text, v.lang, Some(v)))
  {
    FindVoiceFirst(platform.voices, Hint(lang), i);
  }
}
