/**
 * The session orchestrator of SignboardReader.tsx: the state record, its
 * initial value, the record updates of `toggleActive` and `onLanguageChange`,
 * `runOcr` (a single-flight capture -> recognize -> speak pass with a `finally`
 * that clears the processing flag) and the replay button.
 *
 * `runOcr` is an async function. It is modelled in two steps, split at its
 * first `await`: `RequestScan` (the guard, the flag, the "Scanning…" status and
 * the call of `captureImage`) and `CompleteScan` (everything after the capture
 * resolves). Other transitions may run between the two, which is what makes the
 * single-flight guard matter; `RunOcr` is the two back to back.
 */
module SignboardReader {
  import opened Wrappers
  import opened Speech
  import JsText

  /** The component's state record. `error` is None for JavaScript's `null`. */
  datatype State = State(
    isActive: bool,
    isProcessing: bool,
    recognizedText: string,
    currentLanguage: Lang,
    status: string,
    error: Option<string>)

  const ClapToActivate: string := "Clap to activate camera."
  const CameraActivated: string := "Camera activated! Point at text."
  const CameraDeactivated: string := "Camera deactivated."
  const Scanning: string := "Scanning\U{2026}"
  const TextRecognized: string := "Text recognized. Speaking\U{2026}"
  const NoTextDetected: string := "No text detected. Try again."
  const NoFrameCaptured: string := "No frame captured"
  const OcrFailed: string := "OCR failed"

  /** What `toggleActive` says aloud when entering (true) or leaving (false) the active state. */
  function Announcement(active: bool): string {
    if active then "SignBoard Reader activated. Point the camera at text." else "SignBoard Reader deactivated."
  }

  /** What `onLanguageChange` says aloud, in the language just selected. */
  function LanguageName(lang: Lang): string {
    if lang == Eng then "English selected" else if lang == Hin then "हिंदी चयनित" else "తెలుగు ఎంపికైంది"
  }

  /** The state the component starts with. */
  function InitialState(): State {
    State(false, false, "", Eng, ClapToActivate, None)
  }

  /** `toggleActive`'s updater: flip the active flag, set its status, clear the error. */
  function Toggled(s: State): State {
    var next := !s.isActive;
    s.(isActive := next, status := if next then CameraActivated else CameraDeactivated, error := None)
  }

  /** `onLanguageChange`'s updater. */
  function WithLanguage(s: State, lang: Lang): State {
    s.(currentLanguage := lang)
  }

  /** What the OCR engine gave back: its text (None when `data?.text` is missing), or a thrown error. */
  datatype OcrOutcome = OcrText(text: Option<string>) | OcrError(message: Option<string>)

  /** `data?.text?.trim() || ''`. */
  function RecognizedText(raw: Option<string>): string {
    if raw.Some? then JsText.Trim(raw.value) else ""
  }

  /** `!image`: the capture gave nothing, or an empty string. */
  predicate IsMissingImage(image: Option<string>) {
    image.None? || image.value == ""
  }

  /** toggleActive: the active flag flips, its status text follows, the error is cleared and nothing else changes. */
  lemma ToggleEffect(s: State)
    ensures var r := Toggled(s);
      && r.isActive == !s.isActive
      && r.status == (if r.isActive then CameraActivated else CameraDeactivated)
      && r.error == None
      && r == s.(isActive := r.isActive, status := r.status, error := None)
  {
  }

  /**
   * Toggling twice restores the active flag and leaves no error, but the status
   * is the activated or deactivated text, never the initial one.
   */
  lemma ToggleTwice(s: State)
    ensures var r := Toggled(Toggled(s));
      && r.isActive == s.isActive
      && r.error == None
      && r.status == (if s.isActive then CameraActivated else CameraDeactivated)
      && r.status != ClapToActivate
      && r == s.(status := r.status, error := None)
  {
  }

  /** onLanguageChange changes only the language. */
  lemma LanguageChangeEffect(s: State, lang: Lang)
    ensures var r := WithLanguage(s, lang);
      && r.currentLanguage == lang
      && r.isActive == s.isActive && r.isProcessing == s.isProcessing
      && r.recognizedText == s.recognizedText && r.status == s.status && r.error == s.error
  {
  }

  /** The stored OCR text never starts or ends with white space, and is "" when nothing came back. */
  lemma RecognizedTextTrimmed(raw: Option<string>)
    ensures var t := RecognizedText(raw);
      && (raw.None? ==> t == "")
      && (t != "" ==> !JsText.IsWhiteSpace(t[0]) && !JsText.IsWhiteSpace(t[|t| - 1]))
      && (raw.Some? ==> (t == "" <==> forall k :: 0 <= k < |raw.value| ==> JsText.IsWhiteSpace(raw.value[k])))
  {
    if raw.Some? {
      var _ := JsText.TrimIsInfix(raw.value);
      JsText.TrimEmptyIff(raw.value);
    }
  }

  /**
   * The state once the `try`/`catch` of `runOcr` is done, before its `finally`:
   * a missing image or an OCR error is stored in `error`; OCR text is stored
   * trimmed, with the status saying whether there was any.
   */
  function Scanned(s: State, image: Option<string>, ocr: OcrOutcome): State {
    if IsMissingImage(image) then s.(error := Some(NoFrameCaptured))
    else match ocr
      case OcrError(message) => s.(error := Some(message.GetOr(OcrFailed)))
      case OcrText(raw) =>
        var text := RecognizedText(raw);
        s.(recognizedText := text, status := if text != "" then TextRecognized else NoTextDetected)
  }

  /** The text `runOcr` hands to `speak`, if any. */
  function SpokenText(image: Option<string>, ocr: OcrOutcome): Option<string> {
    if !IsMissingImage(image) && ocr.OcrText? && RecognizedText(ocr.text) != "" then Some(RecognizedText(ocr.text))
    else None
  }

  /**
   * The three ways a started scan ends. A missing image sets only `error`, to
   * "No frame captured", and the status stays "Scanning…"; an OCR error sets only
   * `error`, to its message or "OCR failed"; OCR text sets the trimmed text and
   * its status and keeps the error. The flags and the language never change.
   */
  lemma ScannedCases(s: State, image: Option<string>, ocr: OcrOutcome)
    ensures var r := Scanned(s, image, ocr);
      && r.isActive == s.isActive && r.isProcessing == s.isProcessing && r.currentLanguage == s.currentLanguage
      && (IsMissingImage(image) ==> r == s.(error := Some(NoFrameCaptured)))
      && (!IsMissingImage(image) && ocr.OcrError? ==> r == s.(error := Some(ocr.message.GetOr(OcrFailed))))
      && (!IsMissingImage(image) && ocr.OcrText? ==>
            && r.recognizedText == RecognizedText(ocr.text) && r.error == s.error
            && r.status == (if r.recognizedText != "" then TextRecognized else NoTextDetected)
            && r == s.(recognizedText := r.recognizedText, status := r.status))
  {
  }

  /**
   * `speak` is called, with the stored text, exactly when the capture worked, the
   * OCR engine gave text, and that text is not empty after trimming.
   */
  lemma SpokenTextIsStoredText(s: State, image: Option<string>, ocr: OcrOutcome)
    ensures SpokenText(image, ocr).Some? <==>
      !IsMissingImage(image) && ocr.OcrText? && Scanned(s, image, ocr).recognizedText != ""
    ensures SpokenText(image, ocr).Some? ==> SpokenText(image, ocr).value == Scanned(s, image, ocr).recognizedText
  {
  }

  /** With text "  STOP  " from the OCR engine, "STOP" is stored, announced and spoken. */
  lemma StopSign(s: State, image: string)
    requires image != ""
    ensures var r := Scanned(s, Some(image), OcrText(Some("  STOP  ")));
      r.recognizedText == "STOP" && r.status == TextRecognized
    ensures SpokenText(Some(image), OcrText(Some("  STOP  "))) == Some("STOP")
  {
    JsText.TrimPadded();
  }

  /**
   * One running session: the component's state, `processingRef`, and the calls
   * it makes to the outside (captures, OCR requests, utterances).
   */
  class Session {
    var state: State
    /** `processingRef.current`. */
    var processing: bool
    /** How many times `captureImage` was called. */
    var captures: nat
    /** The images and languages handed to the OCR engine, oldest first. */
    var recognitions: seq<(string, Lang)>
    /** Every utterance handed to `speechSynthesis.speak`, oldest first. */
    var spoken: seq<Utterance>
    /** The utterances the synthesizer still holds: `cancel()` empties it, `speak` appends. */
    var queue: seq<Utterance>

    /**
     * The ref and the state flag agree, and since every `speak` cancels first,
     * the synthesizer holds at most the latest utterance.
     */
    ghost predicate Valid()
      reads this
    {
      && processing == state.isProcessing
      && |queue| <= 1
      && (queue != [] ==> spoken != [] && queue[0] == spoken[|spoken| - 1])
    }

    /** A fresh session in its initial state, having called nothing. */
    constructor ()
      ensures Valid()
      ensures state == InitialState()
      ensures state.isActive == false && state.isProcessing == false && state.recognizedText == ""
      ensures state.currentLanguage == Eng && state.status == ClapToActivate && state.error == None
      ensures !processing && captures == 0 && recognitions == [] && spoken == [] && queue == []
    {
      state := InitialState();
      processing := false;
      captures := 0;
      recognitions := [];
      spoken := [];
      queue := [];
    }

    /** `speak(text, lang)`: nothing without speech synthesis; otherwise cancel, then speak. */
    method Speak(platform: Platform, text: string, lang: Lang)
      requires Valid()
      modifies this`spoken, this`queue
      ensures Valid()
      ensures var u := Speech.Speak(platform, text, lang);
        if u.Some? then spoken == old(spoken) + [u.value] && queue == [u.value]
        else spoken == old(spoken) && queue == old(queue)
    {
      var u := Speech.Speak(platform, text, lang);
      if u.Some? {
        queue := [];
        queue := queue + [u.value];
        spoken := spoken + [u.value];
      }
    }

    /** `toggleActive`: update the state and announce the change in the current language. */
    method ToggleActive(platform: Platform)
      requires Valid()
      modifies this
      ensures Valid()
      ensures state == Toggled(old(state))
      ensures processing == old(processing) && captures == old(captures) && recognitions == old(recognitions)
      ensures var u := Speech.Speak(platform, Announcement(state.isActive), old(state.currentLanguage));
        && spoken == old(spoken) + (if u.Some? then [u.value] else [])
        && queue == (if u.Some? then [u.value] else old(queue))
    {
      var lang := state.currentLanguage;
      state := Toggled(state);
      Speak(platform, Announcement(state.isActive), lang);
    }

    /** `onLanguageChange(lang)`: switch the language and name it aloud in that language. */
    method OnLanguageChange(platform: Platform, lang: Lang)
      requires Valid()
      modifies this
      ensures Valid()
      ensures state == WithLanguage(old(state), lang)
      ensures processing == old(processing) && captures == old(captures) && recognitions == old(recognitions)
      ensures var u := Speech.Speak(platform, LanguageName(lang), lang);
        && spoken == old(spoken) + (if u.Some? then [u.value] else [])
        && queue == (if u.Some? then [u.value] else old(queue))
    {
      state := WithLanguage(state, lang);
      Speak(platform, LanguageName(lang), lang);
    }

    /**
     * The start of `runOcr`, up to its first `await`: rejected without any effect
     * while a scan is in flight; otherwise the flag is set, the status becomes
     * "Scanning…" and `captureImage` is called. The active flag is not consulted.
     */
    method RequestScan() returns (started: bool)
      requires Valid()
      modifies this
      ensures Valid()
      ensures started <==> !old(processing)
      ensures !started ==>
        state == old(state) && processing && captures == old(captures)
      ensures started ==>
        state == old(state).(isProcessing := true, status := Scanning) && processing && captures == old(captures) + 1
      ensures recognitions == old(recognitions) && spoken == old(spoken) && queue == old(queue)
    {
      if processing {
        return false;
      }
      processing := true;
      state := state.(isProcessing := true, status := Scanning);
      captures := captures + 1;
      started := true;
    }

    /**
     * The rest of `runOcr`, once the capture has resolved to `image`: recognize in
     * `lang` (the language the callback was created with), store and speak the
     * text, or record the error; in every case the `finally` clears the flag.
     */
    method CompleteScan(platform: Platform, lang: Lang, image: Option<string>, ocr: OcrOutcome)
      requires Valid() && processing
      modifies this
      ensures Valid()
      ensures !processing && state == Scanned(old(state), image, ocr).(isProcessing := false)
      ensures captures == old(captures)
      ensures recognitions == old(recognitions) + (if IsMissingImage(image) then [] else [(image.value, lang)])
      ensures var t := SpokenText(image, ocr);
        var u := if t.Some? then Speech.Speak(platform, t.value, lang) else None;
        && spoken == old(spoken) + (if u.Some? then [u.value] else [])
        && queue == (if u.Some? then [u.value] else old(queue))
    {
      if !IsMissingImage(image) {
        recognitions := recognitions + [(image.value, lang)];
      }
      state := Scanned(state, image, ocr);
      var text := SpokenText(image, ocr);
      if text.Some? {
        Speak(platform, text.value, lang);
      }
      processing := false;
      state := state.(isProcessing := false);
    }

    /**
     * `runOcr` with nothing running in between: a rejected request changes
     * nothing; a started one always ends with the flag cleared.
     */
    method RunOcr(platform: Platform, lang: Lang, image: Option<string>, ocr: OcrOutcome) returns (started: bool)
      requires Valid()
      modifies this
      ensures Valid()
      ensures started <==> !old(processing)
      ensures !started ==> state == old(state) && captures == old(captures) && recognitions == old(recognitions)
                           && spoken == old(spoken) && queue == old(queue)
      ensures started ==> !processing && !state.isProcessing && captures == old(captures) + 1
      ensures started ==> state.isActive == old(state.isActive) && state.currentLanguage == old(state.currentLanguage)
      ensures started ==> state == Scanned(old(state).(status := Scanning), image, ocr)
      ensures started ==> recognitions == old(recognitions) + (if IsMissingImage(image) then [] else [(image.value, lang)])
      ensures started ==> var t := SpokenText(image, ocr);
        var u := if t.Some? then Speech.Speak(platform, t.value, lang) else None;
        && spoken == old(spoken) + (if u.Some? then [u.value] else [])
        && queue == (if u.Some? then [u.value] else old(queue))
    {
      started := RequestScan();
      if started {
        CompleteScan(platform, lang, image, ocr);
      }
    }

    /** The "Speak Again" button: speak the stored text, only when there is some. */
    method Replay(platform: Platform)
      requires Valid()
      modifies this
      ensures Valid()
      ensures state == old(state) && processing == old(processing)
      ensures captures == old(captures) && recognitions == old(recognitions)
      ensures var u := Speech.Speak(platform, state.recognizedText, state.currentLanguage);
        var said := state.recognizedText != "" && u.Some?;
        && spoken == old(spoken) + (if said then [u.value] else [])
        && queue == (if said then [u.value] else old(queue))
    {
      if state.recognizedText != "" {
        Speak(platform, state.recognizedText, state.currentLanguage);
      }
    }
  }

  /**
   * A session from start: a clap activates it, a scan of a sign reading
   * "  STOP  " stores and speaks "STOP", and a scan that captures nothing only
   * sets the capture error.
   */
  method StopSignScenario(platform: Platform)
    requires platform.speechSupported
  {
    var session := new Session();
    session.ToggleActive(platform);
    assert session.state.isActive && session.state.status == CameraActivated;
    JsText.TrimPadded();
    var started := session.RunOcr(platform, Eng, Some("data:image/png"), OcrText(Some("  STOP  ")));
    assert started && session.state.recognizedText == "STOP" && session.state.status == TextRecognized;
    assert session.spoken[|session.spoken| - 1].text == "STOP";
    started := session.RunOcr(platform, Eng, None, OcrText(None));
    assert started && session.state.error == Some(NoFrameCaptured) && !session.state.isProcessing;
    assert session.state.isActive && session.state.recognizedText == "STOP" && session.state.status == Scanning;
  }
}
