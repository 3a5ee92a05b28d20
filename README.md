# Signboard reader: a Dafny model of its deterministic core

The signboard reader is a browser app. A clap turns the camera on or off. A
scan captures a video frame, runs OCR on it in English, Hindi or Telugu, and
reads the recognized text aloud. This project models the four pieces of its
logic that do not depend on the browser, and proves their properties:

- **AudioDetector** (`audio_detector.dfy`): the per-tick clap detector. It
  scans the analyser's byte buffer for its minimum and maximum (`ScanPeaks`, a
  loop over an `array`) and computes the amplitude `(max - min) / 255`. A
  `ClapDetector` class holds `lastClapRef`. Its `Tick` reports a clap when the
  amplitude is above 0.6 and more than 1200 ms have passed since the last clap.
  The class keeps a log of reported clap times. Its invariant is that
  consecutive claps are more than 1200 ms apart, and the first is after 1200 ms.
- **CameraView** (`camera_view.dfy`): `captureImage`. It returns nothing when
  there is no video element, when a frame dimension is 0, or when there is no
  2D context. Otherwise the image is sized by `scale = min(1, 1280 / w)` with
  floored dimensions, computed in exact arithmetic.
- **Speech** and **TextToSpeech** (`speech.dfy`, `text_to_speech.dfy`): the
  locale choice of `speak`. Each language maps to a prefix hint. The first
  installed voice whose locale starts with the hint is used, otherwise a fixed
  fallback locale. The TextToSpeech component writes the same rule out a second
  time behind its guard, and the model proves the two copies agree.
- **SignboardReader** (`signboard_reader.dfy`): the session orchestrator. It
  has the state record and its initial value, the pure record updates of
  `toggleActive` and `onLanguageChange`, and a `Session` class. The class holds
  the state, `processingRef`, and logs of the calls the session makes:
  captures, OCR requests, and utterances (a cancel-then-speak queue that holds
  at most one). `runOcr` is split at its first `await`. `RequestScan` is the
  single-flight guard and the "Scanning…" step. `CompleteScan` covers
  recognition, speech and the `finally`. `RunOcr` runs the two back to back.
- **JsText** (`js_text.dfy`): JavaScript's `String.prototype.trim`, which
  the OCR text passes through. **Wrappers** (`wrappers.dfy`): `Option`.

Platform inputs become parameters:
- the filled audio buffer and the value of `performance.now()`;
- the video element's size and whether a 2D context exists;
- the captured image and what the OCR engine returned or threw;
- whether speech synthesis exists, and the list of installed voices.

Time is a `real` in milliseconds. Amplitudes are exact rationals. The amplitude
test `> 0.6` is the same as the byte test `max - min >= 154`
(`ThresholdAsBytes`): a spread of 153 gives exactly 0.6, which is not above the
threshold. The same holds in doubles, because 153/255 rounds to the same double
as the literal 0.6.

Behaviour of the code that the model keeps as it is:
- The debounce test is strict: `now - lastClap > 1200` (app/components/AudioDetector.tsx:52).
- The sample buffer holds `frequencyBinCount` bytes. That is half the FFT
  size of 1024, so 512 (app/components/AudioDetector.tsx:30,33).
- `runOcr` does not check `isActive` (app/components/SignboardReader.tsx:66).
  Only the Scan button is disabled when the session is inactive (:127). The
  Enter key calls `runOcr` directly (:94).
- When no frame is captured, only `error` changes, through `setError`. The
  status stays "Scanning…" (app/components/SignboardReader.tsx:48, 68, 71, 83).
- A finished recognition leaves `error` as it was. Only `toggleActive` clears
  it (app/components/SignboardReader.tsx:56, 75-79).
- After two toggles, `isActive` has its old value, and the status is
  "Camera activated! Point at text." or "Camera deactivated."
  (app/components/SignboardReader.tsx:52-56).
- The toggle announcement is English text. Its voice is chosen for the current
  language (app/components/SignboardReader.tsx:55).

The defining functions have no rows of their own; the lemmas and methods in
the table state what they compute:
- SignboardReader: `InitialState`, `Toggled`, `WithLanguage`,
  `RecognizedText`, `Scanned`, `SpokenText`;
- JsText: `Trim`, `TrimStart`, `TrimEnd`;
- AudioDetector: `Low`, `High`, `Amplitude`, `IsClap`;
- CameraView: `Scale`, `ScaledSize`;
- Speech: `Hint`, `FallbackLocale`, `ChosenLocale`.

`SignboardReader.StopSignScenario` is a client method with no contract. It
starts a session, activates it, scans "  STOP  " and then a frame that captures
nothing. Its assertions follow from the `Session` contracts alone.

## Model

| member | source | states |
|---|---|---|
| Speech.FindVoice | app/components/SignboardReader.tsx:26 | a found voice is in the list and its locale starts with the hint; nothing is found exactly when no voice's locale starts with it |
| Speech.FindVoiceFirst | app/components/SignboardReader.tsx:26 | when the first matching voice is at position i, that is the voice found |
| Speech.FindVoiceIsFirst | app/components/SignboardReader.tsx:26 | a found voice sits at some position with no matching voice before it |
| Speech.FallbackMatchesHint | app/components/SignboardReader.tsx:24-28 | each fallback locale (en-US, hi-IN, te-IN) starts with its language's hint (en-, hi-, te-) |
| Speech.Speak | app/components/SignboardReader.tsx:21-28 | nothing is spoken exactly when speech is unsupported; otherwise the text as given, the first voice matching the hint, its locale when there is one and the fallback otherwise, and a locale that always starts with the hint |
| Speech.SpeakFallback | app/components/SignboardReader.tsx:26-28 | with no voice matching the hint, the utterance has the fallback locale and no voice |
| Speech.SpeakPrefersFirstMatch | app/components/SignboardReader.tsx:26-28 | with the first matching voice at position i, the utterance uses that voice and its locale |
| TextToSpeech.AutoSpeak | app/components/TextToSpeech.tsx:12-26 | an utterance is produced exactly when speech is supported, autoSpeak is true and the text is non-empty; it carries that text |
| TextToSpeech.HintMapping | app/components/TextToSpeech.tsx:22-24 | the hint is en-, hi-, te- for eng, hin, tel, and the voice chosen is the first one whose locale starts with it |
| TextToSpeech.AgreesWithSpeak | app/components/TextToSpeech.tsx:22-26 | for every language and voice list the component picks the same voice and locale as SignboardReader's speak |
| TextToSpeech.SilentByDefault | app/components/TextToSpeech.tsx:12 | with autoSpeak left at its default, nothing is ever spoken |
| JsText.TrimStartCuts | app/components/SignboardReader.tsx:74 | trimming the front gives a suffix of the input, what was cut is all white space, and it does not start with white space |
| JsText.TrimEndCuts | app/components/SignboardReader.tsx:74 | trimming the back gives a prefix of the input, what was cut is all white space, and it does not end with white space |
| JsText.TrimIsInfix | app/components/SignboardReader.tsx:74 | trim returns an infix of its input with only white space cut off both ends, and it starts and ends with non-white space |
| JsText.TrimEmptyIff | app/components/SignboardReader.tsx:74 | trim gives "" exactly when every character is white space |
| JsText.TrimIdempotent | app/components/SignboardReader.tsx:74 | trimming twice is trimming once |
| JsText.TrimPadded | app/components/SignboardReader.tsx:74 | "  STOP  " trims to "STOP" |
| SignboardReader.ToggleEffect | app/components/SignboardReader.tsx:50-57 | toggle negates isActive, sets the activated or deactivated status to match, clears the error and changes nothing else |
| SignboardReader.ToggleTwice | app/components/SignboardReader.tsx:50-57 | two toggles restore isActive and leave no error, but the status is the activated or deactivated text and never the initial one |
| SignboardReader.LanguageChangeEffect | app/components/SignboardReader.tsx:60-61 | a language change sets currentLanguage and leaves isActive, isProcessing, recognizedText, status and error unchanged |
| SignboardReader.RecognizedTextTrimmed | app/components/SignboardReader.tsx:74 | the stored text is "" when the engine returned none, never starts or ends with white space, and is "" exactly when the raw text was all white space |
| SignboardReader.Session.constructor | app/components/SignboardReader.tsx:36-46 | the session starts inactive and not processing, with no text, language eng, status "Clap to activate camera.", no error, the ref clear and no calls made |
| SignboardReader.Session.Speak | app/components/SignboardReader.tsx:21-33 | unsupported speech changes nothing; otherwise the utterance is appended to the spoken log and, after cancel, is the only one queued |
| SignboardReader.Session.ToggleActive | app/components/SignboardReader.tsx:50-57 | the state becomes the toggled record, the announcement for the new state is spoken in the old current language and, when spoken, is the only utterance queued; otherwise the queue is kept; the ref and the capture and OCR logs are unchanged |
| SignboardReader.Session.OnLanguageChange | app/components/SignboardReader.tsx:60-63 | only the language changes; the language's name is spoken in that language and, when spoken, is the only utterance queued, otherwise the queue is kept |
| SignboardReader.Session.RequestScan | app/components/SignboardReader.tsx:65-70 | while a scan is in flight nothing changes and no capture is made; otherwise the ref and isProcessing are set, the status becomes "Scanning…" and exactly one capture is made; isActive is not consulted |
| SignboardReader.ScannedCases | app/components/SignboardReader.tsx:70-83 | a missing image sets only error, to "No frame captured", and the status stays "Scanning…"; an OCR error sets only error, to its message or "OCR failed"; OCR text is stored trimmed with status "Text recognized. Speaking…" or "No text detected. Try again." and the error is kept; isActive, isProcessing and the language never change |
| SignboardReader.SpokenTextIsStoredText | app/components/SignboardReader.tsx:74-80 | speak is called exactly when the capture worked, OCR gave text and the stored text is non-empty, and then with the stored text |
| SignboardReader.StopSign | app/components/SignboardReader.tsx:74-80 | OCR text "  STOP  " is stored and spoken as "STOP" with status "Text recognized. Speaking…" |
| SignboardReader.Session.CompleteScan | app/components/SignboardReader.tsx:70-87 | every path ends with the ref and isProcessing clear and the state of ScannedCases; the OCR engine is called, in the given language, exactly when there is an image; the utterance for the spoken text, if any, is appended to the speech log and is then the only one queued, otherwise the queue is kept; no capture is made |
| SignboardReader.Session.RunOcr | app/components/SignboardReader.tsx:65-88 | a request during a scan changes nothing and makes no call; a started scan makes one capture, ends not processing, with the state of ScannedCases applied after "Scanning…", one OCR call when there is an image, and the speech of SpokenTextIsStoredText, which is then the only utterance queued (otherwise the queue is kept) |
| SignboardReader.Session.Replay | app/components/SignboardReader.tsx:136-138 | the stored text is spoken in the current language exactly when it is non-empty, and is then the only utterance queued; otherwise the speech log and queue are kept; the state is unchanged |
| AudioDetector.LowIsMinimum | app/components/AudioDetector.tsx:40-45 | on a non-empty buffer the scan's minimum is one of the samples and no sample is below it |
| AudioDetector.HighIsMaximum | app/components/AudioDetector.tsx:40-45 | on a non-empty buffer the scan's maximum is one of the samples and no sample is above it |
| AudioDetector.ScanPeaks | app/components/AudioDetector.tsx:40-45 | the loop leaves min at most every sample and max at least every sample, both samples of a non-empty buffer, and 255 and 0 for an empty one |
| AudioDetector.AmplitudeInUnitRange | app/components/AudioDetector.tsx:46 | for a non-empty byte buffer (max - min) / 255 lies in [0, 1] |
| AudioDetector.EmptyBufferAmplitude | app/components/AudioDetector.tsx:40-46 | an empty buffer would give amplitude -1 |
| AudioDetector.ThresholdAsBytes | app/components/AudioDetector.tsx:46-52 | the amplitude exceeds 0.6 exactly when max - min is at least 154 |
| AudioDetector.ClapsFarApart | app/components/AudioDetector.tsx:52-53 | any two reported claps are more than 1200 ms apart, and more than 1200 ms per step between them |
| AudioDetector.ClapsAfterStart | app/components/AudioDetector.tsx:52-53 | the j-th reported clap is more than 1200 (j + 1) ms after the starting last-clap time |
| AudioDetector.NoEarlyClap | app/components/AudioDetector.tsx:16 | since the last-clap time starts at 0, no clap is ever reported at a time of 1200 ms or less |
| AudioDetector.ClapDetector.constructor | app/components/AudioDetector.tsx:16 | a fresh detector has last-clap time 0 and no clap |
| AudioDetector.ClapDetector.Tick | app/components/AudioDetector.tsx:40-55 | the amplitude is that of the buffer's min and max and lies in [0, 1] for a non-empty buffer; a clap fires exactly when amplitude > 0.6 and now - lastClap > 1200; on a clap lastClap becomes now and one callback is logged, otherwise nothing changes; the clap spacing invariant is kept |
| CameraView.Canvas.constructor | app/components/CameraView.tsx:43 | a new canvas is 300 by 150 until it is sized |
| CameraView.NoDownscale | app/components/CameraView.tsx:48-50 | a frame at most 1280 wide keeps its exact size |
| CameraView.FloorOfQuotient | app/components/CameraView.tsx:50 | the floor of the exact quotient n / d is integer division |
| CameraView.DownscaledSize | app/components/CameraView.tsx:48-50 | a frame wider than 1280 is captured 1280 wide and floor(h * 1280 / w) high |
| CameraView.ScaledSizeBounds | app/components/CameraView.tsx:48-50 | the captured width is positive, at most 1280 and at most w; the height is at most h |
| CameraView.CaptureImage | app/components/CameraView.tsx:40-55 | null exactly when there is no video, a zero width or height, or no 2D context; otherwise the scaled, floored size, within the bounds above |

## Left out

- Microphone and camera acquisition and release are platform I/O and are not modelled. This covers `getUserMedia`, the AudioContext and AnalyserNode wiring, `requestAnimationFrame` scheduling with its cancellation, track stopping, and the permission errors these raise.
- `getByteTimeDomainData` is a platform call: `Tick` receives the buffer already filled. The `if (!analyser) return` exit belongs to teardown and is not modelled.
- Tesseract OCR and its dynamic import are foreign code. Their result is an input: text, missing text, or a thrown error with or without a message.
- PNG encoding in `toDataURL` and the drawing of the frame are foreign code. `CaptureImage` returns the image's size, and the session receives the data URL as an optional string.
- Speech playback, voice loading, and the start and end events are platform behaviour. Speech is a log of utterances plus a queue that `cancel()` empties. The `rate = 1` and `pitch = 1` settings are the platform's defaults and are not recorded.
- TextToSpeech's `supported` flag, set by a mount effect, is an input. The `cancel()` in its effect cleanup and its `onSpeakingChange` callbacks are not modelled.
- React rendering, `setState` batching, and updaters that run twice in development mode are not modelled.
- The `processingRef` flag and `isProcessing` are updated together. This is the `Valid()` invariant.
- SignboardReader.Session.CompleteScan: the awaits after the capture (OCR import, recognition) run as one step. Other transitions between them are not interleaved. Only the split after the capture is modelled.
- The callback `runOcr` captures `state.currentLanguage` when it is created. The model passes that language in as the `lang` parameter of `CompleteScan` and `RunOcr`.
- IEEE-754 rounding is not modelled; arithmetic is exact. In doubles, `w * (1280 / w)` can floor to 1279 for some widths above 1280. The audio meter width `Math.min(100, Math.round(audioLevel * 120))` is float arithmetic for the UI only.
- `console.error` logging in the catch block is output only.
- The page, layout, icons, build configuration and LanguageSelector have no logic beyond display; they are not part of this model.
