# MedPredi core, modelled in Dafny

MedPredi is a browser dashboard for clinical risk assessment. A form collects
patient vitals. The app sends them to a hosted generative model, which returns
disease risks, a clinical summary and recommendations. The dashboard draws the
result. On request, the summary is read aloud: the app requests raw PCM speech,
decodes it and plays it.

This project models that app's sequential logic and proves properties of it:

- `GeminiService` (services/geminiService.ts) covers these steps:
  - `decode` turns the binary string from `atob` into a byte array.
  - `decodeAudioData` reads those bytes as signed 16-bit little-endian
    samples, de-interleaves them by channel and scales each by 1/32768.
  - The `analyzeRisk` guard rejects a reply with no text.
  - The `speakSummary` guard extracts the audio payload and rejects a missing
    one; `speakSummary` then decodes the payload at 24000 Hz, mono.

  `Decode` and `DecodeAudioData` are methods over arrays with loop invariants.
  Each is specified by a pure function: `BinaryToBytes`, and `Samples` with
  `ChannelData`. The lemmas are proved about those functions.
- `App` (App.tsx) models the page controller as the class `App.Controller`.
  It holds the view state and the stored stop handle. `HandleAnalyze` is
  the form's submit handler (App.tsx:85) and `HandleSpeak` the speaker
  button's click handler (App.tsx:138). `StartAnalysis` and `FinishAnalysis`
  are the two halves of `handleAnalyze` before and after its `await`
  (App.tsx:20 and 22-25). The four panel conditions are predicates over
  `AppState`. The outcome of each awaited remote call is an input.
- `PatientForm` (components/PatientForm.tsx) has the pure updates behind
  `handleChange` and `handleCheckbox`. The class `PatientForm.Form` applies
  them to its `formData` field. Each field's element type comes from the
  form's markup (components/PatientForm.tsx:48-166): the three selects
  report `select-one`, every other field is a number input.
- `RiskDashboard` (components/RiskDashboard.tsx) has the level colour, the
  level theme, the disease-icon classifier and the one-per-risk chart cells and
  cards. Colours and icons are tags. The theme class strings are the source's
  own.
- `Types` (types.ts) holds the records.

Sample values are integers, and normalised values are exact Dafny `real`s.
Numbers are `real`.

## Modelling choices that follow the code

- types.ts declares `riskLevel`, `smokingStatus` and `physicalActivity` as
  string-literal unions (types.ts:11-12, 19). Nothing enforces them at run
  time: the parsed reply is never checked, and the form stores whatever string
  its selects report. The model therefore uses strings, and unknown levels
  reach the default branches.
- The code keeps the family history as an ordered list (types.ts:13), and so
  does the model. Membership behaves like a set because a toggle keeps a
  repeat-free list repeat-free, and the model proves this.
- `!base64Audio` rejects an empty payload as well as a missing one, and the
  model rejects both.
- The code computes `frameCount` as `samples / numChannels`, which can be a
  fraction. The buffer then has the whole-number part of that length. The loop
  may run one iteration further, but typed arrays ignore writes past their
  end. The model therefore uses floor division, which gives the same result.
- The code does not check the byte count before `new Int16Array`, which throws
  on an odd count. The model returns that as an error rather than requiring an
  even count.

## Model

| member | source | states |
|---|---|---|
| `GeminiService.Decode` | services/geminiService.ts:27-35 | returns a fresh array whose contents are `BinaryToBytes` of the string: one byte per character, in order, each the character code modulo 256 as a `Uint8Array` stores it |
| `GeminiService.BinaryStringBytes` | services/geminiService.ts:29-33 | on a string of codes below 256 (what `atob` returns), `decode` yields as many bytes as characters and byte i equals the code of character i |
| `GeminiService.BytesRoundTrip` | services/geminiService.ts:31-33 | turning bytes into a binary string and back with `decode`'s conversion gives the same bytes |
| `GeminiService.BinaryRoundTrip` | services/geminiService.ts:31-33 | a binary string turned into bytes and back is unchanged: the byte conversion loses nothing on `atob` output |
| `GeminiService.Int16LE` | services/geminiService.ts:14 | the value read from a low byte and a high byte always lies in the signed 16-bit range |
| `GeminiService.Samples` | services/geminiService.ts:14 | the `Int16Array` view of the bytes: sample k is the signed 16-bit value of byte 2k (low) and byte 2k+1 (high), with half as many samples as bytes, rounded down; the per-sample statement is `SamplesAt` |
| `GeminiService.SamplesAt` | services/geminiService.ts:14 | there are half as many samples as bytes, rounded down. Sample k is the signed little-endian value of bytes 2k and 2k+1 and lies in the 16-bit range |
| `GeminiService.SamplesOfEncoding` | services/geminiService.ts:14 | encoding any run of 16-bit samples little-endian and reading it back as an `Int16Array` gives the same samples |
| `GeminiService.EncodingOfSamples` | services/geminiService.ts:14 | any even run of bytes, read as samples and re-encoded, gives the same bytes, so the sample reading is a bijection |
| `GeminiService.NormalizeRange` | services/geminiService.ts:21 | every 16-bit sample divided by 32768 lies in [-1, 1), and multiplying back by 32768 recovers the sample exactly |
| `GeminiService.ChannelData` | services/geminiService.ts:15-22 | a channel has `samples / numChannels` frames, rounded down |
| `GeminiService.SampleLandsInFrame` | services/geminiService.ts:18-22 | inverse view of the de-interleave: every sample k within whole frames appears, scaled, at frame k / numChannels of channel k % numChannels |
| `GeminiService.MonoChannel` | services/geminiService.ts:18-22 | with one channel there is one frame per sample, and frame i is sample i scaled |
| `GeminiService.ChannelDataRange` | services/geminiService.ts:21 | every value written into any channel lies in [-1, 1) |
| `GeminiService.PcmRoundTrip` | services/geminiService.ts:14-22 | encoding 16-bit samples and decoding them as mono gives each sample divided by 32768, in order |
| `GeminiService.ZeroBytesZeroFrames` | services/geminiService.ts:15-20 | no bytes give no samples and a zero-frame channel, so the loop writes nothing |
| `GeminiService.WorkedExample` | services/geminiService.ts:14-22 | bytes 00 40 00 C0 are the samples 16384 and -16384 and decode in mono to 0.5 and -0.5 |
| `GeminiService.AudioBuffer.constructor` | services/geminiService.ts:16 | `createBuffer` allocates numberOfChannels zero-filled rows of length frames at the given sample rate |
| `GeminiService.DecodeAudioData` | services/geminiService.ts:8-25 | fails with the length error exactly when the byte count is odd. Otherwise it returns a fresh buffer with the given rate and channel count and (bytes / 2) / numChannels frames, and channel c equals `ChannelData` of the samples, filled by the nested loops |
| `GeminiService.AnalysisText` | services/geminiService.ts:83-85 | the text passes exactly when it is present and non-empty. Otherwise the error is "No text returned from model" |
| `GeminiService.AnalyzeRisk` | services/geminiService.ts:83-86 | absent or empty text gives the no-text error. Otherwise the result is the parser's result on that text, unchanged |
| `GeminiService.AudioPayload` | services/geminiService.ts:103 | the optional chain `candidates?.[0]?.content?.parts?.[0]?.inlineData?.data`, with an index past the end read as undefined. A payload, when there is one, is the data of part 0 of candidate 0 and every link before it is present |
| `GeminiService.AudioPayloadPresent` | services/geminiService.ts:103 | the optional chain yields a payload exactly when candidates, candidate 0, its content, its parts, part 0, its inline data and its data are all present |
| `GeminiService.AudioGuard` | services/geminiService.ts:103-104 | the payload passes exactly when the chain yields a non-empty string. Otherwise the error is "No audio data returned" |
| `GeminiService.SpeakSummary` | services/geminiService.ts:103-112 | a missing or empty payload gives the no-audio error and never reaches the decoder. A payload `atob` refuses gives the base64 error, and an odd byte count gives the length error. Success happens exactly when the payload passes, `atob` accepts it and the byte count is even. The buffer is then 24000 Hz mono, has half as many frames as bytes, and holds `ChannelData` of the payload's samples |
| `App.ShowsEmptyState` | App.tsx:91 | the empty-state panel shows when there is no result, no analysis in progress and no truthy error |
| `App.ShowsAnalyzing` | App.tsx:103 | the analysing panel shows while `isAnalyzing` is set |
| `App.ShowsError` | App.tsx:114 | the error panel shows when the error is a non-empty string |
| `App.ShowsResult` | App.tsx:124 | the result panel shows when there is a result and no analysis in progress |
| `App.ErrorText` | App.tsx:25 | the stored error is never empty: a non-empty message is kept and an empty one becomes "Analysis failed" |
| `App.ExactlyOnePanel` | App.tsx:91-124 | in every consistent state exactly one of the empty-state, analysing, error and result panels is shown |
| `App.PanelConditions` | App.tsx:91-124 | in a consistent state the empty panel shows exactly when there is no result, no analysis and no error. The result panel shows only with a result, no analysis and no error. The error panel shows exactly when an error is stored |
| `App.Controller.constructor` | App.tsx:10-17 | starts not analysing, with no result, no error, not speaking and no stop handle, showing the empty-state panel |
| `App.Controller.StartAnalysis` | App.tsx:20 | sets `isAnalyzing` and clears result and error, keeps `isSpeaking` and the stop handle, sends the record, and shows only the analysing panel |
| `App.Controller.FinishAnalysis` | App.tsx:22-25 | clears `isAnalyzing` and keeps `isSpeaking`. On success it stores the result with no error. On failure it stores `ErrorText` of the message with no result. The state stays consistent |
| `App.Controller.HandleAnalyze` | App.tsx:19-27 | the two steps together: the record is sent once, and the final state is the success or failure state above |
| `App.Controller.HandleSpeak` | App.tsx:29-47 | without a result nothing changes. While speaking, the stored handle is invoked once and kept, `isSpeaking` is cleared and nothing is requested. Otherwise the summary is requested, and then the new handle is stored while `isSpeaking` stays set, or on failure `isSpeaking` is cleared. Throughout, no handle is ever invoked twice |
| `PatientForm.ChangeField` | components/PatientForm.tsx:26-32 | the named field gets `parseFloat(value)` when its element is a number input and the raw string otherwise. Every other field and the family history are unchanged |
| `PatientForm.Without` | components/PatientForm.tsx:38 | the filtered history no longer contains the condition, still contains every other condition it had, and nothing new |
| `PatientForm.Toggle` | components/PatientForm.tsx:37-39 | the toggled condition's membership flips, and no other condition's membership changes |
| `PatientForm.ToggleHistory` | components/PatientForm.tsx:34-41 | the family history becomes its toggle, and every other field is unchanged |
| `PatientForm.WithoutKeepsOthers` | components/PatientForm.tsx:38 | filtering keeps the other entries in their relative order (a subsequence) with their multiplicities, and drops every occurrence of the condition |
| `PatientForm.WithoutConcat` | components/PatientForm.tsx:38 | filtering a concatenation filters each part and concatenates the results |
| `PatientForm.ToggleAbsent` | components/PatientForm.tsx:37-39 | toggling an absent condition appends it at the end |
| `PatientForm.TogglePresent` | components/PatientForm.tsx:37-38 | toggling a present condition removes every occurrence. Every other entry keeps its count and relative order |
| `PatientForm.ToggleTwice` | components/PatientForm.tsx:37-39 | toggling an absent condition twice restores the original history |
| `PatientForm.ToggleKeepsNoDuplicates` | components/PatientForm.tsx:37-39 | a repeat-free history stays repeat-free after a toggle |
| `PatientForm.Form.constructor` | components/PatientForm.tsx:12-24 | the initial record: age 45, "Male", 75 kg, 175 cm, 120/80, sugar 95, cholesterol 180, "never", "moderate", and an empty family history |
| `PatientForm.Form.HandleChange` | components/PatientForm.tsx:26-32 | `formData` becomes `ChangeField` of the previous record |
| `PatientForm.Form.HandleCheckbox` | components/PatientForm.tsx:34-41 | `formData` becomes `ToggleHistory` of the previous record |
| `PatientForm.Form.Submit` | components/PatientForm.tsx:44 | hands the current `formData` to `onSubmit` unchanged |
| `RiskDashboard.GetLevelColor` | components/RiskDashboard.tsx:23-31 | the slate default is returned exactly for strings that are not one of Low, Moderate, High, Critical |
| `RiskDashboard.LevelColorsDistinct` | components/RiskDashboard.tsx:24-28 | the four known levels get four different colours with four different hex codes |
| `RiskDashboard.GetLevelTheme` | components/RiskDashboard.tsx:42-85 | the slate theme is returned exactly for strings that are not a known level |
| `RiskDashboard.LevelThemesDistinct` | components/RiskDashboard.tsx:43-75 | the four known levels get four different themes with four different icons |
| `RiskDashboard.ColorAndThemeAgree` | components/RiskDashboard.tsx:23-85 | colour and theme fall back to slate on the same strings. Two levels share a colour exactly when they share a theme |
| `RiskDashboard.ToLower` | components/RiskDashboard.tsx:34 | `toLowerCase` on ASCII letters: the length is kept and no upper-case letter remains; character i is the lower-case form of character i (`ToLowerAt`) |
| `RiskDashboard.Contains` | components/RiskDashboard.tsx:35-38 | `includes`: a match needs the keyword to be no longer than the name, and the empty keyword matches every name |
| `RiskDashboard.ContainsIffOccurs` | components/RiskDashboard.tsx:35-38 | `Contains` holds exactly when the keyword occurs at some index of the name, in both directions, so every icon contract phrased through `Contains` is about `includes` |
| `RiskDashboard.GetDiseaseIcon` | components/RiskDashboard.tsx:33-40 | the heart icon is returned exactly when the lower-cased name contains "heart" or "cardio" |
| `RiskDashboard.IconIsFirstMatchingRule` | components/RiskDashboard.tsx:34-39 | the classifier equals the priority table of heart/cardio, diabetes, hypertension/blood pressure and ckd/kidney: a name gets the first row that matches, else Info |
| `RiskDashboard.InfoIffNoKeyword` | components/RiskDashboard.tsx:35-39 | Info is returned exactly when the lower-cased name contains none of the seven keywords |
| `RiskDashboard.DiseaseIconCaseInsensitive` | components/RiskDashboard.tsx:34 | names with the same lower-cased form get the same icon, and a name gets the icon of its lower-cased form |
| `RiskDashboard.CardioDiabetesExample` | components/RiskDashboard.tsx:33-39 | "Cardio-Diabetes" mentions both cardio and diabetes and gets the heart icon |
| `RiskDashboard.CardOf` | components/RiskDashboard.tsx:127-168 | the card of one risk: the level's theme, the disease icon, the name, level, score and reasoning, and a bar in the level's colour. Its bar is slate exactly when its theme is the slate theme |
| `RiskDashboard.ChartCells` | components/RiskDashboard.tsx:117-119 | there is exactly one cell per risk, in input order, and cell i has the colour of risk i's level |
| `RiskDashboard.RiskCards` | components/RiskDashboard.tsx:127-128 | there is exactly one card per risk, in input order, and card i is the card of risk i |
| `RiskDashboard.CardsMatchCells` | components/RiskDashboard.tsx:117-157 | card i's bar has the colour of chart cell i, and its theme is slate exactly when that cell is slate |
| `RiskDashboard.ChartCellsConcat` | components/RiskDashboard.tsx:117-128 | rendering a concatenation of risks renders each part in turn, for both cells and cards |

## Left out

- The network calls, their request configs and the response schema
  (services/geminiService.ts:51-81, 90-101) are a remote service. Their
  replies are inputs: the reply text, the speech reply, and the outcome given
  to the `App.Controller` handlers.
- The prompt text (services/geminiService.ts:38-49) renders numbers as floats,
  so it is not modelled.
- `JSON.parse` is a parameter of `GeminiService.AnalyzeRisk`. It is a foreign
  parser, and its result is not validated. The model assumes the parsed value
  is a `PredictionResult` record. The source does not check this: a reply text
  of `null` parses to `null`, App.tsx:23 then stores `result: null` and the
  empty-state panel shows (App.tsx:91). The model's
  `App.Controller.FinishAnalysis` given `Ok` shows the result panel instead.
- `atob` is a parameter of `GeminiService.SpeakSummary`, returning `None` when
  it throws. The base64 alphabet of section 4 of RFC 4648 is not modelled.
- Browser error messages are not reproduced. `OddLengthMessage` stands for the
  `Int16Array` RangeError, and `InvalidBase64Message` stands for the `atob`
  error. Both are only logged by `handleSpeak`.
- The Web Audio lifecycle is not modelled: creating the AudioContext, the
  buffer source, `start`, `stop` and `close` (services/geminiService.ts:106-122).
  The browser owns these resources. The returned closure is a `StopHandle`
  identity, and invoking it is recorded in a log.
- `GeminiService.DecodeAudioData` and `GeminiService.SpeakSummary` do not model
  `createBuffer`'s own argument checks, which are browser behaviour. The model
  allocates any length, zero included. In a browser, `createBuffer` with zero
  frames throws, so a payload that passes `!base64Audio` but decodes to no
  bytes (whitespace only, say) makes `speakSummary` reject. The model returns
  `Ok` with an empty buffer instead. Their "exactly when" success conditions
  hold only for inputs of at least one whole frame: 2 × numChannels bytes, so
  two bytes for the mono `SpeakSummary`.
- Float32 storage rounding is not modelled: normalised values are exact
  rationals.
- `parseFloat` is a parameter `string -> real`. NaN is not modelled.
- `Math.round` on the card score (components/RiskDashboard.tsx:149) is left
  out. The card keeps the unrounded score.
- `RiskDashboard.ToLower`, `RiskDashboard.GetDiseaseIcon`: lower-casing covers ASCII letters only. The
  source's `toLowerCase` uses full Unicode case mapping. Names with non-ASCII
  capitals may be classified differently.
- `GeminiService.Decode`: a JavaScript string is a sequence of UTF-16 code
  units, but here a character code is the Dafny character's scalar value. The
  two agree on every string `atob` returns.
- Async interleavings are not modelled, such as a second click while a request
  is in flight. Each handler runs as one atomic step. Only the disabled submit
  button (components/PatientForm.tsx:192) keeps a second analysis from starting
  in the source, and the model relies on the same sequencing.
  `App.Controller.FinishAnalysis` therefore requires that the analysis has
  started.
- `App.Controller.HandleSpeak`: its no-handle-invoked-twice invariant depends on
  each handler being atomic. In the source, App.tsx:37 sets `isSpeaking`
  before the `await` at App.tsx:39, while `stopAudio` still holds the handle
  that was already stopped. A click in that window takes App.tsx:31-32 and
  invokes that handle a second time. The new handle is then stored with
  `isSpeaking` false. The model does not capture this.
- The `console.error` logging in `handleSpeak` (App.tsx:44) is not modelled.
- All JSX is left out: layout, styling, recharts, lucide icons, the
  recommendations list (App.tsx:171-178) and the "analysis complete" banner
  (App.tsx:188). The icons appear as tags.
- The hard-coded API key (services/geminiService.ts:5) is configuration, not
  behaviour.
