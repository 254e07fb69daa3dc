# Speech translation widget: a Dafny model

This project models the browser widget in `script.js`. The widget listens through the
microphone in English (`en-US`) or Turkish (`tr-TR`) and sends each finished sentence to a
translation service, into Turkish (`tr`) or English (`en`). It shows the translation, speaks
it and adds it to a hidden transcript, and the transcript can be downloaded as a text file.

The model has these modules:

- `Text`: `String.prototype.trim` over the exact ECMAScript white-space set, and the first
  field of `split`.
- `Direction`: the two microphone/target pairs and the toggle between them.
- `Translation`: the source-language prefix, the translator as a function parameter, and
  the `"Translation Error"` sentinel.
- `Speech`: the `0` → `" 0"` rewrite and the voice chosen for a language tag.
- `Fragments`: the `onresult` loop that splits recognizer results into interim and final
  text, and the rule that decides whether a translation is requested.
- `Transcript`: the hidden-transcript accumulator, the download handler and the download
  button's opacity.
- `Session`: the page state. `State` is a snapshot of the globals and DOM values. Each
  handler is a function from one snapshot to the next, and lemmas about those functions
  state the handlers' properties. `Controller` is a class with the same state in fields,
  and each of its methods is proved to perform exactly its handler's function.

The translation element's `MutationObserver` runs `updateHiddenText`. The model runs it
straight after each assignment to the translation text: when the toggle clears it, and when
a translation is displayed. A translation is treated as arriving at once, without the `await`.

Behaviour the code has that a reader might not expect:

- There is no single-flight guard, queue or staleness check on translations.
- `onerror` writes `Error: …` into the transcript box, but `stopListening` clears the box
  straight after whenever a recognizer exists (`Session.ErrorMessageCleared`).
- `onend` re-enables the start button but leaves `isListening` set
  (`Session.EndedWhileListening`). So "listening" does not imply a given button state.
- The downloaded file is the *trimmed* hidden transcript, so it has no trailing space
  (`Transcript.DownloadOfHistory`).
- `onresult` calls `speakText` with `tr-TR` or `en-US`, never `en`. So from that call both
  speech backends always pick the Turkish voice (`Speech.CallerNeverSelectsEnglish`).

## Model

| member | source | states |
|---|---|---|
| Text.TrimStart | script.js:177 | the result is a suffix of the input that does not start with a white character |
| Text.TrimStartDropsWhite | script.js:177 | every character `TrimStart` drops is white |
| Text.TrimEnd | script.js:177 | the result is a prefix of the input that does not end with a white character |
| Text.TrimEndDropsWhite | script.js:177 | every character `TrimEnd` drops is white |
| Text.Trim | script.js:177-178 | `trim` returns a string that neither starts nor ends with white space, and is no longer than its input; with `TrimIsMiddle` it is the input without its outer white runs |
| Text.TrimIsMiddle | script.js:177 | `trim` returns exactly the part of the input between a white prefix and a white suffix |
| Text.TrimEmptyIff | script.js:187-188 | `trim` is empty exactly when every character is white (both directions) |
| Text.TrimOfTrimmed | script.js:187 | a string already free of outer white space is its own trim |
| Text.TrimIdempotent | script.js:187 | trimming twice is trimming once |
| Text.TrimEndIgnoresWhite | script.js:187 | a trailing white character (such as the accumulator's space) makes no difference to `TrimEnd`, the end half of `trim` |
| Text.FirstField | script.js:59 | `split(sep)[0]` is a prefix without `sep`, followed in the input by `sep` unless it is all of it |
| Direction.Toggled | script.js:30-38 | toggling yields one of the two directions with a different microphone locale, and `en-US` maps to (`tr-TR`, `en`) and nothing else does |
| Direction.ToggleTwice | script.js:30-38 | from either direction, toggling twice restores the pair |
| Translation.SourceLang | script.js:59 | the source language is the prefix of `currentLanguage` before its first `-` |
| Translation.SourceLangOfDirection | script.js:59 | in both directions the source language is `en` or `tr`, equals the opposite direction's target and differs from the current target |
| Translation.TranslateText | script.js:58-70 | a failed request yields `"Translation Error"`; a successful one yields exactly the service's answer for the source language, the target and the text |
| Translation.SentinelIsTrimmed | script.js:177-178 | the sentinel is unchanged by `trim`, so it reaches the transcript as written |
| Speech.SpaceZeros | script.js:75 | the rewrite lengthens the text by the number of zeros and puts a space before every `0` |
| Speech.RestoreSpaceZeros | script.js:75 | the rewrite is lossless: removing the inserted spaces gives back the input |
| Speech.SpaceZerosNoZero | script.js:75 | a text without `0` is unchanged |
| Speech.CallerLocale | script.js:150 | the locale passed by `onresult` is `tr-TR` exactly when the target is `tr`, otherwise `en-US` |
| Speech.SynthesisLanguage | script.js:83 | browser synthesis uses `en-GB` exactly for `en`, otherwise `tr-TR` |
| Speech.ResponsiveVoiceName | script.js:98 | ResponsiveVoice uses the English voice exactly for `en`, otherwise the Turkish voice |
| Speech.Speak | script.js:73-99 | the spoken text is the zero-spaced input (and the input can be read back from it); the synthesis language and the ResponsiveVoice voice are the ones chosen for the tag, and both pick English together, exactly when the tag is `en` |
| Speech.CallerNeverSelectsEnglish | script.js:150 | from the `onresult` call site the voice is always `tr-TR` / `Turkish Male`, in both directions |
| Fragments.Window | script.js:135 | the loop visits the results from `resultIndex` to the end, in order, and none when `resultIndex` is past the end |
| Fragments.Joined | script.js:136-141 | reference definition: the transcripts of one kind appended in the loop's order; its properties are the lemmas below |
| Fragments.Dispatches | script.js:146-147 | reference definition of `!interimTranscript && finalTranscript`: interim empty and final non-empty |
| Fragments.JoinedAppend | script.js:135-142 | the text of one kind over two runs of results is the concatenation of each run's text |
| Fragments.JoinedIsConcatOfOnly | script.js:135-142 | the loop's accumulation equals "keep the fragments of one kind, then concatenate" |
| Fragments.JoinedEmptyIff | script.js:146-147 | the text of one kind is empty exactly when every fragment of that kind is empty |
| Fragments.DispatchIff | script.js:146-147 | a translation is requested exactly when every interim fragment is empty and some final fragment is not |
| Fragments.SplitResults | script.js:132-142 | the loop from `resultIndex` yields the in-order concatenation of the interim and of the final transcripts, and nothing when `resultIndex` is past the end |
| Transcript.Accumulate | script.js:175-180 | the old hidden text is a prefix of the new one, and anything added is the trimmed, non-empty translation followed by one space |
| Transcript.AccumulateUnchangedIff | script.js:177 | the hidden text is unchanged exactly when the translation is blank |
| Transcript.Download | script.js:186-197 | export is refused exactly when the hidden text is blank; otherwise the file is named `AIandAIOT_translated_text.txt` and holds the trimmed hidden text, which is non-empty |
| Transcript.Opacity | script.js:205-211 | the opacity is `0` or `1`, and `0` exactly when export would be refused |
| Transcript.ShownAfterAppend | script.js:205-211 | once a non-blank translation has been accumulated, the download button is visible |
| Transcript.Words | script.js:177-178 | the sentences that reach the transcript are non-empty and trimmed |
| Transcript.Spaced | script.js:187 | sentences joined by single spaces start with the first sentence's first character and end with the last one's last character |
| Transcript.HistoryIsSpaceTerminatedWords | script.js:175-180 | after any run of displayed translations, the hidden text is each non-blank trimmed translation followed by one space |
| Transcript.SpaceTerminatedIsSpacedPlusSpace | script.js:178 | space-terminated sentences are the space-separated sentences plus one final space |
| Transcript.DownloadOfHistory | script.js:175-192 | after any run of translations, export is refused when none was non-blank; otherwise the file holds the trimmed translations separated by single spaces, with no trailing space |
| Session.Initial | script.js:11-14 | at page load the direction is `en-US` to `tr`, the button flags are the page's, there is no recognizer, nobody is listening and all texts are empty |
| Session.Stop | script.js:43-55 | with no recognizer nothing changes; otherwise not listening, start enabled, stop disabled and the transcript cleared, with nothing else changed |
| Session.StopIdempotent | script.js:43-55 | `stopListening` twice is `stopListening` once |
| Session.Toggle | script.js:17-40 | after a toggle the direction is the pair `Toggled` assigns for the old microphone locale, start is enabled, stop disabled, transcript and translation are empty, the hidden text is kept, and `isListening` is false whenever a recognizer existed |
| Session.ToggleTwice | script.js:17-40 | toggling twice restores the direction and otherwise leaves the state one toggle leaves |
| Session.Start | script.js:106-120 | without browser support nothing changes; otherwise a recognizer in the microphone locale and `isListening` set, with nothing else changed |
| Session.Started | script.js:122-129 | `onstart` shows `Listening...`, disables start and enables stop, and changes nothing else |
| Session.Errored | script.js:155-159 | `onerror` writes `Error: ` and the error, then stops; afterwards nobody is listening |
| Session.ErrorMessageCleared | script.js:155-159 | with a recognizer, `onerror` acts exactly as `stopListening` and its message does not survive |
| Session.Ended | script.js:161-169 | while listening, `onend` enables start and disables stop; otherwise nothing changes |
| Session.EndedWhileListening | script.js:161-169 | a recognizer that ends on its own leaves `isListening` set |
| Session.Results | script.js:131-152 | the transcript box gets interim then final text; a translation happens exactly when interim is empty and final is not; otherwise the translation is unchanged; a dispatch displays `translateText` of the final text, sets the hidden text to `Accumulate` of it, and hands `speakText` of it with the caller's locale to the speech backend, which picks Turkish |
| Session.ResultsDispatchIff | script.js:135-147 | a translation is requested exactly when no interim fragment of the window has text and some final fragment has |
| Session.ResultsWithFailedTranslation | script.js:148-150 | when the service fails, the sentinel is displayed, added to the hidden text with one space, and spoken as written |
| Session.SentinelSpokenAsWritten | script.js:75 | the sentinel has no `0`, so the rewrite leaves it unchanged |
| Session.Next | script.js:17-169 | every handler keeps the invariant and the buttons' exclusivity, and never shortens the hidden text |
| Session.RunPreserves | script.js:11-180 | over any sequence of events the direction stays one of the two, a listening recognizer uses the microphone locale, exclusive buttons stay exclusive, and earlier hidden text is a prefix of later hidden text |
| Session.Reachable | script.js:11-169 | every state reachable from page load satisfies the invariant |
| Session.Controller.constructor | script.js:11-14 | the page starts in the initial state |
| Session.Controller.StopListening | script.js:43-55 | the fields change exactly as `Stop` says |
| Session.Controller.UpdateHiddenText | script.js:175-180 | the hidden text becomes the accumulation of the displayed translation, and only it changes |
| Session.Controller.ToggleLanguage | script.js:17-40 | the fields change exactly as `Toggle` says |
| Session.Controller.StartRecording | script.js:106-120 | the fields change exactly as `Start` says |
| Session.Controller.OnStart | script.js:122-129 | the fields change exactly as `Started` says |
| Session.Controller.Dispatch | script.js:148-150 | the translation becomes `translateText` of the final text, the hidden text accumulates it, the utterance is `speakText` of it, and nothing else changes |
| Session.Controller.OnResult | script.js:131-153 | the fields and the utterance are exactly as `Results` says |
| Session.Controller.OnError | script.js:155-159 | the fields change exactly as `Errored` says |
| Session.Controller.OnEnd | script.js:161-169 | the fields change exactly as `Ended` says |
| Session.Controller.DownloadClicked | script.js:186-192 | the export is `Download` of the hidden text, and it is refused exactly when the button's opacity is `0` |
| Session.Controller.CheckHiddenTextOpacity | script.js:205-211 | the opacity is `0` or `1`, and `0` exactly when the hidden text is all white space |

## Left out

- The translation request: the URL, `encodeURIComponent`, `fetch` and JSON decoding are a
  remote service. They are modelled as a function parameter that returns the translated
  text or fails.
- `result[0][0][0]` keeps only the first segment of a multi-sentence translation. That
  choice belongs to the service's answer, so it is part of the parameter.
- Speech recognition: the `webkitSpeechRecognition` object, its `continuous`,
  `interimResults` and `maxAlternatives` settings, `start()`/`stop()`, and event delivery.
  Results, errors and the browser's support are inputs.
- Speech synthesis: `speechSynthesis`, `getVoices`, ResponsiveVoice and the user-agent
  checks are external services. An utterance records what each backend would be given, and
  the voice lookup by language is not modelled.
- DOM plumbing has no effect on the modelled state: `style.display`, the toggle label's
  `innerHTML`, `console` logging, `alert`, the Blob, `createObjectURL` and the anchor click.
- The `MutationObserver` that runs `updateHiddenText` is modelled as a call straight after
  each assignment to the translation text. The browser's batching of its callbacks is not
  modelled.
- The `setInterval` poll of `checkHiddenText` is modelled as a function that can be
  evaluated at any time.
- Asynchrony: a translation is taken to complete at once. The model does not cover
  `onresult` calls that overlap while one is waiting, or toggles during that wait.
- Pressing start while a recognizer is running: the old recognizer object is simply
  replaced, and its late events look the same as those of the new one.
- The buttons' initial `disabled` flags come from the page markup, which is not part of
  this model. They are constructor parameters.
- Strings are sequences of Unicode scalar values, not JavaScript's UTF-16 code units, so a
  lone surrogate cannot be represented. For such a text `encodeURIComponent` throws before
  the `try` in `translateText`, so `onresult` fails instead of showing the sentinel; the
  model does not cover that path.
- The initial contents of the transcript box, the translation element and the hidden
  transcript also come from the page markup; the model takes all three to be empty.
