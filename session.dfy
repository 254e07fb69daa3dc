/** The widget's session: the globals `currentLanguage`, `targetLanguage`, `recognition` and
    `isListening`, the two buttons' `disabled` flags, the transcript box, the translation
    element and the hidden transcript, and the handlers that change them.

    `State` is the snapshot of all of it and each handler is a function from the old snapshot
    to the new one; `Controller` holds the same state in fields and its methods, one per
    handler, are proved to perform exactly those functions. */
module Session {
  import opened Text
  import opened Direction
  import opened Translation
  import opened Speech
  import opened Fragments
  import opened Transcript

  datatype State = State(
    currentLanguage: string,
    targetLanguage: string,
    isListening: bool,
    hasRecognizer: bool,          // `recognition` has been assigned
    recognizerLanguage: string,   // `recognition.lang`
    startDisabled: bool,
    stopDisabled: bool,
    transcript: string,           // the transcript box's value
    translation: string,          // the translation element's text
    hiddenText: string)           // the hidden transcript's value

  const ListeningText := "Listening..."
  const ErrorPrefix := "Error: "

  /** The state at page load; the buttons' initial flags come from the page markup. */
  function Initial(startDisabled: bool, stopDisabled: bool): (s: State)
    ensures s.currentLanguage == EnglishMic && s.targetLanguage == ToTurkish
    ensures s.startDisabled == startDisabled && s.stopDisabled == stopDisabled
    ensures Inv(s) && !s.isListening && !s.hasRecognizer
    ensures s.transcript == "" && s.translation == "" && s.hiddenText == ""
  {
    State(EnglishMic, ToTurkish, false, false, "", startDisabled, stopDisabled, "", "", "")
  }

  /** What holds in every reachable state: the pair is one of the two directions, and while
      listening there is a recognizer and it listens in the microphone locale. */
  predicate Inv(s: State) {
    && IsDirection(s.currentLanguage, s.targetLanguage)
    && (s.isListening ==> s.hasRecognizer && s.recognizerLanguage == s.currentLanguage)
  }

  /** Exactly one of the two buttons is enabled. */
  predicate ButtonsExclusive(s: State) {
    s.startDisabled != s.stopDisabled
  }

  /** `stopListening`: nothing without a recognizer; otherwise not listening, start enabled,
      stop disabled and the transcript box cleared. */
  function Stop(s: State): (r: State)
    ensures !s.hasRecognizer ==> r == s
    ensures s.hasRecognizer ==> !r.isListening && !r.startDisabled && r.stopDisabled && r.transcript == ""
    ensures r == s.(isListening := r.isListening, startDisabled := r.startDisabled,
                    stopDisabled := r.stopDisabled, transcript := r.transcript)
    ensures Inv(s) ==> Inv(r) && !r.isListening
  {
    if s.hasRecognizer then
      s.(isListening := false, startDisabled := false, stopDisabled := true, transcript := "")
    else s
  }

  /** The toggle button's handler: stop, reset both buttons and both text surfaces, let the
      translation element's observer run, then switch direction. */
  function Toggle(s: State): (r: State)
    ensures (r.currentLanguage, r.targetLanguage) == Toggled(s.currentLanguage)
    ensures IsDirection(r.currentLanguage, r.targetLanguage)
    ensures r.currentLanguage != s.currentLanguage
    ensures !r.startDisabled && r.stopDisabled
    ensures r.transcript == "" && r.translation == ""
    ensures r.hiddenText == s.hiddenText
    ensures r.hasRecognizer == s.hasRecognizer && r.recognizerLanguage == s.recognizerLanguage
    ensures s.hasRecognizer ==> !r.isListening
    ensures !s.hasRecognizer ==> r.isListening == s.isListening
    ensures Inv(s) ==> Inv(r) && !r.isListening
  {
    var stopped := Stop(s);
    var reset := stopped.(startDisabled := false, stopDisabled := true, transcript := "", translation := "");
    var observed := reset.(hiddenText := Accumulate(reset.hiddenText, reset.translation));
    var direction := Toggled(s.currentLanguage);
    observed.(currentLanguage := direction.0, targetLanguage := direction.1)
  }

  /** `startRecording`: nothing when the browser has no speech recognition (an alert is
      shown); otherwise a recognizer in the microphone locale and `isListening` set. The
      buttons and the transcript box change only once the recognizer reports it started. */
  function Start(s: State, supported: bool): (r: State)
    ensures !supported ==> r == s
    ensures supported ==> r.isListening && r.hasRecognizer && r.recognizerLanguage == s.currentLanguage
    ensures r == s.(isListening := r.isListening, hasRecognizer := r.hasRecognizer,
                    recognizerLanguage := r.recognizerLanguage)
    ensures Inv(s) ==> Inv(r)
  {
    if supported then
      s.(hasRecognizer := true, recognizerLanguage := s.currentLanguage, isListening := true)
    else s
  }

  /** `recognition.onstart`: "Listening..." in the transcript box, start disabled, stop enabled. */
  function Started(s: State): (r: State)
    ensures r.transcript == ListeningText && r.startDisabled && !r.stopDisabled
    ensures r == s.(transcript := r.transcript, startDisabled := r.startDisabled, stopDisabled := r.stopDisabled)
    ensures Inv(s) ==> Inv(r)
  {
    s.(transcript := ListeningText, startDisabled := true, stopDisabled := false)
  }

  /** `recognition.onerror`: the error into the transcript box, then `stopListening`. */
  function Errored(s: State, error: string): (r: State)
    ensures !s.hasRecognizer ==> r == s.(transcript := ErrorPrefix + error)
    ensures Inv(s) ==> Inv(r) && !r.isListening
  {
    Stop(s.(transcript := ErrorPrefix + error))
  }

  /** `recognition.onend`: while `isListening` holds, start enabled and stop disabled;
      `isListening` itself is left as it is. */
  function Ended(s: State): (r: State)
    ensures s.isListening ==> !r.startDisabled && r.stopDisabled
    ensures !s.isListening ==> r == s
    ensures r == s.(startDisabled := r.startDisabled, stopDisabled := r.stopDisabled)
    ensures Inv(s) ==> Inv(r)
  {
    if s.isListening then s.(startDisabled := false, stopDisabled := true) else s
  }

  /** `recognition.onresult` with the translation taken to complete at once: the transcript box
      shows interim then final text; when the interim text is empty and the final text is not,
      the final text is translated, displayed, accumulated by the observer and spoken. */
  function Results(s: State, results: seq<Fragment>, resultIndex: nat, service: Translator): (r: (State, Option<Utterance>))
    ensures r.0.transcript == Joined(Window(results, resultIndex), false) + Joined(Window(results, resultIndex), true)
    ensures r.1.Some? <==> Dispatches(Joined(Window(results, resultIndex), false), Joined(Window(results, resultIndex), true))
    ensures r.1 == None ==> r.0 == s.(transcript := r.0.transcript)
    ensures r.1.Some? ==> r.0 == s.(transcript := r.0.transcript, translation := r.0.translation, hiddenText := r.0.hiddenText)
    ensures r.1.Some? ==> r.0.translation == TranslateText(service, s.currentLanguage, Joined(Window(results, resultIndex), true), s.targetLanguage)
    ensures r.1.Some? ==> r.1.value.language == "tr-TR" && r.1.value.voiceName == "Turkish Male"
    ensures r.1.Some? ==> r.0.hiddenText == Accumulate(s.hiddenText, r.0.translation)
    ensures r.1.Some? ==> r.1.value == Speak(r.0.translation, CallerLocale(s.targetLanguage))
    ensures r.1.Some? ==> RestoreZeros(r.1.value.text) == r.0.translation
    ensures s.hiddenText <= r.0.hiddenText
    ensures Inv(s) ==> Inv(r.0)
  {
    var w := Window(results, resultIndex);
    var interim := Joined(w, false);
    var final := Joined(w, true);
    var shown := s.(transcript := interim + final);
    if Dispatches(interim, final) then
      var translated := TranslateText(service, s.currentLanguage, final, s.targetLanguage);
      CallerNeverSelectsEnglish(s.targetLanguage, translated);
      (shown.(translation := translated, hiddenText := Accumulate(s.hiddenText, translated)),
       Some(Speak(translated, CallerLocale(s.targetLanguage))))
    else (shown, None)
  }

  /** `stopListening` twice is `stopListening` once. */
  lemma StopIdempotent(s: State)
    ensures Stop(Stop(s)) == Stop(s)
  {
  }

  /** Toggling twice restores the direction and otherwise leaves the state of one toggle. */
  lemma ToggleTwice(s: State)
    requires Inv(s)
    ensures Toggle(Toggle(s)) == Toggle(s).(currentLanguage := s.currentLanguage, targetLanguage := s.targetLanguage)
  {
    var once := Toggle(s);
    Direction.ToggleTwice(s.currentLanguage, s.targetLanguage);
    assert Toggled(once.currentLanguage) == (s.currentLanguage, s.targetLanguage);
    ToggledIsQuiet(once);
    assert Toggle(once) == once.(currentLanguage := s.currentLanguage, targetLanguage := s.targetLanguage);
  }

  /** A state a toggle leaves needs no stopping, and its empty translation adds nothing to the
      hidden text. */
  lemma ToggledIsQuiet(t: State)
    requires !t.startDisabled && t.stopDisabled && t.transcript == "" && t.translation == ""
    requires t.hasRecognizer ==> !t.isListening
    ensures Stop(t) == t
    ensures Accumulate(t.hiddenText, t.translation) == t.hiddenText
  {
    assert Trim(t.translation) == "";
  }

  /** With a recognizer, the error text never survives the handler: `stopListening` clears the
      transcript box straight after `onerror` wrote it, so the handler is `stopListening`. */
  lemma ErrorMessageCleared(s: State, error: string)
    requires s.hasRecognizer
    ensures Errored(s, error) == Stop(s)
    ensures Errored(s, error).transcript == ""
  {
  }

  /** A recognizer that ends on its own leaves `isListening` set with the start button
      enabled; only `stopListening` (stop or toggle) clears the flag. */
  lemma EndedWhileListening(s: State)
    requires s.isListening
    ensures Ended(s).isListening && !Ended(s).startDisabled && Ended(s).stopDisabled
  {
  }

  /** A translation is requested exactly when no fragment of the window is interim with text
      and some final fragment carries text. */
  lemma ResultsDispatchIff(s: State, results: seq<Fragment>, resultIndex: nat, service: Translator)
    ensures Results(s, results, resultIndex, service).1.Some? <==>
      var w := Window(results, resultIndex);
      (forall k :: 0 <= k < |w| && !w[k].isFinal ==> w[k].transcript == "") &&
      (exists k :: 0 <= k < |w| && w[k].isFinal && w[k].transcript != "")
  {
    DispatchIff(Window(results, resultIndex));
  }

  /** When the service fails, the sentinel is displayed, accumulated and spoken. */
  lemma ResultsWithFailedTranslation(s: State, results: seq<Fragment>, resultIndex: nat, service: Translator)
    requires Dispatches(Joined(Window(results, resultIndex), false), Joined(Window(results, resultIndex), true))
    requires service(SourceLang(s.currentLanguage), s.targetLanguage, Joined(Window(results, resultIndex), true)) == None
    ensures Results(s, results, resultIndex, service).0.translation == TranslationError
    ensures Results(s, results, resultIndex, service).0.hiddenText == s.hiddenText + TranslationError + " "
    ensures Results(s, results, resultIndex, service).1 == Some(Utterance(TranslationError, "tr-TR", "Turkish Male"))
  {
    var final := Joined(Window(results, resultIndex), true);
    assert TranslateText(service, s.currentLanguage, final, s.targetLanguage) == TranslationError;
    SentinelIsTrimmed();
    assert Accumulate(s.hiddenText, TranslationError) == s.hiddenText + TranslationError + " ";
    SentinelSpokenAsWritten();
    CallerNeverSelectsEnglish(s.targetLanguage, TranslationError);
  }

  /** The sentinel has no `0`, so `speakText` leaves it as it is. */
  lemma SentinelSpokenAsWritten()
    ensures SpaceZeros(TranslationError) == TranslationError
  {
    SpaceZerosNoZero(TranslationError);
  }

  /** Everything that can happen to the widget. */
  datatype Event =
    | ToggleClicked
    | StopClicked
    | StartClicked(supported: bool)
    | RecognitionStarted
    | ResultsArrived(results: seq<Fragment>, resultIndex: nat)
    | RecognitionError(error: string)
    | RecognitionEnded

  /** The handler an event runs. */
  function Next(s: State, e: Event, service: Translator): (r: State)
    ensures Inv(s) ==> Inv(r)
    ensures ButtonsExclusive(s) ==> ButtonsExclusive(r)
    ensures s.hiddenText <= r.hiddenText
  {
    match e
    case ToggleClicked => Toggle(s)
    case StopClicked => Stop(s)
    case StartClicked(supported) => Start(s, supported)
    case RecognitionStarted => Started(s)
    case ResultsArrived(results, resultIndex) => Results(s, results, resultIndex, service).0
    case RecognitionError(error) => Errored(s, error)
    case RecognitionEnded => Ended(s)
  }

  function Run(s: State, events: seq<Event>, service: Translator): State
    decreases |events|
  {
    if events == [] then s else Run(Next(s, events[0], service), events[1..], service)
  }

  /** Over any sequence of events the invariant holds, the buttons stay mutually exclusive
      once they are, and the hidden transcript only grows. */
  lemma {:induction false} RunPreserves(s: State, events: seq<Event>, service: Translator)
    requires Inv(s)
    ensures Inv(Run(s, events, service))
    ensures ButtonsExclusive(s) ==> ButtonsExclusive(Run(s, events, service))
    ensures s.hiddenText <= Run(s, events, service).hiddenText
    decreases |events|
  {
    if events != [] {
      var n := Next(s, events[0], service);
      RunPreserves(n, events[1..], service);
      PrefixTransitive(s.hiddenText, n.hiddenText, Run(s, events, service).hiddenText);
    }
  }

  /** From page load, the pair is always one of the two directions and the recognizer
      listens in the microphone locale whenever `isListening` holds. */
  lemma Reachable(startDisabled: bool, stopDisabled: bool, events: seq<Event>, service: Translator)
    ensures Inv(Run(Initial(startDisabled, stopDisabled), events, service))
  {
    RunPreserves(Initial(startDisabled, stopDisabled), events, service);
  }

  /** The page's state and its handlers. */
  class Controller {
    var currentLanguage: string
    var targetLanguage: string
    var isListening: bool
    var hasRecognizer: bool
    var recognizerLanguage: string
    var startDisabled: bool
    var stopDisabled: bool
    var transcript: string
    var translation: string
    var hiddenText: string

    function Snapshot(): State
      reads this
    {
      State(currentLanguage, targetLanguage, isListening, hasRecognizer, recognizerLanguage,
            startDisabled, stopDisabled, transcript, translation, hiddenText)
    }

    ghost predicate Valid()
      reads this
    {
      Inv(Snapshot())
    }

    constructor (startDisabled: bool, stopDisabled: bool)
      ensures Valid()
      ensures Snapshot() == Initial(startDisabled, stopDisabled)
    {
      currentLanguage, targetLanguage := EnglishMic, ToTurkish;
      isListening, hasRecognizer, recognizerLanguage := false, false, "";
      this.startDisabled, this.stopDisabled := startDisabled, stopDisabled;
      transcript, translation, hiddenText := "", "", "";
    }

    method StopListening()
      requires Valid()
      modifies this
      ensures Valid()
      ensures Snapshot() == Stop(old(Snapshot()))
    {
      if hasRecognizer {
        isListening := false;
        startDisabled := false;
        stopDisabled := true;
        transcript := "";
      }
    }

    /** The translation element's observer (`updateHiddenText`): the hidden transcript takes
        the value `Accumulate` computes from it and the displayed translation. */
    method UpdateHiddenText()
      modifies this
      ensures hiddenText == Accumulate(old(hiddenText), old(translation))
      ensures Snapshot() == old(Snapshot()).(hiddenText := hiddenText)
    {
      hiddenText := Accumulate(hiddenText, translation);
    }

    method ToggleLanguage()
      requires Valid()
      modifies this
      ensures Valid()
      ensures Snapshot() == Toggle(old(Snapshot()))
    {
      StopListening();
      startDisabled := false;
      stopDisabled := true;
      transcript := "";
      translation := "";
      UpdateHiddenText();
      if currentLanguage == EnglishMic {
        currentLanguage := TurkishMic;
        targetLanguage := ToEnglish;
      } else {
        currentLanguage := EnglishMic;
        targetLanguage := ToTurkish;
      }
    }

    method StartRecording(supported: bool)
      requires Valid()
      modifies this
      ensures Valid()
      ensures Snapshot() == Start(old(Snapshot()), supported)
    {
      if !supported {
        return;
      }
      hasRecognizer := true;
      recognizerLanguage := currentLanguage;
      isListening := true;
    }

    method OnStart()
      requires Valid()
      modifies this
      ensures Valid()
      ensures Snapshot() == Started(old(Snapshot()))
    {
      transcript := ListeningText;
      startDisabled := true;
      stopDisabled := false;
    }

    /** The inner block of `onresult`: translate `final`, display the translation (which runs
        the observer) and hand it to `speakText`. */
    method Dispatch(final: string, service: Translator) returns (spoken: Utterance)
      modifies this
      ensures translation == TranslateText(service, old(currentLanguage), final, old(targetLanguage))
      ensures hiddenText == Accumulate(old(hiddenText), translation)
      ensures Snapshot() == old(Snapshot()).(translation := translation, hiddenText := hiddenText)
      ensures spoken == Speak(translation, CallerLocale(targetLanguage))
    {
      var translated := TranslateText(service, currentLanguage, final, targetLanguage);
      translation := translated;
      spoken := Speak(translated, CallerLocale(targetLanguage));
      UpdateHiddenText();
    }

    /** `spoken` is what is handed to `speakText`, if anything. */
    method OnResult(results: seq<Fragment>, resultIndex: nat, service: Translator) returns (spoken: Option<Utterance>)
      requires Valid()
      modifies this
      ensures Valid()
      ensures (Snapshot(), spoken) == Results(old(Snapshot()), results, resultIndex, service)
    {
      var interim, final := SplitResults(results, resultIndex);
      transcript := interim + final;
      spoken := None;
      if interim == "" {
        if final != "" {
          var utterance := Dispatch(final, service);
          spoken := Some(utterance);
        }
      }
    }

    method OnError(error: string)
      requires Valid()
      modifies this
      ensures Valid()
      ensures Snapshot() == Errored(old(Snapshot()), error)
    {
      transcript := ErrorPrefix + error;
      StopListening();
    }

    method OnEnd()
      requires Valid()
      modifies this
      ensures Valid()
      ensures Snapshot() == Ended(old(Snapshot()))
    {
      if isListening {
        startDisabled := false;
        stopDisabled := true;
      }
    }

    /** The download button's handler. */
    method DownloadClicked() returns (e: Export)
      ensures e == Download(hiddenText)
      ensures e.Refused? <==> CheckHiddenTextOpacity() == "0"
    {
      var text := Trim(hiddenText);
      TrimEmptyIff(hiddenText);
      if text == "" {
        return Refused;
      }
      e := File(FileName, text);
    }

    /** `checkHiddenText`. */
    function CheckHiddenTextOpacity(): (o: string)
      reads this
      ensures o == "0" || o == "1"
      ensures o == "0" <==> AllWhite(hiddenText)
    {
      TrimEmptyIff(hiddenText);
      Opacity(hiddenText)
    }
  }
}
