/** The two translation directions the widget switches between: the microphone locale
    (`currentLanguage`) and the translation target (`targetLanguage`). */
module Direction {

  const EnglishMic := "en-US"
  const TurkishMic := "tr-TR"
  const ToEnglish := "en"
  const ToTurkish := "tr"

  /** The pairs the toggle handler ever assigns: English to Turkish (the start-up default)
      or Turkish to English. */
  predicate IsDirection(currentLanguage: string, targetLanguage: string) {
    || (currentLanguage == EnglishMic && targetLanguage == ToTurkish)
    || (currentLanguage == TurkishMic && targetLanguage == ToEnglish)
  }

  /** The pair the toggle handler assigns, which depends only on the old microphone locale:
      anything other than `en-US` switches back to English. */
  function Toggled(currentLanguage: string): (r: (string, string))
    ensures IsDirection(r.0, r.1)
    ensures r.0 != currentLanguage
    ensures currentLanguage == EnglishMic <==> r == (TurkishMic, ToEnglish)
  {
    if currentLanguage == EnglishMic then (TurkishMic, ToEnglish) else (EnglishMic, ToTurkish)
  }

  /** Toggling twice restores a direction. */
  lemma ToggleTwice(currentLanguage: string, targetLanguage: string)
    requires IsDirection(currentLanguage, targetLanguage)
    ensures Toggled(Toggled(currentLanguage).0) == (currentLanguage, targetLanguage)
  {
  }
}
