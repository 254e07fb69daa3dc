/** `translateText`: the request the widget makes of the translation service and how it turns
    the outcome into the text it displays. The service itself is a parameter. */
module Translation {
  import opened Text
  import opened Direction

  datatype Option<T> = None | Some(value: T)

  /** The remote translator, given the source language, the target language and the text:
      `Some` of the translated text, or `None` when the request or its decoding throws. */
  type Translator = (string, string, string) -> Option<string>

  const TranslationError := "Translation Error"

  /** `currentLanguage.split("-")[0]`. */
  function SourceLang(currentLanguage: string): (r: string)
    ensures r <= currentLanguage && '-' !in r
    ensures |r| < |currentLanguage| ==> currentLanguage[|r|] == '-'
  {
    FirstField(currentLanguage, '-')
  }

  /** In both directions the source language is the language code of the microphone locale,
      which is the target of the opposite direction and never the current target. */
  lemma SourceLangOfDirection(currentLanguage: string, targetLanguage: string)
    requires IsDirection(currentLanguage, targetLanguage)
    ensures SourceLang(currentLanguage) == Toggled(currentLanguage).1
    ensures SourceLang(currentLanguage) != targetLanguage
    ensures SourceLang(currentLanguage) == (if currentLanguage == EnglishMic then "en" else "tr")
  {
    var s := currentLanguage;
    assert s[2] == '-';
    assert FirstField(s[2..], '-') == [];
    assert FirstField(s[1..], '-') == [s[1]];
    assert FirstField(s, '-') == [s[0], s[1]];
  }

  /** `translateText(text, targetLang)` with the recognizer in `currentLanguage`: the
      service's answer, or the fixed sentinel when the service fails. */
  function TranslateText(service: Translator, currentLanguage: string, text: string, targetLang: string): (r: string)
    ensures service(SourceLang(currentLanguage), targetLang, text) == None ==> r == TranslationError
    ensures service(SourceLang(currentLanguage), targetLang, text).Some? ==>
      r == service(SourceLang(currentLanguage), targetLang, text).value
    ensures r == TranslationError || service(SourceLang(currentLanguage), targetLang, text) == Some(r)
  {
    match service(SourceLang(currentLanguage), targetLang, text)
    case Some(translated) => translated
    case None => TranslationError
  }

  /** The sentinel survives `trim` unchanged, so it is what the transcript accumulates. */
  lemma SentinelIsTrimmed()
    ensures Trim(TranslationError) == TranslationError
  {
    TrimOfTrimmed(TranslationError);
  }
}
