/** `speakText`: the text rewrite before speaking and the voice chosen for a language tag.
    Which speech backend runs (browser synthesis or ResponsiveVoice) depends on the user
    agent, so an utterance records the choice each backend would make. */
module Speech {

  /** What `speakText(text, targetLang)` hands to a speech backend. */
  datatype Utterance = Utterance(
    text: string,       // the rewritten text
    language: string,   // `utterance.lang` on the browser-synthesis path
    voiceName: string)  // the ResponsiveVoice voice on the other path

  /** The number of `0` characters in `s`. */
  function Zeros(s: string): nat {
    if s == [] then 0 else (if s[0] == '0' then 1 else 0) + Zeros(s[1..])
  }

  /** `text.replace(/0/g, ' 0')`: a space before every `0`, so that digits are read apart. */
  function SpaceZeros(s: string): (r: string)
    ensures |r| == |s| + Zeros(s)
    ensures r != [] ==> r[0] != '0'
    ensures forall i, j :: 0 <= i < j < |r| && j == i + 1 && r[j] == '0' ==> r[i] == ' '
  {
    if s == [] then []
    else (if s[0] == '0' then " 0" else [s[0]]) + SpaceZeros(s[1..])
  }

  /** Undoes `SpaceZeros`: drops the space of every `" 0"`. */
  function RestoreZeros(r: string): string {
    if r == [] then []
    else if |r| >= 2 && r[0] == ' ' && r[1] == '0' then "0" + RestoreZeros(r[2..])
    else [r[0]] + RestoreZeros(r[1..])
  }

  /** The rewrite loses nothing: the original text can be read back from the spoken one. */
  lemma {:induction false} RestoreSpaceZeros(s: string)
    ensures RestoreZeros(SpaceZeros(s)) == s
  {
    if s != [] {
      var rest := SpaceZeros(s[1..]);
      RestoreSpaceZeros(s[1..]);
      if s[0] == '0' {
        assert SpaceZeros(s) == " 0" + rest;
        assert SpaceZeros(s)[2..] == rest;
      } else {
        assert SpaceZeros(s) == [s[0]] + rest;
        assert SpaceZeros(s)[1..] == rest;
      }
    }
  }

  /** A text without zeros is spoken as written. */
  lemma {:induction false} SpaceZerosNoZero(s: string)
    requires '0' !in s
    ensures SpaceZeros(s) == s
  {
    if s != [] {
      assert s[0] != '0';
      SpaceZerosNoZero(s[1..]);
    }
  }

  /** The language passed by the `onresult` handler: `tr-TR` when the target is `tr`,
      `en-US` otherwise. */
  function CallerLocale(targetLanguage: string): (r: string)
    ensures r == "tr-TR" <==> targetLanguage == "tr"
    ensures r == "tr-TR" || r == "en-US"
  {
    if targetLanguage == "tr" then "tr-TR" else "en-US"
  }

  /** The browser-synthesis language for `targetLang`: British English only for exactly `en`. */
  function SynthesisLanguage(targetLang: string): (r: string)
    ensures r == "en-GB" <==> targetLang == "en"
    ensures r == "en-GB" || r == "tr-TR"
  {
    if targetLang == "en" then "en-GB" else "tr-TR"
  }

  /** The ResponsiveVoice voice for `targetLang`: the English voice only for exactly `en`. */
  function ResponsiveVoiceName(targetLang: string): (r: string)
    ensures r == "UK English Male" <==> targetLang == "en"
    ensures r == "UK English Male" || r == "Turkish Male"
  {
    if targetLang == "en" then "UK English Male" else "Turkish Male"
  }

  /** `speakText(text, targetLang)`. */
  function Speak(text: string, targetLang: string): (u: Utterance)
    ensures u.text == SpaceZeros(text) && RestoreZeros(u.text) == text
    ensures u.language == SynthesisLanguage(targetLang) && u.voiceName == ResponsiveVoiceName(targetLang)
    ensures u.language == "en-GB" <==> u.voiceName == "UK English Male"
    ensures u.language == "en-GB" <==> targetLang == "en"
  {
    RestoreSpaceZeros(text);
    Utterance(SpaceZeros(text), SynthesisLanguage(targetLang), ResponsiveVoiceName(targetLang))
  }

  /** The locale the `onresult` handler passes is never exactly `en`, so from that caller both
      backends always pick the Turkish voice, in either direction. */
  lemma CallerNeverSelectsEnglish(targetLanguage: string, text: string)
    ensures Speak(text, CallerLocale(targetLanguage)).language == "tr-TR"
    ensures Speak(text, CallerLocale(targetLanguage)).voiceName == "Turkish Male"
  {
  }
}
