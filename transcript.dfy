/** The hidden transcript: `updateHiddenText` appends each displayed translation, the download
    button exports it, and `checkHiddenText` shows or hides the button. */
module Transcript {
  import opened Text

  const FileName := "AIandAIOT_translated_text.txt"

  /** `updateHiddenText` with `shown` the translation element's text: appends the trimmed text
      and one space, unless the trimmed text is empty. */
  function Accumulate(hidden: string, shown: string): (r: string)
    ensures hidden <= r
    ensures r != hidden ==> r[|hidden|..] == Trim(shown) + " " && Trim(shown) != ""
  {
    if Trim(shown) != "" then hidden + Trim(shown) + " " else hidden
  }

  /** The accumulator leaves the hidden text as it is exactly when the displayed text is blank. */
  lemma AccumulateUnchangedIff(hidden: string, shown: string)
    ensures Accumulate(hidden, shown) == hidden <==> AllWhite(shown)
  {
    TrimEmptyIff(shown);
  }

  datatype Export = Refused | File(name: string, content: string)

  /** The download handler: refuses (with an alert) when the trimmed hidden text is empty,
      otherwise offers a plain-text file holding the trimmed hidden text. */
  function Download(hidden: string): (e: Export)
    ensures e.Refused? <==> AllWhite(hidden)
    ensures e.File? ==> e.name == FileName && e.content == Trim(hidden)
    ensures e.File? ==> e.content != "" && Trimmed(e.content)
  {
    TrimEmptyIff(hidden);
    if Trim(hidden) == "" then Refused else File(FileName, Trim(hidden))
  }

  /** `checkHiddenText`: the download button's opacity, `0` exactly when there is nothing to
      export. */
  function Opacity(hidden: string): (o: string)
    ensures o == "0" || o == "1"
    ensures o == "0" <==> Download(hidden).Refused?
  {
    if Trim(hidden) == "" then "0" else "1"
  }

  /** Once a non-blank translation has been accumulated, the button is shown. */
  lemma ShownAfterAppend(hidden: string, shown: string)
    requires !AllWhite(shown)
    ensures Opacity(Accumulate(hidden, shown)) == "1"
  {
    var r := Accumulate(hidden, shown);
    var t := Trim(shown);
    TrimEmptyIff(shown);
    assert r[|hidden|] == t[0];
    TrimEmptyIff(r);
  }

  /** The hidden text after the translation element showed `shown`, one value at a time. */
  function History(shown: seq<string>): string {
    if shown == [] then "" else Accumulate(History(shown[..|shown| - 1]), shown[|shown| - 1])
  }

  /** The sentences that reach the transcript: the non-blank displayed texts, trimmed. */
  function Words(shown: seq<string>): (ws: seq<string>)
    ensures forall k :: 0 <= k < |ws| ==> ws[k] != "" && Trimmed(ws[k])
  {
    if shown == [] then []
    else
      var init := Words(shown[..|shown| - 1]);
      var t := Trim(shown[|shown| - 1]);
      if t == "" then init else AppendWord(init, t); init + [t]
  }

  /** Appending one more non-empty, trimmed sentence keeps every sentence non-empty and trimmed. */
  lemma AppendWord(ws: seq<string>, t: string)
    requires forall k :: 0 <= k < |ws| ==> ws[k] != "" && Trimmed(ws[k])
    requires t != "" && Trimmed(t)
    ensures forall k :: 0 <= k < |ws + [t]| ==> (ws + [t])[k] != "" && Trimmed((ws + [t])[k])
  {
  }

  /** Each sentence followed by one space: what the accumulator builds. */
  function SpaceTerminated(ws: seq<string>): string {
    if ws == [] then "" else SpaceTerminated(ws[..|ws| - 1]) + ws[|ws| - 1] + " "
  }

  /** The sentences separated by single spaces. */
  function Spaced(ws: seq<string>): (r: string)
    requires ws != []
    requires forall k :: 0 <= k < |ws| ==> ws[k] != ""
    ensures r != [] && r[0] == ws[0][0] && r[|r| - 1] == ws[|ws| - 1][|ws[|ws| - 1]| - 1]
  {
    if |ws| == 1 then ws[0] else Spaced(ws[..|ws| - 1]) + " " + ws[|ws| - 1]
  }

  lemma {:induction false} HistoryIsSpaceTerminatedWords(shown: seq<string>)
    ensures History(shown) == SpaceTerminated(Words(shown))
  {
    if shown != [] {
      var init := shown[..|shown| - 1];
      HistoryIsSpaceTerminatedWords(init);
      var t := Trim(shown[|shown| - 1]);
      if t != "" {
        var ws := Words(init) + [t];
        assert Words(shown) == ws;
        assert History(shown) == History(init) + t + " ";
        assert ws[..|ws| - 1] == Words(init);
        assert SpaceTerminated(ws) == SpaceTerminated(Words(init)) + t + " ";
      } else {
        assert Words(shown) == Words(init) + [] == Words(init);
        assert History(shown) == Accumulate(History(init), shown[|shown| - 1]) == History(init);
      }
    }
  }

  lemma {:induction false} SpaceTerminatedIsSpacedPlusSpace(ws: seq<string>)
    requires ws != []
    requires forall k :: 0 <= k < |ws| ==> ws[k] != ""
    ensures SpaceTerminated(ws) == Spaced(ws) + " "
  {
    if |ws| > 1 {
      SpaceTerminatedIsSpacedPlusSpace(ws[..|ws| - 1]);
    } else {
      assert ws[..0] == [];
    }
  }

  /** Exporting after a run of translations: refused when none was non-blank, otherwise the
      file holds the non-blank translations, trimmed, separated by single spaces and with no
      trailing space (the download handler trims the accumulator's last space). */
  lemma DownloadOfHistory(shown: seq<string>)
    ensures Words(shown) == [] ==> Download(History(shown)) == Refused
    ensures Words(shown) != [] ==> Download(History(shown)) == File(FileName, Spaced(Words(shown)))
  {
    var ws := Words(shown);
    HistoryIsSpaceTerminatedWords(shown);
    if ws != [] {
      var x := Spaced(ws);
      SpaceTerminatedIsSpacedPlusSpace(ws);
      assert TrimStart(x + " ") == x + " ";
      TrimEndIgnoresWhite(x, ' ');
      assert TrimEnd(x) == x;
    }
  }
}
