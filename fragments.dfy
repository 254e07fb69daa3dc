/** The `onresult` handler's first half: splitting the recognizer's results into interim and
    final text, and the rule that decides whether a translation is requested. */
module Fragments {

  /** One entry of `event.results`: the transcript of its first alternative and `isFinal`. */
  datatype Fragment = Fragment(transcript: string, isFinal: bool)

  /** The results the handler's loop visits: from `resultIndex` to the end, or none when
      `resultIndex` is past the end. */
  function Window(results: seq<Fragment>, resultIndex: nat): (w: seq<Fragment>)
    ensures |w| == if resultIndex <= |results| then |results| - resultIndex else 0
    ensures forall k :: 0 <= k < |w| ==> w[k] == results[resultIndex + k]
  {
    if resultIndex <= |results| then results[resultIndex..] else []
  }

  /** The transcripts of the fragments whose `isFinal` equals `final`, concatenated in order,
      as the loop appends them. */
  function Joined(rs: seq<Fragment>, final: bool): string {
    if rs == [] then ""
    else
      var last := rs[|rs| - 1];
      Joined(rs[..|rs| - 1], final) + (if last.isFinal == final then last.transcript else "")
  }

  /** An independent reading of the same text: keep the fragments of one kind, then concatenate. */
  function Only(rs: seq<Fragment>, final: bool): seq<Fragment> {
    if rs == [] then []
    else (if rs[0].isFinal == final then [rs[0]] else []) + Only(rs[1..], final)
  }

  function Concat(rs: seq<Fragment>): string {
    if rs == [] then "" else rs[0].transcript + Concat(rs[1..])
  }

  lemma {:induction false} JoinedAppend(a: seq<Fragment>, b: seq<Fragment>, final: bool)
    ensures Joined(a + b, final) == Joined(a, final) + Joined(b, final)
    decreases |b|
  {
    if b == [] {
      assert a + b == a;
    } else {
      var b' := b[..|b| - 1];
      assert (a + b)[..|a + b| - 1] == a + b';
      JoinedAppend(a, b', final);
    }
  }

  /** The loop's accumulation agrees with "filter, then concatenate". */
  lemma {:induction false} JoinedIsConcatOfOnly(rs: seq<Fragment>, final: bool)
    ensures Joined(rs, final) == Concat(Only(rs, final))
  {
    if rs != [] {
      JoinedIsConcatOfOnly(rs[1..], final);
      JoinedAppend([rs[0]], rs[1..], final);
      assert [rs[0]] + rs[1..] == rs;
      assert [rs[0]][..0] == [];
      assert Joined([rs[0]], final) == if rs[0].isFinal == final then rs[0].transcript else "";
      var tail := Only(rs[1..], final);
      if rs[0].isFinal == final {
        assert ([rs[0]] + tail)[1..] == tail;
        assert Concat([rs[0]] + tail) == rs[0].transcript + Concat(tail);
      } else {
        assert Only(rs, final) == tail;
      }
    }
  }

  /** The text of one kind is empty exactly when every fragment of that kind is empty. */
  lemma {:induction false} JoinedEmptyIff(rs: seq<Fragment>, final: bool)
    ensures Joined(rs, final) == "" <==>
      forall k :: 0 <= k < |rs| && rs[k].isFinal == final ==> rs[k].transcript == ""
  {
    if rs != [] {
      var init := rs[..|rs| - 1];
      JoinedEmptyIff(init, final);
      assert forall k :: 0 <= k < |init| ==> init[k] == rs[k];
    }
  }

  /** `!interimTranscript && finalTranscript` (JavaScript's truthiness of strings). */
  predicate Dispatches(interim: string, final: string) {
    interim == "" && final != ""
  }

  /** A translation is requested exactly when every interim fragment of the window is empty
      and some final fragment is not. */
  lemma DispatchIff(rs: seq<Fragment>)
    ensures Dispatches(Joined(rs, false), Joined(rs, true)) <==>
      (forall k :: 0 <= k < |rs| && !rs[k].isFinal ==> rs[k].transcript == "") &&
      (exists k :: 0 <= k < |rs| && rs[k].isFinal && rs[k].transcript != "")
  {
    JoinedEmptyIff(rs, false);
    JoinedEmptyIff(rs, true);
  }

  /** The handler's `for` loop over `event.results` from `event.resultIndex`. */
  method SplitResults(results: seq<Fragment>, resultIndex: nat) returns (interim: string, final: string)
    ensures interim == Joined(Window(results, resultIndex), false)
    ensures final == Joined(Window(results, resultIndex), true)
  {
    interim, final := "", "";
    var i := resultIndex;
    while i < |results|
      invariant resultIndex <= i
      invariant |results| < resultIndex ==> i == resultIndex && interim == "" && final == ""
      invariant resultIndex <= |results| ==> i <= |results|
      invariant resultIndex <= |results| ==> interim == Joined(results[resultIndex..i], false)
      invariant resultIndex <= |results| ==> final == Joined(results[resultIndex..i], true)
    {
      assert results[resultIndex..i + 1][..i - resultIndex] == results[resultIndex..i];
      var result := results[i];
      if result.isFinal {
        final := final + result.transcript;
      } else {
        interim := interim + result.transcript;
      }
      i := i + 1;
    }
    assert resultIndex <= |results| ==> results[resultIndex..i] == results[resultIndex..];
  }
}
