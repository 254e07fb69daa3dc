/** String helpers the widget uses: `String.prototype.trim` and the first field of `split`. */
module Text {

  /** The characters `trim` strips: ECMAScript WhiteSpace (TAB, VT, FF, SP, NBSP, ZWNBSP and
      the Zs category) and LineTerminator (LF, CR, LS, PS). */
  predicate IsWhite(c: char) {
    || c == '\t' || c == '\n' || c == '\U{B}' || c == '\U{C}' || c == '\r'
    || c == ' ' || c == '\U{A0}' || c == '\U{1680}'
    || ('\U{2000}' <= c <= '\U{200A}')
    || c == '\U{2028}' || c == '\U{2029}' || c == '\U{202F}' || c == '\U{205F}'
    || c == '\U{3000}' || c == '\U{FEFF}'
  }

  predicate AllWhite(s: string) {
    forall i :: 0 <= i < |s| ==> IsWhite(s[i])
  }

  /** A string `trim` leaves alone: empty, or starting and ending with a non-white character. */
  predicate Trimmed(s: string) {
    s == [] || (!IsWhite(s[0]) && !IsWhite(s[|s| - 1]))
  }

  /** Drops the leading white characters: the result is the suffix of `s` after a white run. */
  function TrimStart(s: string): (r: string)
    ensures |r| <= |s| && r == s[|s| - |r|..]
    ensures r != [] ==> !IsWhite(r[0])
  {
    if s != [] && IsWhite(s[0]) then TrimStart(s[1..]) else s
  }

  /** What `TrimStart` drops is white. */
  lemma {:induction false} TrimStartDropsWhite(s: string)
    ensures AllWhite(s[..|s| - |TrimStart(s)|])
  {
    if s != [] && IsWhite(s[0]) {
      TrimStartDropsWhite(s[1..]);
      assert s[..|s| - |TrimStart(s)|] == [s[0]] + s[1..][..|s| - 1 - |TrimStart(s[1..])|];
    }
  }

  /** Drops the trailing white characters: the result is the prefix of `s` before a white run. */
  function TrimEnd(s: string): (r: string)
    ensures |r| <= |s| && r == s[..|r|]
    ensures r != [] ==> !IsWhite(r[|r| - 1])
  {
    if s != [] && IsWhite(s[|s| - 1]) then TrimEnd(s[..|s| - 1]) else s
  }

  /** What `TrimEnd` drops is white. */
  lemma {:induction false} TrimEndDropsWhite(s: string)
    ensures AllWhite(s[|TrimEnd(s)|..])
  {
    if s != [] && IsWhite(s[|s| - 1]) {
      TrimEndDropsWhite(s[..|s| - 1]);
      assert s[|TrimEnd(s)|..] == s[..|s| - 1][|TrimEnd(s[..|s| - 1])|..] + [s[|s| - 1]];
    }
  }

  /** `s.trim()`. */
  function Trim(s: string): (r: string)
    ensures Trimmed(r)
    ensures |r| <= |s|
  {
    TrimEnd(TrimStart(s))
  }

  /** `trim` yields the empty string exactly when every character is white. */
  lemma TrimEmptyIff(s: string)
    ensures Trim(s) == [] <==> AllWhite(s)
  {
    var t := TrimStart(s);
    var k := |s| - |t|;
    TrimStartDropsWhite(s);
    TrimEndDropsWhite(t);
    if Trim(s) == [] {
      forall i | 0 <= i < |s| ensures IsWhite(s[i]) {
        assert s[..k][i] == s[i];
      }
    }
  }

  /** `trim` keeps exactly the middle of `s`: what lies between a white prefix and a white
      suffix. */
  lemma TrimIsMiddle(s: string) returns (i: nat, j: nat)
    ensures i <= j <= |s| && Trim(s) == s[i..j]
    ensures AllWhite(s[..i]) && AllWhite(s[j..])
  {
    var t := TrimStart(s);
    var r := TrimEnd(t);
    i, j := |s| - |t|, |s| - |t| + |r|;
    TrimStartDropsWhite(s);
    TrimEndDropsWhite(t);
    assert Trim(s) == r == t[..|r|] == s[i..j];
    assert t[|r|..] == s[j..];
  }

  /** A string that starts and ends with non-white characters is its own trim. */
  lemma TrimOfTrimmed(s: string)
    requires Trimmed(s)
    ensures Trim(s) == s
  {
    assert TrimStart(s) == s;
    assert TrimEnd(s) == s;
  }

  /** Trimming twice is trimming once. */
  lemma TrimIdempotent(s: string)
    ensures Trim(Trim(s)) == Trim(s)
  {
    TrimOfTrimmed(Trim(s));
  }

  /** A trailing white character makes no difference to `TrimEnd`. */
  lemma TrimEndIgnoresWhite(s: string, c: char)
    requires IsWhite(c)
    ensures TrimEnd(s + [c]) == TrimEnd(s)
  {
    assert (s + [c])[..|s + [c]| - 1] == s;
  }

  /** `s.split(sep)[0]`: the part of `s` before the first `sep`, or all of `s` when there is none. */
  function FirstField(s: string, sep: char): (r: string)
    ensures r <= s
    ensures sep !in r
    ensures |r| < |s| ==> s[|r|] == sep
  {
    if s == [] || s[0] == sep then [] else [s[0]] + FirstField(s[1..], sep)
  }

  lemma PrefixTransitive(a: string, b: string, c: string)
    requires a <= b && b <= c
    ensures a <= c
  {
    assert c[..|b|][..|a|] == c[..|a|];
  }
}
