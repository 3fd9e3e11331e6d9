/** Python's notions of line boundary and white space, and str.strip. */
module Strings {

  // The boundaries str.splitlines recognizes.
  predicate IsBreak(c: char) {
    '\n' <= c <= '\r' || '\U{1C}' <= c <= '\U{1E}' || c == '\U{85}' || c == '\U{2028}' || c == '\U{2029}'
  }

  // str.isspace, which strip and split go by.
  predicate IsSpace(c: char) {
    || IsBreak(c) || c == '\t' || c == ' ' || c == '\U{1F}' || c == '\U{A0}' || c == '\U{1680}'
    || '\U{2000}' <= c <= '\U{200A}' || c == '\U{202F}' || c == '\U{205F}' || c == '\U{3000}'
  }

  function Strip(s: string): string
    decreases |s|
  {
    if s == "" then "" else if IsSpace(s[0]) then Strip(s[1..]) else if IsSpace(s[|s| - 1]) then Strip(s[..|s| - 1]) else s
  }

  lemma {:induction false} StripTwice(s: string)
    ensures Strip(Strip(s)) == Strip(s)
    decreases |s|
  {
    if s != "" {
      if IsSpace(s[0]) { StripTwice(s[1..]); }
      else if IsSpace(s[|s| - 1]) { StripTwice(s[..|s| - 1]); }
    }
  }

  /** Strip cuts white space off both ends and nothing else. */
  lemma {:induction false} StripMeaning(s: string) returns (i: nat, j: nat)
    ensures i <= j <= |s| && Strip(s) == s[i..j]
    ensures forall k :: 0 <= k < |s| && (k < i || j <= k) ==> IsSpace(s[k])
    ensures i < j ==> !IsSpace(s[i]) && !IsSpace(s[j - 1])
    decreases |s|
  {
    i, j := 0, |s|;
    if s == "" {
    } else if IsSpace(s[0]) {
      var a, b := StripMeaning(s[1..]);
      i, j := a + 1, b + 1;
      assert s[1..][a..b] == s[i..j];
      forall k | 0 <= k < |s| && (k < i || j <= k) ensures IsSpace(s[k]) {
        if k > 0 { assert s[k] == s[1..][k - 1]; }
      }
    } else if IsSpace(s[|s| - 1]) {
      i, j := StripMeaning(s[..|s| - 1]);
      assert s[..|s| - 1][i..j] == s[i..j];
      forall k | 0 <= k < |s| && (k < i || j <= k) ensures IsSpace(s[k]) {
        if k < |s| - 1 { assert s[k] == s[..|s| - 1][k]; }
      }
    } else {
      assert s[0..|s|] == s;
    }
  }

  /** Something is left exactly of a text that is not all white space. */
  lemma StripKeepsText(s: string)
    ensures Strip(s) != "" <==> exists k :: 0 <= k < |s| && !IsSpace(s[k])
  {
    var i, j := StripMeaning(s);
    if i < j { assert !IsSpace(s[i]); }
  }
}
