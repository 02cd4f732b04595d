/** Python's `str.strip()` with no argument: remove leading and trailing
    whitespace, where whitespace is what `str.isspace()` accepts. */
module Whitespace {

  /** The characters Python's `str.isspace()` accepts. */
  predicate IsSpace(c: char)
  {
    || c == ' '
    || '\t' <= c <= '\r'
    || '\U{1c}' <= c <= '\U{1f}'
    || c == '\U{85}' || c == '\U{a0}' || c == '\U{1680}'
    || '\U{2000}' <= c <= '\U{200a}'
    || c == '\U{2028}' || c == '\U{2029}' || c == '\U{202f}'
    || c == '\U{205f}' || c == '\U{3000}'
  }

  /** Length of the whitespace run at the start of `s`. */
  function LeadingSpaces(s: string): (n: nat)
    ensures n <= |s|
    ensures forall k :: 0 <= k < n ==> IsSpace(s[k])
    ensures n < |s| ==> !IsSpace(s[n])
  {
    if s == [] || !IsSpace(s[0]) then 0 else 1 + LeadingSpaces(s[1..])
  }

  /** Length of the whitespace run at the end of `s`. */
  function TrailingSpaces(s: string): (n: nat)
    ensures n <= |s|
    ensures forall k :: |s| - n <= k < |s| ==> IsSpace(s[k])
    ensures n < |s| ==> !IsSpace(s[|s| - 1 - n])
  {
    if s == [] || !IsSpace(s[|s| - 1]) then 0 else 1 + TrailingSpaces(s[..|s| - 1])
  }

  /** `s.strip()`. */
  function Strip(s: string): (r: string)
    ensures |r| <= |s|
    ensures r == [] <==> forall k :: 0 <= k < |s| ==> IsSpace(s[k])
    ensures r != [] ==> !IsSpace(r[0]) && !IsSpace(r[|r| - 1])
  {
    var lead := LeadingSpaces(s);
    if lead == |s| then []
    else
      var trail := TrailingSpaces(s);
      assert !IsSpace(s[lead]);
      s[lead..|s| - trail]
  }

  /** Stripping removes whitespace only: a non-empty result is the input
      with its leading and its trailing whitespace run cut off (and an
      empty result means the input was all whitespace, see Strip). */
  lemma StripIsInnerSlice(s: string)
    requires Strip(s) != []
    ensures s == s[..LeadingSpaces(s)] + Strip(s) + s[|s| - TrailingSpaces(s)..]
  {
    StripCutsBothRuns(s);
    SplitInThree(s, LeadingSpaces(s), |s| - TrailingSpaces(s));
  }

  /** Proof step of StripIsInnerSlice: Strip's result as a slice, proved
      apart so that the concatenation argument does not unfold Strip. */
  lemma StripCutsBothRuns(s: string)
    ensures Strip(s) != [] ==> Strip(s) == s[LeadingSpaces(s)..|s| - TrailingSpaces(s)]
  {
  }

  lemma SplitInThree(s: string, i: nat, j: nat)
    requires i <= j <= |s|
    ensures s == s[..i] + s[i..j] + s[j..]
  {
    assert s[..j] == s[..i] + s[i..j];
    assert s == s[..j] + s[j..];
  }
}
