/** String helpers of the app. */
module Helpers {

  /**
   * `s.remove(prefix: p)`: s without its first |p| characters. Only the
   * length of p is used; s is not checked to start with p.
   */
  function RemovePrefix(s: string, prefix: string): (r: string)
    ensures |r| == if |s| >= |prefix| then |s| - |prefix| else 0
    ensures forall i :: 0 <= i < |r| ==> r[i] == s[|s| - |r| + i]
  {
    if |prefix| <= |s| then s[|prefix|..] else []
  }

  /** The result depends on the prefix only through its length. */
  lemma RemovePrefixUsesLengthOnly(s: string, p: string, q: string)
    requires |p| == |q|
    ensures RemovePrefix(s, p) == RemovePrefix(s, q)
  {
  }

  /** When p really is a prefix of s, removing it and putting it back gives s. */
  lemma RemovePrefixRoundTrip(s: string, p: string)
    requires p <= s
    ensures p + RemovePrefix(s, p) == s
  {
    assert s == s[..|p|] + s[|p|..];
  }

  /** A string that does not start with p still loses |p| characters. */
  lemma RemovePrefixDoesNotCheck(s: string, p: string)
    requires |p| <= |s|
    ensures RemovePrefix(s, p) == s[|p|..]
  {
  }
}
