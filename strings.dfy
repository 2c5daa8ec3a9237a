/**
 * The two library string operations the core relies on: splitting on a
 * separator character with empty pieces omitted (the behaviour of Swift's
 * `split(separator:)` with its default arguments) and trimming the
 * whitespace-and-newline characters from both ends (Foundation's
 * `trimmingCharacters(in: .whitespacesAndNewlines)`).
 */
module Strings {

  /** Concatenation of a sequence of strings. */
  function Flatten(parts: seq<string>): string
  {
    if parts == [] then [] else parts[0] + Flatten(parts[1..])
  }

  /** The characters of s other than c, in order. */
  function Without(s: string, c: char): (r: string)
    ensures c !in r
  {
    if s == [] then []
    else (if s[0] == c then [] else [s[0]]) + Without(s[1..], c)
  }

  /** The longest prefix of s that does not contain sep. */
  function Word(s: string, sep: char): (w: string)
    ensures w <= s
    ensures sep !in w
    ensures |w| < |s| ==> s[|w|] == sep
  {
    if s == [] || s[0] == sep then [] else [s[0]] + Word(s[1..], sep)
  }

  /**
   * The maximal non-empty runs of characters other than sep, in order:
   * separators at either end or next to each other produce no empty piece.
   */
  function Split(s: string, sep: char): (r: seq<string>)
    ensures forall i :: 0 <= i < |r| ==> |r[i]| > 0 && sep !in r[i]
    decreases |s|
  {
    if s == [] then []
    else if s[0] == sep then Split(s[1..], sep)
    else
      var w := Word(s, sep);
      [w] + Split(s[|w|..], sep)
  }

  /** Splitting loses exactly the separators. */
  lemma {:induction false} SplitFlatten(s: string, sep: char)
    ensures Flatten(Split(s, sep)) == Without(s, sep)
    decreases |s|
  {
    if s == [] {
    } else if s[0] == sep {
      SplitFlatten(s[1..], sep);
      assert Without(s, sep) == Without(s[1..], sep);
    } else {
      var w := Word(s, sep);
      SplitFlatten(s[|w|..], sep);
      assert Split(s, sep) == [w] + Split(s[|w|..], sep);
      assert Flatten(Split(s, sep)) == w + Flatten(Split(s[|w|..], sep));
      WithoutOfWord(s, sep);
    }
  }

  /** Dropping separators from s is the word followed by the rest without separators. */
  lemma {:induction false} WithoutOfWord(s: string, sep: char)
    ensures Without(s, sep) == Word(s, sep) + Without(s[|Word(s, sep)|..], sep)
    decreases |s|
  {
    if s == [] || s[0] == sep {
    } else {
      WithoutOfWord(s[1..], sep);
      assert s[1..][|Word(s[1..], sep)|..] == s[|Word(s, sep)|..];
    }
  }

  /** Splitting yields nothing exactly when s consists of separators only. */
  lemma {:induction false} SplitEmptyIff(s: string, sep: char)
    ensures Split(s, sep) == [] <==> forall i :: 0 <= i < |s| ==> s[i] == sep
    decreases |s|
  {
    if s != [] {
      SplitEmptyIff(s[1..], sep);
      if s[0] == sep {
        assert forall i :: 1 <= i < |s| ==> s[i] == s[1..][i - 1];
      }
    }
  }

  /** A non-empty string without separators is a single piece. */
  lemma SplitSingle(s: string, sep: char)
    requires s != [] && sep !in s
    ensures Split(s, sep) == [s]
  {
    WordWithoutSeparator(s, sep);
    assert s[|s|..] == [];
  }

  lemma {:induction false} WordWithoutSeparator(s: string, sep: char)
    requires sep !in s
    ensures Word(s, sep) == s
    decreases |s|
  {
    if s != [] {
      WordWithoutSeparator(s[1..], sep);
    }
  }

  /** A separator splits a string into the pieces of each side. */
  lemma {:induction false} SplitAtSeparator(a: string, b: string, sep: char)
    ensures Split(a + [sep] + b, sep) == Split(a, sep) + Split(b, sep)
    decreases |a|
  {
    var s := a + [sep] + b;
    if a == [] {
      assert s[1..] == b;
    } else if a[0] == sep {
      assert s[1..] == a[1..] + [sep] + b;
      SplitAtSeparator(a[1..], b, sep);
    } else {
      assert s == a + ([sep] + b);
      WordOfConcat(a, [sep] + b, sep);
      var wa := Word(a, sep);
      var rest := a[|wa|..];
      SplitWord(s, sep);
      SplitWord(a, sep);
      assert s[|wa|..] == rest + [sep] + b;
      if |wa| == |a| {
        assert rest == [];
        assert Split(rest + [sep] + b, sep) == Split(b, sep) by {
          assert (rest + [sep] + b)[1..] == b;
        }
      } else {
        SplitAtSeparator(rest, b, sep);
      }
      PiecesAssoc([wa], Split(rest, sep), Split(b, sep));
    }
  }

  /** A string starting with a non-separator splits into its first word and the rest. */
  lemma SplitWord(s: string, sep: char)
    requires s != [] && s[0] != sep
    ensures Split(s, sep) == [Word(s, sep)] + Split(s[|Word(s, sep)|..], sep)
  {
  }

  lemma PiecesAssoc(p: seq<string>, q: seq<string>, r: seq<string>)
    ensures p + (q + r) == (p + q) + r
  {
  }

  /** The word of a + b when a contains a separator or b starts with one. */
  lemma {:induction false} WordOfConcat(a: string, b: string, sep: char)
    requires b != [] && b[0] == sep
    ensures Word(a + b, sep) == Word(a, sep)
    decreases |a|
  {
    if a == [] {
      assert (a + b) == b;
    } else if a[0] != sep {
      assert (a + b)[1..] == a[1..] + b;
      WordOfConcat(a[1..], b, sep);
    }
  }

  /** Whitespace and newline characters, as Unicode classifies them. */
  predicate IsWhitespace(c: char)
  {
    ('\t' <= c <= '\r') || c == ' ' || c == '\U{0085}' || c == '\U{00A0}'
    || c == '\U{1680}' || ('\U{2000}' <= c <= '\U{200A}') || c == '\U{2028}'
    || c == '\U{2029}' || c == '\U{202F}' || c == '\U{205F}' || c == '\U{3000}'
  }

  function TrimStart(s: string): (r: string)
    ensures |r| <= |s| && r == s[|s| - |r|..]
    ensures forall i :: 0 <= i < |s| - |r| ==> IsWhitespace(s[i])
    ensures r != [] ==> !IsWhitespace(r[0])
  {
    if s != [] && IsWhitespace(s[0]) then
      var r := TrimStart(s[1..]);
      assert s[1..][|s| - 1 - |r|..] == s[|s| - |r|..];
      r
    else s
  }

  function TrimEnd(s: string): (r: string)
    ensures |r| <= |s| && r == s[..|r|]
    ensures forall i :: |r| <= i < |s| ==> IsWhitespace(s[i])
    ensures r != [] ==> !IsWhitespace(r[|r| - 1])
  {
    if s != [] && IsWhitespace(s[|s| - 1]) then TrimEnd(s[..|s| - 1]) else s
  }

  /**
   * s without its leading and trailing whitespace: a slice of s whose ends
   * are not whitespace and outside of which s holds only whitespace.
   */
  function Trim(s: string): (r: string)
    ensures exists i, j ::
              && 0 <= i <= j <= |s| && r == s[i..j]
              && (forall k :: 0 <= k < i ==> IsWhitespace(s[k]))
              && (forall k :: j <= k < |s| ==> IsWhitespace(s[k]))
    ensures r != [] ==> !IsWhitespace(r[0]) && !IsWhitespace(r[|r| - 1])
  {
    var t := TrimStart(s);
    var r := TrimEnd(t);
    TrimBounds(s, t, r);
    r
  }

  /** The two trimmed ends of s, as positions in s. */
  lemma TrimBounds(s: string, t: string, r: string)
    requires |t| <= |s| && t == s[|s| - |t|..]
    requires forall k :: 0 <= k < |s| - |t| ==> IsWhitespace(s[k])
    requires |r| <= |t| && r == t[..|r|]
    requires forall k :: |r| <= k < |t| ==> IsWhitespace(t[k])
    ensures var i := |s| - |t|;
            && r == s[i..i + |r|]
            && (forall k :: 0 <= k < i ==> IsWhitespace(s[k]))
            && (forall k :: i + |r| <= k < |s| ==> IsWhitespace(s[k]))
  {
    var i := |s| - |t|;
    forall k | i + |r| <= k < |s|
      ensures IsWhitespace(s[k])
    {
      assert s[k] == t[k - i];
    }
  }
}
