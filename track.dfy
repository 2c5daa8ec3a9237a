/** A trail track: its points, colour category, number and display name. */
module Tracks {
  import opened Geo
  import Strings
  import opened Options

  /** The colour categories of the trail loops, in declaration order. */
  datatype Color =
    | Red | Turquoise | BrightGreen | Violet | Purple | Green | Beige | Blue
    | Brown | Yellow | Gray | LightBlue | LightBrown | Orange | Pink | LightPink

  /** The integer raw value of a colour: its position in the declaration. */
  function RawValue(c: Color): (r: nat)
    ensures r < 16
  {
    match c
    case Red => 0 case Turquoise => 1 case BrightGreen => 2 case Violet => 3
    case Purple => 4 case Green => 5 case Beige => 6 case Blue => 7
    case Brown => 8 case Yellow => 9 case Gray => 10 case LightBlue => 11
    case LightBrown => 12 case Orange => 13 case Pink => 14 case LightPink => 15
  }

  /** `Color(rawValue:)`, the decoding direction: absent outside 0 to 15. */
  function FromRawValue(n: int): (r: Option<Color>)
    ensures r.Some? <==> 0 <= n < 16
  {
    if n == 0 then Some(Red) else if n == 1 then Some(Turquoise)
    else if n == 2 then Some(BrightGreen) else if n == 3 then Some(Violet)
    else if n == 4 then Some(Purple) else if n == 5 then Some(Green)
    else if n == 6 then Some(Beige) else if n == 7 then Some(Blue)
    else if n == 8 then Some(Brown) else if n == 9 then Some(Yellow)
    else if n == 10 then Some(Gray) else if n == 11 then Some(LightBlue)
    else if n == 12 then Some(LightBrown) else if n == 13 then Some(Orange)
    else if n == 14 then Some(Pink) else if n == 15 then Some(LightPink)
    else None
  }

  /** Decoding a raw value gives back the colour, and the raw values are 0 to 15 without gaps. */
  lemma ColorRoundTrip(c: Color, n: int)
    ensures FromRawValue(RawValue(c)) == Some(c)
    ensures 0 <= n < 16 ==> RawValue(FromRawValue(n).value) == n
  {
  }

  datatype Track = Track(
    coordinates: seq<CoordinateWithElevation>,
    color: Color,
    number: int,
    name: string)

  /** The last element of a non-empty sequence. */
  function Last<T>(s: seq<T>): T
    requires s != []
  {
    s[|s| - 1]
  }

  /** `simplify`: one part verbatim, otherwise the first and last parts joined by "-". */
  function Simplify(parts: seq<string>): (r: string)
    requires parts != []
    ensures |parts| == 1 ==> r == parts[0]
    ensures |parts| > 1 ==> r == parts[0] + "-" + Last(parts)
  {
    if |parts| == 1 then parts[0] else parts[0] + "-" + Last(parts)
  }

  /**
   * `numbers` traps when the last space-separated component of the name
   * consists of '/' characters only (`numbers[0]` of an empty list).
   */
  predicate HasNumbers(name: string)
  {
    var components := Strings.Split(name, ' ');
    components == [] || Strings.Split(Last(components), '/') != []
  }

  /**
   * `Track.numbers`: the loop numbers of a name such as "Wabe 3/7",
   * taken from its last space-separated component.
   */
  function Numbers(name: string): (r: string)
    requires HasNumbers(name)
    ensures (forall i :: 0 <= i < |name| ==> name[i] == ' ') ==> r == ""
  {
    var components := Strings.Split(name, ' ');
    Strings.SplitEmptyIff(name, ' ');
    if components == [] then "" else Simplify(Strings.Split(Last(components), '/'))
  }

  /** The trap condition is exactly a last component made of '/' only. */
  lemma HasNumbersIff(name: string)
    requires Strings.Split(name, ' ') != []
    ensures HasNumbers(name) <==>
      exists i :: 0 <= i < |Last(Strings.Split(name, ' '))| && Last(Strings.Split(name, ' '))[i] != '/'
  {
    Strings.SplitEmptyIff(Last(Strings.Split(name, ' ')), '/');
  }

  /** Only the last space-separated component matters. */
  lemma NumbersUseLastComponent(prefix: string, last: string)
    requires last != [] && ' ' !in last && HasNumbers(last)
    ensures HasNumbers(prefix + " " + last)
    ensures Numbers(prefix + " " + last) == Numbers(last)
  {
    Strings.SplitAtSeparator(prefix, last, ' ');
    Strings.SplitSingle(last, ' ');
    assert prefix + " " + last == prefix + [' '] + last;
  }

  /** A component without '/' is the result verbatim. */
  lemma NumbersOfSinglePart(w: string)
    requires w != [] && ' ' !in w && '/' !in w
    ensures HasNumbers(w) && Numbers(w) == w
  {
    Strings.SplitSingle(w, ' ');
    Strings.SplitSingle(w, '/');
  }

  /** A pair "a/b" becomes "a-b". */
  lemma NumbersOfPair(first: string, last: string)
    requires first != [] && last != []
    requires ' ' !in first && '/' !in first && ' ' !in last && '/' !in last
    ensures HasNumbers(first + "/" + last)
    ensures Numbers(first + "/" + last) == first + "-" + last
  {
    var w := first + "/" + last;
    assert ' ' !in w;
    Strings.SplitSingle(w, ' ');
    assert w == first + ['/'] + last;
    Strings.SplitAtSeparator(first, last, '/');
    Strings.SplitSingle(first, '/');
    Strings.SplitSingle(last, '/');
    assert Strings.Split(w, '/') == [first, last];
  }

  /** A range "a/m/b" becomes "a-b": middle parts are ignored. */
  lemma NumbersOfRange(first: string, middle: string, last: string)
    requires first != [] && last != []
    requires ' ' !in first && '/' !in first && ' ' !in last && '/' !in last && ' ' !in middle
    ensures HasNumbers(first + "/" + middle + "/" + last)
    ensures Numbers(first + "/" + middle + "/" + last) == first + "-" + last
  {
    var w := first + "/" + middle + "/" + last;
    assert ' ' !in w;
    Strings.SplitSingle(w, ' ');
    assert w == first + ['/'] + (middle + ['/'] + last);
    Strings.SplitAtSeparator(first, middle + ['/'] + last, '/');
    Strings.SplitAtSeparator(middle, last, '/');
    Strings.SplitSingle(first, '/');
    Strings.SplitSingle(last, '/');
    var parts := Strings.Split(w, '/');
    assert parts == [first] + Strings.Split(middle, '/') + [last];
  }
}
