/**
 * The track-log reader: a delegate of an event-driven XML parser that
 * collects the `trkpt` points (with their `ele` elevation) and the `name`
 * of a `trk` element. The parser itself is replaced by the sequence of
 * callbacks it makes; `Double(String)` is a partial parse function given
 * to the reader.
 */
module TrackReading {
  import opened Geo
  import opened Options
  import Strings
  import Helpers

  /** The fixed prefix stripped from a track's name. */
  const NamePrefix: string := "Laufpark Stechlin - Wabe "

  /** A staged point position from a `trkpt` start tag. */
  datatype Pending = Pending(lat: real, lon: real)

  /** One parser callback. */
  datatype Event =
    | Start(element: string, attributes: map<string, string>)
    | Chars(text: string)
    | End(element: string)

  /** The reader's five fields as a value. */
  datatype ReaderState = ReaderState(
    inTrk: bool,
    points: seq<CoordinateWithElevation>,
    pending: Option<Pending>,
    elementContents: string,
    name: string)

  /** The state of a freshly created reader. */
  function Initial(): ReaderState
  {
    ReaderState(false, [], None, "", "")
  }

  /** `Double(attributes[key])`, absent when the key is missing or does not parse. */
  function Attribute(parse: string -> Option<real>, attributes: map<string, string>, key: string): Option<real>
  {
    if key in attributes then parse(attributes[key]) else None
  }

  /** `foundCharacters`: the text is appended to the element contents. */
  function OnCharacters(s: ReaderState, text: string): (r: ReaderState)
    ensures r.elementContents == s.elementContents + text
    ensures r == s.(elementContents := r.elementContents)
  {
    s.(elementContents := s.elementContents + text)
  }

  /**
   * `didStartElement`: outside a track only `inTrk` is set; inside, a
   * `trkpt` with parseable `lat` and `lon` stages its position.
   */
  function OnStart(s: ReaderState, parse: string -> Option<real>, element: string, attributes: map<string, string>): (r: ReaderState)
    ensures !s.inTrk ==> r == s.(inTrk := element == "trk")
    ensures s.inTrk ==> r == s.(pending := r.pending)
    ensures r.pending != s.pending ==>
      && s.inTrk && element == "trkpt"
      && Attribute(parse, attributes, "lat").Some? && Attribute(parse, attributes, "lon").Some?
      && r.pending == Some(Pending(Attribute(parse, attributes, "lat").value, Attribute(parse, attributes, "lon").value))
    ensures (&& s.inTrk && element == "trkpt"
             && Attribute(parse, attributes, "lat").Some? && Attribute(parse, attributes, "lon").Some?) ==>
      r.pending == Some(Pending(Attribute(parse, attributes, "lat").value, Attribute(parse, attributes, "lon").value))
  {
    if !s.inTrk then
      s.(inTrk := element == "trk")
    else if element == "trkpt" then
      var lat := Attribute(parse, attributes, "lat");
      var lon := Attribute(parse, attributes, "lon");
      if lat.Some? && lon.Some? then s.(pending := Some(Pending(lat.value, lon.value))) else s
    else
      s
  }

  /** The point an `ele` end tag emits, if any. */
  function Emitted(s: ReaderState, parse: string -> Option<real>): Option<CoordinateWithElevation>
  {
    var ele := parse(Strings.Trim(s.elementContents));
    if s.pending.Some? && ele.Some? then
      Some(CoordinateWithElevation(Coordinate(s.pending.value.lat, s.pending.value.lon), ele.value))
    else None
  }

  /**
   * `didEndElement`: `trk` leaves the track, `ele` may append one point,
   * `name` inside a track sets the name; the contents are always reset.
   */
  function OnEnd(s: ReaderState, parse: string -> Option<real>, element: string): (r: ReaderState)
    ensures r.elementContents == ""
    ensures r.pending == s.pending
    ensures r.inTrk == (s.inTrk && element != "trk")
    ensures r.points == s.points + (if element == "ele" && Emitted(s, parse).Some? then [Emitted(s, parse).value] else [])
    ensures r.name == if element == "name" && s.inTrk
                      then Helpers.RemovePrefix(Strings.Trim(s.elementContents), NamePrefix)
                      else s.name
  {
    var s' := s.(elementContents := "");
    if element == "trk" then
      s'.(inTrk := false)
    else if element == "ele" then
      var p := Emitted(s, parse);
      if p.Some? then s'.(points := s.points + [p.value]) else s'
    else if element == "name" && s.inTrk then
      s'.(name := Helpers.RemovePrefix(Strings.Trim(s.elementContents), NamePrefix))
    else
      s'
  }

  /**
   * The parser's dispatch of one callback to the delegate. Whatever the
   * callback, points are only appended, and only an `ele` end tag appends
   * one; a staged position stays staged.
   */
  function Step(s: ReaderState, parse: string -> Option<real>, e: Event): (r: ReaderState)
    ensures s.points <= r.points
    ensures |r.points| <= |s.points| + (if e == End("ele") then 1 else 0)
    ensures s.pending.Some? ==> r.pending.Some?
    ensures e.End? ==> r.elementContents == ""
  {
    match e
    case Start(element, attributes) => OnStart(s, parse, element, attributes)
    case Chars(text) => OnCharacters(s, text)
    case End(element) => OnEnd(s, parse, element)
  }

  /** The state after delivering the events in order. */
  function Run(s: ReaderState, parse: string -> Option<real>, events: seq<Event>): (r: ReaderState)
    ensures events != [] && events[|events| - 1].End? ==> r.elementContents == ""
    ensures events != [] && events[|events| - 1] == End("trk") ==> !r.inTrk
  {
    if events == [] then s else Step(Run(s, parse, events[..|events| - 1]), parse, events[|events| - 1])
  }

  lemma RunAppend(s: ReaderState, parse: string -> Option<real>, events: seq<Event>, e: Event)
    ensures Run(s, parse, events + [e]) == Step(Run(s, parse, events), parse, e)
  {
    assert (events + [e])[..|events|] == events;
  }

  lemma {:induction false} RunConcat(s: ReaderState, parse: string -> Option<real>, a: seq<Event>, b: seq<Event>)
    ensures Run(s, parse, a + b) == Run(Run(s, parse, a), parse, b)
    decreases |b|
  {
    if b == [] {
      assert a + b == a;
    } else {
      var b', e := b[..|b| - 1], b[|b| - 1];
      assert a + b == (a + b') + [e];
      assert b == b' + [e];
      calc {
        Run(s, parse, (a + b') + [e]);
        { RunAppend(s, parse, a + b', e); }
        Step(Run(s, parse, a + b'), parse, e);
        { RunConcat(s, parse, a, b'); }
        Step(Run(Run(s, parse, a), parse, b'), parse, e);
        { RunAppend(Run(s, parse, a), parse, b', e); }
        Run(Run(s, parse, a), parse, b' + [e]);
      }
    }
  }

  /** Points are only ever appended: the earlier points stay a prefix. */
  lemma {:induction false} PointsOnlyGrow(s: ReaderState, parse: string -> Option<real>, events: seq<Event>)
    ensures s.points <= Run(s, parse, events).points
    decreases |events|
  {
    if events != [] {
      PointsOnlyGrow(s, parse, events[..|events| - 1]);
    }
  }

  /** A staged position is never cleared again. */
  lemma {:induction false} PendingNeverCleared(s: ReaderState, parse: string -> Option<real>, events: seq<Event>)
    requires s.pending.Some?
    ensures Run(s, parse, events).pending.Some?
    decreases |events|
  {
    if events != [] {
      PendingNeverCleared(s, parse, events[..|events| - 1]);
    }
  }

  /** The number of `ele` end tags among the events. */
  function EleEnds(events: seq<Event>): nat
  {
    if events == [] then 0
    else EleEnds(events[..|events| - 1]) + (if events[|events| - 1] == End("ele") then 1 else 0)
  }

  /** Only `ele` end tags add points, one at most each. */
  lemma {:induction false} PointsBoundedByEleTags(s: ReaderState, parse: string -> Option<real>, events: seq<Event>)
    ensures |Run(s, parse, events).points| <= |s.points| + EleEnds(events)
    decreases |events|
  {
    if events != [] {
      PointsBoundedByEleTags(s, parse, events[..|events| - 1]);
    }
  }

  /**
   * A `trkpt` whose attributes do not parse leaves the previous position
   * staged, so the elevation that follows it is attached to that position.
   */
  lemma StalePendingReused(s: ReaderState, parse: string -> Option<real>, attributes: map<string, string>, text: string)
    requires s.inTrk && s.pending.Some?
    requires Attribute(parse, attributes, "lon").None?
    requires parse(Strings.Trim(s.elementContents + text)).Some?
    ensures Run(s, parse, [Start("trkpt", attributes), Chars(text), End("ele")]).points
         == s.points + [CoordinateWithElevation(Coordinate(s.pending.value.lat, s.pending.value.lon),
                                                parse(Strings.Trim(s.elementContents + text)).value)]
  {
    RunThree(s, parse, Start("trkpt", attributes), Chars(text), End("ele"));
    assert Step(s, parse, Start("trkpt", attributes)) == s;
    var s2 := s.(elementContents := s.elementContents + text);
    assert Step(s, parse, Chars(text)) == s2;
    EleClosed(parse, s2, parse(Strings.Trim(s.elementContents + text)).value);
  }

  lemma RunThree(s: ReaderState, parse: string -> Option<real>, e0: Event, e1: Event, e2: Event)
    ensures Run(s, parse, [e0, e1, e2]) == Step(Step(Step(s, parse, e0), parse, e1), parse, e2)
  {
    RunAppend(s, parse, [], e0);
    assert [] + [e0] == [e0];
    RunAppend(s, parse, [e0], e1);
    assert [e0] + [e1] == [e0, e1];
    RunAppend(s, parse, [e0, e1], e2);
    assert [e0, e1] + [e2] == [e0, e1, e2];
  }

  lemma RunFour(s: ReaderState, parse: string -> Option<real>, e0: Event, e1: Event, e2: Event, e3: Event)
    ensures Run(s, parse, [e0, e1, e2, e3]) == Step(Run(s, parse, [e0, e1, e2]), parse, e3)
  {
    RunAppend(s, parse, [e0, e1, e2], e3);
    assert [e0, e1, e2] + [e3] == [e0, e1, e2, e3];
  }

  /** Characters without whitespace survive trimming. */
  lemma TrimNoWhitespace(t: string)
    requires forall i :: 0 <= i < |t| ==> !Strings.IsWhitespace(t[i])
    ensures Strings.Trim(t) == t
  {
    assert Strings.TrimStart(t) == t;
    assert Strings.TrimEnd(t) == t;
  }

  /** The callbacks of `<trk><name>Laufpark Stechlin - Wabe 3</name>`. */
  function SampleHeader(): seq<Event>
  {
    [Start("trk", map[]), Start("name", map[]), Chars("Laufpark Stechlin - Wabe 3"), End("name")]
  }

  /** The callbacks of `<trkpt lat="52.1" lon="13.1"><ele>10.5</ele></trkpt></trk>`. */
  function SamplePoint(): seq<Event>
  {
    [Start("trkpt", map["lat" := "52.1", "lon" := "13.1"]), Start("ele", map[]), Chars("10.5"), End("ele"),
     End("trkpt"), End("trk")]
  }

  /** The whole sample document. */
  function SampleDocument(): seq<Event>
  {
    SampleHeader() + SamplePoint()
  }

  lemma SampleHeaderRead(parse: string -> Option<real>)
    ensures Run(Initial(), parse, SampleHeader())
         == ReaderState(true, [], None, "", "3")
  {
    var title := "Laufpark Stechlin - Wabe 3";
    RunThree(Initial(), parse, Start("trk", map[]), Start("name", map[]), Chars(title));
    RunFour(Initial(), parse, Start("trk", map[]), Start("name", map[]), Chars(title), End("name"));
    SampleHeaderOpened(parse);
    var s3 := ReaderState(true, [], None, title, "");
    NameClosed(parse, s3);
    TrimNoWhitespaceSampleName();
    SampleNamePrefix();
  }

  lemma SampleHeaderOpened(parse: string -> Option<real>)
    ensures Step(Step(Step(Initial(), parse, Start("trk", map[])), parse, Start("name", map[])),
                 parse, Chars("Laufpark Stechlin - Wabe 3"))
         == ReaderState(true, [], None, "Laufpark Stechlin - Wabe 3", "")
  {
    TagNamesDistinct();
    assert Step(Initial(), parse, Start("trk", map[])) == ReaderState(true, [], None, "", "");
  }

  lemma SampleNamePrefix()
    ensures Helpers.RemovePrefix("Laufpark Stechlin - Wabe 3", NamePrefix) == "3"
  {
  }

  /** A `name` end tag inside a track sets the name to the trimmed contents without the prefix. */
  lemma NameClosed(parse: string -> Option<real>, s: ReaderState)
    requires s.inTrk
    ensures Step(s, parse, End("name"))
         == s.(elementContents := "", name := Helpers.RemovePrefix(Strings.Trim(s.elementContents), NamePrefix))
  {
    TagNamesDistinct();
  }

  lemma TrimNoWhitespaceSampleName()
    ensures Strings.Trim("Laufpark Stechlin - Wabe 3") == "Laufpark Stechlin - Wabe 3"
  {
    var t := "Laufpark Stechlin - Wabe 3";
    assert !Strings.IsWhitespace(t[0]) && !Strings.IsWhitespace(t[|t| - 1]);
    assert Strings.TrimStart(t) == t;
    assert Strings.TrimEnd(t) == t;
  }

  lemma SamplePointRead(parse: string -> Option<real>, s: ReaderState)
    requires parse("52.1") == Some(52.1) && parse("13.1") == Some(13.1) && parse("10.5") == Some(10.5)
    requires s.inTrk && s.elementContents == ""
    ensures Run(s, parse, SamplePoint()).points
         == s.points + [CoordinateWithElevation(Coordinate(52.1, 13.1), 10.5)]
    ensures Run(s, parse, SamplePoint()).name == s.name
  {
    var d := SamplePoint();
    var tail := [End("trkpt"), End("trk")];
    assert d == d[..4] + tail;
    RunConcat(s, parse, d[..4], tail);
    SampleElevationRead(parse, s);
    SampleTail(parse, Run(s, parse, d[..4]));
  }

  lemma SampleTail(parse: string -> Option<real>, t: ReaderState)
    ensures Run(t, parse, [End("trkpt"), End("trk")]).points == t.points
    ensures Run(t, parse, [End("trkpt"), End("trk")]).name == t.name
  {
    TagNamesDistinct();
    RunTwo(t, parse, End("trkpt"), End("trk"));
    OtherEndKeeps(t, parse, "trkpt");
    OtherEndKeeps(Step(t, parse, End("trkpt")), parse, "trk");
  }

  /** An end tag other than `ele` and `name` keeps the points and the name. */
  lemma OtherEndKeeps(s: ReaderState, parse: string -> Option<real>, element: string)
    requires element != "ele" && element != "name"
    ensures Step(s, parse, End(element)).points == s.points
    ensures Step(s, parse, End(element)).name == s.name
  {
  }

  lemma RunTwo(s: ReaderState, parse: string -> Option<real>, e0: Event, e1: Event)
    ensures Run(s, parse, [e0, e1]) == Step(Step(s, parse, e0), parse, e1)
  {
    RunAppend(s, parse, [], e0);
    assert [] + [e0] == [e0];
    RunAppend(s, parse, [e0], e1);
    assert [e0] + [e1] == [e0, e1];
  }

  lemma SampleElevationRead(parse: string -> Option<real>, s: ReaderState)
    requires parse("52.1") == Some(52.1) && parse("13.1") == Some(13.1) && parse("10.5") == Some(10.5)
    requires s.inTrk && s.elementContents == ""
    ensures Run(s, parse, SamplePoint()[..4]).points
         == s.points + [CoordinateWithElevation(Coordinate(52.1, 13.1), 10.5)]
    ensures Run(s, parse, SamplePoint()[..4]).name == s.name
  {
    var attributes := map["lat" := "52.1", "lon" := "13.1"];
    assert SamplePoint()[..4] == [Start("trkpt", attributes), Start("ele", map[]), Chars("10.5"), End("ele")];
    RunThree(s, parse, Start("trkpt", attributes), Start("ele", map[]), Chars("10.5"));
    RunFour(s, parse, Start("trkpt", attributes), Start("ele", map[]), Chars("10.5"), End("ele"));
    SampleTrkptStaged(parse, s);
    SampleEleEmitted(parse, s.(pending := Some(Pending(52.1, 13.1))));
  }

  lemma SampleTrkptStaged(parse: string -> Option<real>, s: ReaderState)
    requires parse("52.1") == Some(52.1) && parse("13.1") == Some(13.1)
    requires s.inTrk
    ensures OnStart(s, parse, "trkpt", map["lat" := "52.1", "lon" := "13.1"]) == s.(pending := Some(Pending(52.1, 13.1)))
  {
    var attributes := map["lat" := "52.1", "lon" := "13.1"];
    assert Attribute(parse, attributes, "lat") == Some(52.1);
    assert Attribute(parse, attributes, "lon") == Some(13.1);
  }

  lemma SampleEleEmitted(parse: string -> Option<real>, s: ReaderState)
    requires parse("10.5") == Some(10.5)
    requires s.inTrk && s.elementContents == "" && s.pending == Some(Pending(52.1, 13.1))
    ensures Step(Step(Step(s, parse, Start("ele", map[])), parse, Chars("10.5")), parse, End("ele")).points
         == s.points + [CoordinateWithElevation(Coordinate(52.1, 13.1), 10.5)]
    ensures Step(Step(Step(s, parse, Start("ele", map[])), parse, Chars("10.5")), parse, End("ele")).name == s.name
  {
    SampleEleOpened(parse, s);
    SampleEleClosed(parse, s.(elementContents := "10.5"));
  }

  lemma SampleEleOpened(parse: string -> Option<real>, s: ReaderState)
    requires s.inTrk && s.elementContents == ""
    ensures Step(Step(s, parse, Start("ele", map[])), parse, Chars("10.5")) == s.(elementContents := "10.5")
  {
    TagNamesDistinct();
    assert Step(s, parse, Start("ele", map[])) == s;
  }

  lemma SampleEleClosed(parse: string -> Option<real>, s: ReaderState)
    requires parse("10.5") == Some(10.5)
    requires s.elementContents == "10.5" && s.pending == Some(Pending(52.1, 13.1))
    ensures Step(s, parse, End("ele")).points == s.points + [CoordinateWithElevation(Coordinate(52.1, 13.1), 10.5)]
    ensures Step(s, parse, End("ele")).name == s.name
  {
    TrimSampleElevation();
    EleClosed(parse, s, 10.5);
  }

  /** An `ele` end tag with a staged position and parseable contents appends one point. */
  lemma EleClosed(parse: string -> Option<real>, s: ReaderState, v: real)
    requires s.pending.Some? && parse(Strings.Trim(s.elementContents)) == Some(v)
    ensures Step(s, parse, End("ele")).points
         == s.points + [CoordinateWithElevation(Coordinate(s.pending.value.lat, s.pending.value.lon), v)]
    ensures Step(s, parse, End("ele")).name == s.name
  {
    TagNamesDistinct();
    assert Emitted(s, parse) == Some(CoordinateWithElevation(Coordinate(s.pending.value.lat, s.pending.value.lon), v));
  }

  /** The element names the reader compares are pairwise different. */
  lemma TagNamesDistinct()
    ensures "ele" != "trk" && "ele" != "trkpt" && "ele" != "name"
    ensures "name" != "trk" && "name" != "trkpt"
    ensures "trk" != "trkpt"
  {
    assert "ele"[0] != "trk"[0];
  }

  lemma TrimSampleElevation()
    ensures Strings.Trim("10.5") == "10.5"
  {
    var t := "10.5";
    assert !Strings.IsWhitespace(t[0]) && !Strings.IsWhitespace(t[|t| - 1]);
    assert Strings.TrimStart(t) == t;
    assert Strings.TrimEnd(t) == t;
  }

  /** Reading the sample document yields the name "3" and the one point. */
  lemma SampleDocumentRead(parse: string -> Option<real>)
    requires parse("52.1") == Some(52.1) && parse("13.1") == Some(13.1) && parse("10.5") == Some(10.5)
    ensures Run(Initial(), parse, SampleDocument()).name == "3"
    ensures Run(Initial(), parse, SampleDocument()).points
         == [CoordinateWithElevation(Coordinate(52.1, 13.1), 10.5)]
  {
    RunConcat(Initial(), parse, SampleHeader(), SamplePoint());
    SampleHeaderRead(parse);
    SamplePointRead(parse, ReaderState(true, [], None, "", "3"));
  }

  /** The XML parser's delegate: the reader's fields and its three callbacks. */
  class TrackReader {
    var inTrk: bool
    var points: seq<CoordinateWithElevation>
    var pending: Option<Pending>
    var elementContents: string
    var name: string
    /** `Double(String)`. */
    const parse: string -> Option<real>

    function State(): ReaderState
      reads this
    {
      ReaderState(inTrk, points, pending, elementContents, name)
    }

    constructor (parse: string -> Option<real>)
      ensures State() == Initial() && this.parse == parse
    {
      inTrk, points, pending, elementContents, name := false, [], None, "", "";
      this.parse := parse;
    }

    method FoundCharacters(text: string)
      modifies this
      ensures elementContents == old(elementContents) + text
      ensures State() == OnCharacters(old(State()), text)
    {
      elementContents := elementContents + text;
    }

    method DidStartElement(element: string, attributes: map<string, string>)
      modifies this
      ensures State() == OnStart(old(State()), parse, element, attributes)
    {
      if !inTrk {
        inTrk := element == "trk";
        return;
      }
      if element == "trkpt" {
        if "lat" !in attributes {
          return;
        }
        var lat := parse(attributes["lat"]);
        if lat.None? || "lon" !in attributes {
          return;
        }
        var lon := parse(attributes["lon"]);
        if lon.None? {
          return;
        }
        pending := Some(Pending(lat.value, lon.value));
      }
    }

    method DidEndElement(element: string)
      modifies this
      ensures State() == OnEnd(old(State()), parse, element)
    {
      TagNamesDistinct();
      ghost var s := State();
      var trimmed := Strings.Trim(elementContents);
      if element == "trk" {
        inTrk := false;
      } else if element == "ele" {
        var ele := parse(trimmed);
        assert Emitted(s, parse).Some? <==> pending.Some? && ele.Some?;
        if pending.Some? && ele.Some? {
          points := points + [CoordinateWithElevation(Coordinate(pending.value.lat, pending.value.lon), ele.value)];
        }
      } else if element == "name" && inTrk {
        name := Helpers.RemovePrefix(trimmed, NamePrefix);
      }
      elementContents := "";
      assert State() == OnEnd(s, parse, element);
    }

    /** Delivers the callbacks in order, as `parser.parse()` does. */
    method Deliver(events: seq<Event>)
      modifies this
      ensures State() == Run(old(State()), parse, events)
    {
      var i := 0;
      while i < |events|
        invariant 0 <= i <= |events|
        invariant State() == Run(old(State()), parse, events[..i])
        decreases |events| - i
      {
        var e := events[i];
        match e {
          case Start(element, attributes) => DidStartElement(element, attributes);
          case Chars(text) => FoundCharacters(text);
          case End(element) => DidEndElement(element);
        }
        RunAppend(old(State()), parse, events[..i], e);
        assert events[..i + 1] == events[..i] + [e];
        i := i + 1;
      }
      assert events[..i] == events;
    }
  }

  /**
   * `TrackReader(url:)`: the reader after a parse, or nothing when the
   * document could not be parsed to its end.
   */
  method Read(parse: string -> Option<real>, events: seq<Event>, wellFormed: bool) returns (reader: TrackReader?)
    ensures reader == null <==> !wellFormed
    ensures reader != null ==> fresh(reader) && reader.State() == Run(Initial(), parse, events)
  {
    var r := new TrackReader(parse);
    r.Deliver(events);
    if !wellFormed {
      return null;
    }
    return r;
  }
}
