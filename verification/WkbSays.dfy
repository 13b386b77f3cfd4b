/** What a geometry's text says and what a map draws of it are the same numbers
    (internal/model/geometry.go:33-262, internal/model/geocoords.go:68-173), and
    some bytes read out in full. */
module WkbSays {
  import opened Wkb
  import opened WkbReader
  import opened WkbRound
  import opened Strings
  import opened Wrappers

  // ----- places as they are said

  function SaidAt(place: Place, say: Say): string { say(place.x) + " " + say(place.y) }

  /** A row, a comma between each and the next. */
  function Row(parts: seq<string>): string {
    if parts == [] then "" else if |parts| == 1 then parts[0] else Row(parts[..|parts| - 1]) + "," + parts[|parts| - 1]
  }

  function SaidPlaces(places: seq<Place>, say: Say): (r: seq<string>)
    ensures |r| == |places|
  {
    if places == [] then [] else [SaidAt(places[0], say)] + SaidPlaces(places[1..], say)
  }

  function SaidLine(places: seq<Place>, say: Say): string { "(" + Row(SaidPlaces(places, say)) + ")" }

  function SaidLines(lines: seq<seq<Place>>, say: Say): (r: seq<string>)
    ensures |r| == |lines|
  {
    if lines == [] then [] else [SaidLine(lines[0], say)] + SaidLines(lines[1..], say)
  }

  lemma {:induction false} JoinedMore(parts: seq<string>, last: string)
    requires parts != []
    ensures Joined(parts + [last], ",") == Joined(parts, ",") + "," + last
  {
    if |parts| > 1 {
      JoinedMore(parts[1..], last);
      assert (parts + [last])[1..] == parts[1..] + [last];
      assert Joined(parts, ",") == parts[0] + "," + Joined(parts[1..], ",");
    } else {
      assert (parts + [last])[1..] == [last];
    }
  }

  lemma {:induction false} RowIs(parts: seq<string>)
    ensures Joined(parts, ",") == Row(parts)
    decreases |parts|
  {
    if |parts| > 1 {
      var init := parts[..|parts| - 1];
      RowIs(init);
      JoinedMore(init, parts[|parts| - 1]);
      assert parts == init + [parts[|parts| - 1]];
    }
  }

  lemma TwoNumbers(p: Position, place: Place, say: Say)
    requires |p| == 2 && AtPlace(place, p)
    ensures PositionText(p, say) == SaidAt(place, say)
  {
    var parts := [say(p[0]), say(p[1])];
    assert Said(p, say) == parts && parts[1..] == [say(p[1])];
    assert Joined(parts[1..], " ") == say(p[1]);
  }

  lemma {:induction false} PlacesSaid(line: seq<Position>, places: seq<Place>, say: Say)
    requires AlongRun(places, line) && forall i :: 0 <= i < |line| ==> |line[i]| == 2
    ensures PositionTexts(line, say) == SaidPlaces(places, say)
    decreases |line|
  {
    if line != [] {
      TwoNumbers(line[0], places[0], say);
      PlacesSaid(line[1..], places[1..], say);
      assert PositionTexts(line, say) == [PositionText(line[0], say)] + PositionTexts(line[1..], say);
    }
  }

  lemma RunSaid(line: seq<Position>, places: seq<Place>, say: Say)
    requires AlongRun(places, line) && line != [] && forall i :: 0 <= i < |line| ==> |line[i]| == 2
    ensures RunText(line, say) == SaidLine(places, say)
  {
    PlacesSaid(line, places, say);
    RowIs(PositionTexts(line, say));
    hide Joined, Row, SaidPlaces;
  }

  lemma {:induction false} RunsSaid(rings: seq<seq<Position>>, lines: seq<seq<Place>>, say: Say)
    requires AllAlong(lines, rings) && ValidRings(rings, 2) && forall i :: 0 <= i < |rings| ==> rings[i] != []
    ensures RunTexts(rings, say) == SaidLines(lines, say)
    decreases |rings|
  {
    if rings != [] {
      assert ValidRun(rings[0], 2) && AlongRun(lines[0], rings[0]);
      RunSaid(rings[0], lines[0], say);
      forall i | 0 <= i < |rings[1..]| ensures AlongRun(lines[1..][i], rings[1..][i]) && ValidRun(rings[1..][i], 2) && rings[1..][i] != [] {
        assert AlongRun(lines[i + 1], rings[i + 1]) && ValidRun(rings[i + 1], 2);
      }
      RunsSaid(rings[1..], lines[1..], say);
      assert RunTexts(rings, say) == [RunText(rings[0], say)] + RunTexts(rings[1..], say);
    }
  }

  lemma {:induction false} AllFilled(rings: seq<seq<Position>>)
    requires forall i :: 0 <= i < |rings| ==> rings[i] != []
    ensures Filled(rings) == rings
  {
    if rings != [] { AllFilled(rings[1..]); }
  }

  // ----- the same numbers either way

  /** A point in the plane, at least one of its numbers being one. */
  ghost predicate FlatPoint(g: Geometry) {
    && Valid(g) && Kind(g.head.word) == 1 && Dims(g.head.word) == 2
    && exists i :: 0 <= i < |g.shape.at| && !IsNaN(g.shape.at[i])
  }

  /** A line in the plane that has somewhere to go. */
  ghost predicate FlatLine(g: Geometry) { Valid(g) && Kind(g.head.word) == 2 && Dims(g.head.word) == 2 && g.shape.line != [] }

  /** In the plane nothing stands between a name and what is in its brackets. */
  lemma FlatText(g: Geometry, say: Say)
    requires Valid(g) && Dims(g.head.word) == 2 && !EmptyShape(g.shape)
    ensures Text(g, say) == Name(Kind(g.head.word)) + ShapeText(g, say)
  {
    var name := Name(Kind(g.head.word));
    assert name + "" == name;
    hide ShapeText, Name, EmptyShape;
  }

  /** The text of a point in the plane is its x and then its y. */
  lemma PointSays(g: Geometry, say: Say)
    requires FlatPoint(g)
    ensures |PointsOf(g)| == 1 && Text(g, say) == "POINT(" + say(PointsOf(g)[0].x) + " " + say(PointsOf(g)[0].y) + ")"
  {
    DrawnAt(g);
    TwoNumbers(g.shape.at, PointsOf(g)[0], say);
    var x, y := say(PointsOf(g)[0].x), say(PointsOf(g)[0].y);
    FlatText(g, say);
    assert ShapeText(g, say) == "(" + (x + " " + y) + ")";
    hide PositionText, IsNaN, ShapeText, Text, PointsOf;
    assert "POINT" + ("(" + (x + " " + y) + ")") == "POINT(" + x + " " + y + ")";
  }

  /** A line's are those of its positions, in turn. */
  lemma LineSays(g: Geometry, say: Say)
    requires FlatLine(g)
    ensures |LinesOf(g)| == 1 && Text(g, say) == "LINESTRING" + SaidLine(LinesOf(g)[0], say)
  {
    DrawnAt(g);
    assert Filled([g.shape.line]) == [g.shape.line];
    assert AlongRun(LinesOf(g)[0], g.shape.line);
    RunSaid(g.shape.line, LinesOf(g)[0], say);
    FlatText(g, say);
    hide RunText, SaidLine, LinesOf, Text;
  }

  /** A polygon in the plane, with no ring empty. */
  ghost predicate FlatPolygon(g: Geometry) {
    && Valid(g) && Kind(g.head.word) == 3 && Dims(g.head.word) == 2
    && g.shape.rings != [] && forall i :: 0 <= i < |g.shape.rings| ==> g.shape.rings[i] != []
  }

  lemma InBrackets(name: string, inner: string)
    ensures name + ("(" + inner + ")") == name + "(" + inner + ")"
  {
  }

  lemma PolygonDrawn(g: Geometry, say: Say)
    requires FlatPolygon(g)
    ensures |LinesOf(g)| == |g.shape.rings|
    ensures RunTexts(g.shape.rings, say) == SaidLines(LinesOf(g), say)
  {
    hide RunTexts, SaidLines;
    DrawnAt(g);
    AllFilled(g.shape.rings);
    RunsSaid(g.shape.rings, LinesOf(g), say);
  }

  lemma PolygonText(g: Geometry, say: Say)
    requires FlatPolygon(g)
    ensures Text(g, say) == "POLYGON" + ("(" + Joined(RunTexts(g.shape.rings, say), ",") + ")")
  {
    hide RunTexts, Joined;
    FlatText(g, say);
  }

  /** A polygon's are those of its rings. */
  lemma PolygonSays(g: Geometry, say: Say)
    requires FlatPolygon(g)
    ensures |LinesOf(g)| == |g.shape.rings| && Text(g, say) == "POLYGON(" + Row(SaidLines(LinesOf(g), say)) + ")"
  {
    hide RunTexts, SaidLines, LinesOf, Joined, Row, Text, ShapeText, Dims;
    PolygonDrawn(g, say);
    PolygonText(g, say);
    RowIs(SaidLines(LinesOf(g), say));
    InBrackets("POLYGON", Row(SaidLines(LinesOf(g), say)));
    assert "POLYGON" + "(" == "POLYGON(";
  }

  /** The two readings of a point's bytes say the same: x before y. */
  method ReadBoth(b: seq<byte>, say: Say) returns (text: Result<string>, out: Coords)
    ensures forall g :: FlatPoint(g) && Bytes(g) == b ==>
              |out.points| == 1 && text == Ok("POINT(" + say(out.points[0].x) + " " + say(out.points[0].y) + ")")
    ensures forall g :: FlatLine(g) && Bytes(g) == b ==>
              |out.lines| == 1 && text == Ok("LINESTRING" + SaidLine(out.lines[0], say))
  {
    hide Bytes, Text, Valid, PointsOf, LinesOf, Standing, Running, SaidLine, Dims, Kind, IsNaN, AlongRun, AllAlong;
    text := WKT(b, say);
    var r;
    r, out := Coordinates(b, say);
    forall g | Valid(g) && Bytes(g) == b ensures out.points == PointsOf(g) && out.lines == LinesOf(g) && text == Ok(Text(g, say)) {
      assert Bytes(g) + [] == b;
    }
    forall g | FlatPoint(g) && Bytes(g) == b
      ensures |out.points| == 1 && text == Ok("POINT(" + say(out.points[0].x) + " " + say(out.points[0].y) + ")")
    {
      PointSays(g, say);
    }
    forall g | FlatLine(g) && Bytes(g) == b ensures |out.lines| == 1 && text == Ok("LINESTRING" + SaidLine(out.lines[0], say)) {
      LineSays(g, say);
    }
  }

  // ----- the words

  const NAMES := ["POINT", "LINESTRING", "POLYGON", "MULTIPOINT", "MULTILINESTRING", "MULTIPOLYGON", "GEOMETRYCOLLECTION"]

  /** With nothing in it, a geometry's text is its name, its letters Z and M for
      a third and a fourth number, and EMPTY. */
  lemma EmptySays(g: Geometry, say: Say)
    requires Valid(g) && EmptyShape(g.shape)
    ensures var w := g.head.word; var name := NAMES[Kind(w) - 1];
      && (!HasZ(w) && !HasM(w) ==> Text(g, say) == name + " EMPTY")
      && (HasZ(w) && !HasM(w) ==> Text(g, say) == name + " Z EMPTY")
      && (!HasZ(w) && HasM(w) ==> Text(g, say) == name + " M EMPTY")
      && (HasZ(w) && HasM(w) ==> Text(g, say) == name + " ZM EMPTY")
  {
    assert IsKind(Kind(g.head.word));
    hide ShapeText, HasZ, HasM, EmptyShape, Valid;
    NameIs(Kind(g.head.word));
    hide Name;
  }

  /** And with something in it, its name, its letters and brackets. */
  lemma TextBegins(g: Geometry, say: Say)
    requires Valid(g) && !EmptyShape(g.shape)
    ensures var w := g.head.word; var name := NAMES[Kind(w) - 1];
      && (!HasZ(w) && !HasM(w) ==> name + "(" <= Text(g, say))
      && (HasZ(w) && !HasM(w) ==> name + " Z (" <= Text(g, say))
      && (!HasZ(w) && HasM(w) ==> name + " M (" <= Text(g, say))
      && (HasZ(w) && HasM(w) ==> name + " ZM (" <= Text(g, say))
  {
    assert IsKind(Kind(g.head.word));
    hide ShapeText, HasZ, HasM, EmptyShape, Valid;
    NameIs(Kind(g.head.word));
    ShapeBegins(g, say);
    hide Name;
  }

  lemma NameIs(kind: nat)
    requires IsKind(kind)
    ensures Name(kind) == NAMES[kind - 1]
  {
  }

  lemma ShapeBegins(g: Geometry, say: Say)
    requires Valid(g) && !EmptyShape(g.shape)
    ensures "(" <= ShapeText(g, say)
  {
    hide PositionText, Joined, PartTexts;
  }

  /** What a member of a geometry of many is written as: with its name in a
      collection, and otherwise without. */
  lemma MemberSays(g: Geometry, say: Say)
    requires Valid(g) && EmptyShape(g.shape) && !HasZ(g.head.word) && !HasM(g.head.word)
    ensures PartText(g, 7, say) == NAMES[Kind(g.head.word) - 1] + " EMPTY"
    ensures forall of :: 4 <= of < 7 ==> PartText(g, of, say) == "EMPTY"
  {
    EmptySays(g, say);
  }

  // ----- some bytes read out

  /** 1 and 2 as eight bytes, the greatest first. */
  const ONE: Number := [0x3F, 0xF0, 0, 0, 0, 0, 0, 0]
  const TWO: Number := [0x40, 0, 0, 0, 0, 0, 0, 0]

  /** POINT(1 2), the least byte first. */
  const LITTLE_POINT: seq<byte> := [1, 1, 0, 0, 0] + [0, 0, 0, 0, 0, 0, 0xF0, 0x3F] + [0, 0, 0, 0, 0, 0, 0, 0x40]
  /** And the greatest first. */
  const BIG_POINT: seq<byte> := [0, 0, 0, 0, 1] + [0x3F, 0xF0, 0, 0, 0, 0, 0, 0] + [0x40, 0, 0, 0, 0, 0, 0, 0]
  /** With the SRID 4326, as PostGIS writes it. */
  const SRID_POINT: seq<byte> := [1, 1, 0, 0, 0x20] + [0xE6, 0x10, 0, 0] + [0, 0, 0, 0, 0, 0, 0xF0, 0x3F] + [0, 0, 0, 0, 0, 0, 0, 0x40]

  lemma TurnedOnes()
    ensures Turned([0, 0, 0, 0, 0, 0, 0xF0, 0x3F]) == ONE && Turned([0, 0, 0, 0, 0, 0, 0, 0x40]) == TWO
  {
  }

  lemma TwoAt(b: seq<byte>, off: nat, little: bool)
    requires off + 16 <= |b|
    requires NumberAt(b, off, little) == Ok(ONE) && NumberAt(b, off + 8, little) == Ok(TWO)
    ensures PositionAt(b, off, little, 2) == Ok(([ONE, TWO], off + 16))
  {
    hide NumberAt;
    var one, two := PositionAt(b, off + 8, little, 1), PositionAt(b, off, little, 2);
    assert one.Ok? && one.value.1 == off + 16 && one.value.0 == [TWO];
    assert two.Ok? && two.value.1 == off + 16 && two.value.0 == [ONE, TWO];
  }

  lemma LittlePoint()
    ensures GeometryAt(LITTLE_POINT, 0, 7) == Ok((Geometry(Header(true, 1, None), Point([ONE, TWO])), 21))
  {
    var b := LITTLE_POINT;
    TurnedOnes();
    assert b[5..13] == [0, 0, 0, 0, 0, 0, 0xF0, 0x3F] && b[13..21] == [0, 0, 0, 0, 0, 0, 0, 0x40];
    TwoAt(b, 5, true);
    assert HeaderAt(b, 0) == Ok((Header(true, 1, None), 5));
    hide PositionAt, HeaderAt;
  }

  lemma BigPoint()
    ensures GeometryAt(BIG_POINT, 0, 7) == Ok((Geometry(Header(false, 1, None), Point([ONE, TWO])), 21))
  {
    var b := BIG_POINT;
    assert b[5..13] == ONE && b[13..21] == TWO;
    TwoAt(b, 5, false);
    assert HeaderAt(b, 0) == Ok((Header(false, 1, None), 5));
    hide PositionAt, HeaderAt;
  }

  lemma SridPoint()
    ensures GeometryAt(SRID_POINT, 0, 7) == Ok((Geometry(Header(true, 0x2000_0001, Some(4326)), Point([ONE, TWO])), 25))
  {
    var b := SRID_POINT;
    TurnedOnes();
    assert b[9..17] == [0, 0, 0, 0, 0, 0, 0xF0, 0x3F] && b[17..25] == [0, 0, 0, 0, 0, 0, 0, 0x40];
    TwoAt(b, 9, true);
    assert HeaderAt(b, 0) == Ok((Header(true, 0x2000_0001, Some(4326)), 9));
    hide PositionAt, HeaderAt;
  }

  /** Both ways a third and a fourth number are marked. */
  lemma Marked()
    ensures HasZ(1001) && !HasM(1001) && HasM(2001) && !HasZ(2001) && HasZ(3001) && HasM(3001)
    ensures HasZ(0x8000_0001) && !HasM(0x8000_0001) && HasM(0x4000_0001) && !HasZ(0x4000_0001)
    ensures Kind(1001) == Kind(2001) == Kind(3001) == Kind(0x8000_0001) == Kind(0x4000_0001) == 1
    ensures !HasZ(1) && !HasM(1) && !HasSrid(1) && HasSrid(0x2000_0001)
  {
  }

  /** An infinity is a number, and a quiet NaN is not. */
  lemma NotNumbers()
    ensures IsNaN([0x7F, 0xF8, 0, 0, 0, 0, 0, 0]) && IsNaN([0xFF, 0xF0, 0, 0, 0, 0, 0, 1])
    ensures !IsNaN([0x7F, 0xF0, 0, 0, 0, 0, 0, 0]) && !IsNaN(ONE)
  {
    var x: Number := [0xFF, 0xF0, 0, 0, 0, 0, 0, 1];
    assert x[7] != 0;
  }
}
