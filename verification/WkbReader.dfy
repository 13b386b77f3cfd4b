/** The reader of well-known binary (internal/model/geometry.go and
    internal/model/geocoords.go): one cursor, read out as text or as positions. */
module WkbReader {
  import opened Wkb
  import opened WkbRound
  import opened Strings
  import opened Wrappers

  // ----- what a tree is written as

  /** How numbers are written out. */
  type Say = Number -> string

  /** All exponent bits set and a fraction that is not zero. */
  predicate IsNaN(n: Number) {
    && |n| == 8
    && n[0] % 128 == 127 && n[1] >= 240
    && (n[1] > 240 || exists i :: 2 <= i < 8 && n[i] != 0)
  }

  /** All NaN, which stands for a point that is empty. */
  predicate Hollow(p: Position) {
    forall i :: 0 <= i < |p| ==> IsNaN(p[i])
  }

  function Name(kind: nat): string
    requires IsKind(kind)
  {
    match kind
    case 1 => "POINT"
    case 2 => "LINESTRING"
    case 3 => "POLYGON"
    case 4 => "MULTIPOINT"
    case 5 => "MULTILINESTRING"
    case 6 => "MULTIPOLYGON"
    case _ => "GEOMETRYCOLLECTION"
  }

  function Tag(z: bool, m: bool): string {
    if z && m then " ZM" else if z then " Z" else if m then " M" else ""
  }

  function Said(p: Position, say: Say): (parts: seq<string>) {
    seq(|p|, i requires 0 <= i < |p| => say(p[i]))
  }

  function PositionText(p: Position, say: Say): string { Joined(Said(p, say), " ") }

  function PositionTexts(ps: seq<Position>, say: Say): seq<string> {
    seq(|ps|, i requires 0 <= i < |ps| => PositionText(ps[i], say))
  }

  function RunText(line: seq<Position>, say: Say): string {
    if line == [] then "" else "(" + Joined(PositionTexts(line, say), ",") + ")"
  }

  function RunTexts(rings: seq<seq<Position>>, say: Say): seq<string> {
    seq(|rings|, i requires 0 <= i < |rings| => RunText(rings[i], say))
  }

  predicate EmptyShape(s: Shape) {
    match s
    case Point(at) => Hollow(at)
    case Run(line) => line == []
    case Rings(rings) => rings == []
    case Parts(parts) => parts == []
  }

  /** What stands after the name, in its parentheses. */
  function ShapeText(g: Geometry, say: Say): string
    requires Valid(g)
    decreases g, 0
  {
    if EmptyShape(g.shape) then ""
    else
      match g.shape
      case Point(at) => "(" + PositionText(at, say) + ")"
      case Run(line) => RunText(line, say)
      case Rings(rings) => "(" + Joined(RunTexts(rings, say), ",") + ")"
      case Parts(parts) => "(" + Joined(PartTexts(parts, Kind(g.head.word), say), ",") + ")"
  }

  function Text(g: Geometry, say: Say): string
    requires Valid(g)
    decreases g, 1
  {
    var tag := Tag(HasZ(g.head.word), HasM(g.head.word));
    var name := Name(Kind(g.head.word)) + tag;
    if EmptyShape(g.shape) then name + " EMPTY"
    else if tag != "" then name + " " + ShapeText(g, say)
    else name + ShapeText(g, say)
  }

  /** A collection names its members; any other kind of many knows what they are. */
  function PartTexts(parts: seq<Geometry>, of: nat, say: Say): (texts: seq<string>)
    requires forall p :: p in parts ==> Valid(p)
    decreases parts
  {
    if parts == [] then []
    else
      PartTexts(parts[..|parts| - 1], of, say) + [PartText(parts[|parts| - 1], of, say)]
  }

  function PartText(g: Geometry, of: nat, say: Say): string
    requires Valid(g)
    decreases g, 2
  {
    if of == 7 then Text(g, say) else if EmptyShape(g.shape) then "EMPTY" else ShapeText(g, say)
  }

  // ----- what of a tree is drawn

  /** A position as a map has it: its first two numbers. */
  datatype Place = Place(x: Number, y: Number)

  function PlaceOf(p: Position): Place
    requires |p| >= 2
  {
    Place(p[0], p[1])
  }

  function Places(line: seq<Position>): seq<Place>
    requires forall i :: 0 <= i < |line| ==> |line[i]| >= 2
  {
    seq(|line|, i requires 0 <= i < |line| => PlaceOf(line[i]))
  }

  function Drawn(rings: seq<seq<Position>>, dims: nat): seq<seq<Place>>
    requires dims >= 2 && ValidRings(rings, dims)
  {
    if rings == [] then []
    else
      var last := rings[|rings| - 1];
      assert ValidRun(last, dims);
      assert ValidPositions(last, dims);
      Drawn(rings[..|rings| - 1], dims) + if last == [] then [] else [Places(last)]
  }

  function PointsOf(g: Geometry): seq<Place>
    requires Valid(g)
  {
    match g.shape
    case Point(at) => if Hollow(at) then [] else [PlaceOf(at)]
    case Parts(parts) => AllPoints(parts)
    case _ => []
  }

  function AllPoints(parts: seq<Geometry>): seq<Place>
    requires forall p :: p in parts ==> Valid(p)
  {
    if parts == [] then [] else AllPoints(parts[..|parts| - 1]) + PointsOf(parts[|parts| - 1])
  }

  function LinesOf(g: Geometry): seq<seq<Place>>
    requires Valid(g)
  {
    match g.shape
    case Run(line) => Drawn([line], Dims(g.head.word))
    case Rings(rings) => Drawn(rings, Dims(g.head.word))
    case Parts(parts) => AllLines(parts)
    case _ => []
  }

  function AllLines(parts: seq<Geometry>): seq<seq<Place>>
    requires forall p :: p in parts ==> Valid(p)
  {
    if parts == [] then [] else AllLines(parts[..|parts| - 1]) + LinesOf(parts[|parts| - 1])
  }

  // ----- where the places are

  /** The place is where the position says: x its first number, y its second. */
  predicate AtPlace(place: Place, p: Position) { |p| >= 2 && place.x == p[0] && place.y == p[1] }

  predicate AlongRun(places: seq<Place>, line: seq<Position>) {
    |places| == |line| && forall i :: 0 <= i < |line| ==> AtPlace(places[i], line[i])
  }

  /** The positions of a tree's points, those left out that are nothing but NaN. */
  function Standing(g: Geometry): seq<Position> {
    match g.shape
    case Point(at) => if forall i :: 0 <= i < |at| ==> IsNaN(at[i]) then [] else [at]
    case Parts(parts) => StandingIn(parts)
    case _ => []
  }

  function StandingIn(parts: seq<Geometry>): seq<Position> { if parts == [] then [] else Standing(parts[0]) + StandingIn(parts[1..]) }

  /** The positions of its lines and of its polygons' rings, those left out that have none. */
  function Running(g: Geometry): seq<seq<Position>> {
    match g.shape
    case Run(line) => Filled([line])
    case Rings(rings) => Filled(rings)
    case Parts(parts) => RunningIn(parts)
    case _ => []
  }

  function RunningIn(parts: seq<Geometry>): seq<seq<Position>> { if parts == [] then [] else Running(parts[0]) + RunningIn(parts[1..]) }

  function Filled(rings: seq<seq<Position>>): seq<seq<Position>> {
    if rings == [] then [] else (if rings[0] == [] then [] else [rings[0]]) + Filled(rings[1..])
  }

  /** Line for line. */
  predicate AllAlong(lines: seq<seq<Place>>, runs: seq<seq<Position>>) {
    |lines| == |runs| && forall i :: 0 <= i < |runs| ==> AlongRun(lines[i], runs[i])
  }

  lemma {:induction false} StandingMore(a: seq<Geometry>, g: Geometry)
    ensures StandingIn(a + [g]) == StandingIn(a) + Standing(g)
    ensures RunningIn(a + [g]) == RunningIn(a) + Running(g)
    decreases |a|
  {
    hide Standing, Running;
    if a != [] {
      assert (a + [g])[1..] == a[1..] + [g];
      StandingMore(a[1..], g);
    } else {
      assert [g][1..] == [] && a + [g] == [g];
    }
  }

  lemma {:induction false} FilledMore(a: seq<seq<Position>>, line: seq<Position>)
    ensures Filled(a + [line]) == Filled(a) + if line == [] then [] else [line]
    decreases |a|
  {
    if a != [] {
      assert (a + [line])[1..] == a[1..] + [line];
      FilledMore(a[1..], line);
    } else {
      assert [line][1..] == [] && a + [line] == [line];
    }
  }

  lemma {:induction false} DrawnAlong(rings: seq<seq<Position>>, dims: nat)
    requires dims >= 2 && ValidRings(rings, dims)
    ensures AllAlong(Drawn(rings, dims), Filled(rings))
    decreases |rings|
  {
    if rings != [] {
      var init, last := rings[..|rings| - 1], rings[|rings| - 1];
      assert rings == init + [last] && ValidRun(last, dims) && ValidPositions(last, dims);
      DrawnAlong(init, dims);
      FilledMore(init, last);
      assert AlongRun(Places(last), last);
    }
  }

  /** What is drawn of a tree is at its own positions, in their order. */
  lemma {:induction false} DrawnAt(g: Geometry)
    requires Valid(g)
    ensures AlongRun(PointsOf(g), Standing(g)) && AllAlong(LinesOf(g), Running(g))
    decreases g, 1
  {
    match g.shape {
      case Point(at) => assert |at| >= 2;
      case Run(line) =>
        OneRing(line, Dims(g.head.word));
        DrawnAlong([line], Dims(g.head.word));
      case Rings(rings) => DrawnAlong(rings, Dims(g.head.word));
      case Parts(parts) => PartsDrawnAt(parts);
    }
  }

  lemma OneRing(line: seq<Position>, dims: nat)
    requires ValidRun(line, dims)
    ensures ValidRings([line], dims)
  {
  }

  lemma {:induction false} PartsDrawnAt(parts: seq<Geometry>)
    requires forall p :: p in parts ==> Valid(p)
    ensures AlongRun(AllPoints(parts), StandingIn(parts)) && AllAlong(AllLines(parts), RunningIn(parts))
    decreases parts, 0
  {
    if parts != [] {
      var init, last := parts[..|parts| - 1], parts[|parts| - 1];
      assert parts == init + [last] && last in parts;
      PartsDrawnAt(init);
      DrawnAt(last);
      StandingMore(init, last);
      hide Valid, PointsOf, LinesOf, Standing, Running;
    }
  }

  // ----- one part after another

  /** What reading `got` and then the rest reads. */
  function Ahead<T>(got: seq<T>, rest: Result<(seq<T>, nat)>): Result<(seq<T>, nat)> {
    if rest.Err? then rest else Ok((got + rest.value.0, rest.value.1))
  }

  lemma AheadNothing<T>(rest: Result<(seq<T>, nat)>)
    ensures Ahead([], rest) == rest
  {
    if rest.Ok? { assert [] + rest.value.0 == rest.value.0; }
  }

  lemma AheadOne<T>(got: seq<T>, x: T, rest: Result<(seq<T>, nat)>)
    ensures Ahead(got, Ahead([x], rest)) == Ahead(got + [x], rest)
  {
    if rest.Ok? { assert got + ([x] + rest.value.0) == got + [x] + rest.value.0; }
  }

  lemma AheadEnd<T>(got: seq<T>, end: nat)
    ensures Ahead(got, Ok(([], end))) == Ok((got, end))
  {
    assert got + [] == got;
  }

  lemma PositionEnd(b: seq<byte>, off: nat, little: bool, dims: nat, p: Position)
    requires off <= |b|
    ensures Ahead(p, PositionAt(b, off, little, 0)) == Ok((p, off))
    ensures Ahead([], PositionAt(b, off, little, dims)) == PositionAt(b, off, little, dims)
  {
    AheadEnd(p, off);
    AheadNothing(PositionAt(b, off, little, dims));
  }

  lemma PositionsEnd(b: seq<byte>, off: nat, little: bool, dims: nat, n: nat, ps: seq<Position>)
    requires off <= |b|
    ensures Ahead(ps, PositionsAt(b, off, little, dims, 0)) == Ok((ps, off))
    ensures Ahead([], PositionsAt(b, off, little, dims, n)) == PositionsAt(b, off, little, dims, n)
  {
    AheadEnd(ps, off);
    AheadNothing(PositionsAt(b, off, little, dims, n));
  }

  lemma RingsEnd(b: seq<byte>, off: nat, little: bool, dims: nat, n: nat, rings: seq<seq<Position>>)
    requires off <= |b|
    ensures Ahead(rings, RingsAt(b, off, little, dims, 0)) == Ok((rings, off))
    ensures Ahead([], RingsAt(b, off, little, dims, n)) == RingsAt(b, off, little, dims, n)
  {
    AheadEnd(rings, off);
    AheadNothing(RingsAt(b, off, little, dims, n));
  }

  lemma PartsEnd(b: seq<byte>, off: nat, n: nat, of: nat, parts: seq<Geometry>)
    requires off <= |b|
    ensures Ahead(parts, PartsAt(b, off, 0, of)) == Ok((parts, off))
    ensures Ahead([], PartsAt(b, off, n, of)) == PartsAt(b, off, n, of)
  {
    AheadEnd(parts, off);
    AheadNothing(PartsAt(b, off, n, of));
  }

  lemma SaidMore(p: Position, v: Number, say: Say)
    ensures Said(p + [v], say) == Said(p, say) + [say(v)]
    ensures Hollow(p + [v]) <==> Hollow(p) && IsNaN(v)
  {
    hide IsNaN;
    if Hollow(p + [v]) {
      assert IsNaN((p + [v])[|p|]);
      forall i | 0 <= i < |p| ensures IsNaN(p[i]) { assert IsNaN((p + [v])[i]); }
    }
  }

  lemma TextsMore(ps: seq<Position>, p: Position, say: Say)
    ensures PositionTexts(ps + [p], say) == PositionTexts(ps, say) + [PositionText(p, say)]
  {
    hide PositionText;
  }

  lemma RunsMore(rings: seq<seq<Position>>, line: seq<Position>, say: Say)
    ensures RunTexts(rings + [line], say) == RunTexts(rings, say) + [RunText(line, say)]
  {
    hide RunText;
  }

  lemma PositionStep(b: seq<byte>, off: nat, little: bool, dims: nat, p: Position)
    requires off <= |b| && dims > 0
    ensures match NumberAt(b, off, little)
            case Ok(n) => Ahead(p, PositionAt(b, off, little, dims)) == Ahead(p + [n], PositionAt(b, off + 8, little, dims - 1))
            case Err(e) => Ahead(p, PositionAt(b, off, little, dims)) == Err(e)
  {
    if NumberAt(b, off, little).Ok? {
      AheadOne(p, NumberAt(b, off, little).value, PositionAt(b, off + 8, little, dims - 1));
    }
  }

  lemma PositionsStep(b: seq<byte>, off: nat, little: bool, dims: nat, n: nat, ps: seq<Position>)
    requires off <= |b| && n > 0
    ensures match PositionAt(b, off, little, dims)
            case Ok((p, end)) => Ahead(ps, PositionsAt(b, off, little, dims, n)) == Ahead(ps + [p], PositionsAt(b, end, little, dims, n - 1))
            case Err(e) => Ahead(ps, PositionsAt(b, off, little, dims, n)) == Err(e)
  {
    hide PositionAt;
    if PositionAt(b, off, little, dims).Ok? {
      var (p, end) := PositionAt(b, off, little, dims).value;
      AheadOne(ps, p, PositionsAt(b, end, little, dims, n - 1));
    }
  }

  lemma RingsStep(b: seq<byte>, off: nat, little: bool, dims: nat, n: nat, rings: seq<seq<Position>>)
    requires off <= |b| && n > 0
    ensures match RunAt(b, off, little, dims)
            case Ok((line, end)) => Ahead(rings, RingsAt(b, off, little, dims, n)) == Ahead(rings + [line], RingsAt(b, end, little, dims, n - 1))
            case Err(e) => Ahead(rings, RingsAt(b, off, little, dims, n)) == Err(e)
  {
    hide RunAt;
    if RunAt(b, off, little, dims).Ok? {
      var (line, end) := RunAt(b, off, little, dims).value;
      AheadOne(rings, line, RingsAt(b, end, little, dims, n - 1));
    }
  }

  lemma PartsStep(b: seq<byte>, off: nat, n: nat, of: nat, parts: seq<Geometry>)
    requires off <= |b| && n > 0
    ensures match GeometryAt(b, off, of)
            case Ok((g, end)) => Ahead(parts, PartsAt(b, off, n, of)) == Ahead(parts + [g], PartsAt(b, end, n - 1, of))
            case Err(e) => Ahead(parts, PartsAt(b, off, n, of)) == Err(e)
  {
    hide GeometryAt, Valid;
    if GeometryAt(b, off, of).Ok? {
      var (g, end) := GeometryAt(b, off, of).value;
      AheadOne(parts, g, PartsAt(b, end, n - 1, of));
    }
  }

  lemma RunUnfolds(b: seq<byte>, off: nat, little: bool, dims: nat)
    requires off <= |b|
    ensures match CountAt(b, off, little, 8 * dims)
            case Ok(n) =>
              && RunAt(b, off, little, dims) == PositionsAt(b, off + 4, little, dims, n)
              && PositionsAt(b, off + 4, little, dims, 0).Ok?
              && PositionsAt(b, off + 4, little, dims, 0).value.1 == off + 4
            case Err(e) => RunAt(b, off, little, dims) == Err(e)
  {
    hide CountAt;
  }

  lemma PlacesMore(line: seq<Position>, p: Position)
    requires |p| >= 2 && forall i :: 0 <= i < |line| ==> |line[i]| >= 2
    ensures Places(line + [p]) == Places(line) + [PlaceOf(p)]
  {
  }

  lemma DrawnMore(rings: seq<seq<Position>>, line: seq<Position>, dims: nat)
    requires dims >= 2 && ValidRings(rings, dims) && ValidRun(line, dims)
    ensures ValidRings(rings + [line], dims)
    ensures forall i :: 0 <= i < |line| ==> |line[i]| >= 2
    ensures Drawn(rings + [line], dims) == Drawn(rings, dims) + if line == [] then [] else [Places(line)]
  {
    assert (rings + [line])[..|rings|] == rings;
    assert ValidPositions(line, dims);
  }

  lemma AllMore(parts: seq<Geometry>, g: Geometry)
    requires Valid(g) && forall p :: p in parts ==> Valid(p)
    ensures forall p :: p in parts + [g] ==> Valid(p)
    ensures AllPoints(parts + [g]) == AllPoints(parts) + PointsOf(g)
    ensures AllLines(parts + [g]) == AllLines(parts) + LinesOf(g)
  {
    hide Valid, PointsOf, LinesOf;
    assert (parts + [g])[..|parts|] == parts;
  }

  /** Bytes begin with a geometry exactly when one is read from them, and then
      with that one alone. */
  lemma BeginsIff(b: seq<byte>)
    ensures GeometryAt(b, 0, 7).Ok? <==> exists g, after :: Valid(g) && Bytes(g) + after == b
    ensures forall g, after :: Valid(g) && Bytes(g) + after == b ==> Gave(GeometryAt(b, 0, 7), g)
  {
    hide GeometryAt, Bytes, Valid;
    forall g, after | Valid(g) && Bytes(g) + after == b ensures Gave(GeometryAt(b, 0, 7), g) {
      RoundTrip([], g, after);
      assert [] + Bytes(g) + after == b;
    }
    if GeometryAt(b, 0, 7).Ok? {
      ReadBack(b, 0);
      var (g, end) := GeometryAt(b, 0, 7).value;
      assert Bytes(g) + b[end..] == b;
    }
  }

  /** They are one geometry and nothing more exactly when reading stops at their end. */
  lemma WholeIff(b: seq<byte>)
    ensures (GeometryAt(b, 0, 7).Ok? && GeometryAt(b, 0, 7).value.1 == |b|) <==> exists g :: Valid(g) && Bytes(g) == b
    ensures forall g :: Valid(g) && Bytes(g) == b ==> Gave(GeometryAt(b, 0, 7), g) && GeometryAt(b, 0, 7).value.1 == |b|
  {
    hide GeometryAt, Bytes, Valid;
    forall g | Valid(g) && Bytes(g) == b ensures Gave(GeometryAt(b, 0, 7), g) && GeometryAt(b, 0, 7).value.1 == |b| {
      RoundTrip([], g, []);
      assert [] + Bytes(g) + [] == b;
    }
    if GeometryAt(b, 0, 7).Ok? && GeometryAt(b, 0, 7).value.1 == |b| {
      ReadBack(b, 0);
      assert b[0..|b|] == b;
      assert Bytes(GeometryAt(b, 0, 7).value.0) == b;
    }
  }

  // ----- the reader

  datatype Head = Head(little: bool, kind: nat, dims: nat, tag: string)

  function HeadOf(h: Header): Head {
    Head(h.little, Kind(h.word), Dims(h.word), Tag(HasZ(h.word), HasM(h.word)))
  }

  /** What a map draws: the points that stand alone, and the lines. */
  class Coords {
    var points: seq<Place>
    var lines: seq<seq<Place>>

    constructor ()
      ensures points == [] && lines == []
    {
      points, lines := [], [];
    }
  }

  class Reader {
    const b: seq<byte>
    const say: Say
    var off: nat

    constructor (b: seq<byte>, say: Say)
      ensures this.b == b && this.say == say && off == 0
    {
      this.b, this.say, off := b, say, 0;
    }

    method ReadU32(little: bool) returns (r: Result<uint32>)
      requires off <= |b|
      modifies this`off
      ensures r == U32At(b, old(off), little)
      ensures off == old(off) + if r.Ok? then 4 else 0
    {
      r := U32At(b, off, little);
      if r.Ok? { off := off + 4; }
    }

    method ReadF64(little: bool) returns (r: Result<Number>)
      requires off <= |b|
      modifies this`off
      ensures r == NumberAt(b, old(off), little)
      ensures off == old(off) + if r.Ok? then 8 else 0
    {
      r := NumberAt(b, off, little);
      if r.Ok? { off := off + 8; }
    }

    method ReadCount(little: bool, least: nat) returns (r: Result<uint32>)
      requires off <= |b|
      modifies this`off
      ensures r == CountAt(b, old(off), little, least)
      ensures old(off) <= off <= |b| && (r.Ok? ==> off == old(off) + 4)
    {
      r := ReadU32(little);
      if r.Ok? && r.value * least > |b| - off { r := Err(Short); }
    }

    method ReadHeader() returns (r: Result<Head>, ghost header: Header)
      requires off <= |b|
      modifies this`off
      ensures old(off) <= off <= |b|
      ensures match HeaderAt(b, old(off))
              case Ok((h, end)) => r == Ok(HeadOf(h)) && header == h && off == end
              case Err(e) => r == Err(e)
    {
      header := Header(false, 0, None);
      if off >= |b| { r := Err(Short); return; }
      if b[off] > 1 { r := Err(BadOrder(b[off])); return; }
      var little := b[off] == 1;
      off := off + 1;
      var word := ReadU32(little);
      if word.Err? { r := Err(word.error); return; }
      var t: int := word.value;
      var z, m := HasFlag(t, 0x8000_0000), HasFlag(t, 0x4000_0000);
      ghost var srid: Option<uint32> := None;
      if HasFlag(t, 0x2000_0000) {
        var s := ReadU32(little);
        if s.Err? { r := Err(s.error); return; }
        srid := Some(s.value);
      }
      t := t % 0x1000_0000;
      match t / 1000 {
        case 1 => z := true;
        case 2 => m := true;
        case 3 => z, m := true, true;
        case _ =>
      }
      var kind := t % 1000;
      if !IsKind(kind) { r := Err(BadKind(t)); return; }
      var dims, tag := 2, "";
      if z && m { dims, tag := 4, " ZM"; }
      else if z { dims, tag := 3, " Z"; }
      else if m { dims, tag := 3, " M"; }
      r, header := Ok(Head(little, kind, dims, tag)), Header(little, word.value, srid);
    }

    // ----- as text

    method ReadPoint(h: Head) returns (r: Result<(string, bool)>)
      requires off <= |b|
      modifies this`off
      ensures old(off) <= off <= |b|
      ensures match PositionAt(b, old(off), h.little, h.dims)
              case Ok((p, end)) => r == Ok((PositionText(p, say), Hollow(p))) && off == end
              case Err(e) => r == Err(e)
    {
      hide PositionAt, NumberAt, IsNaN, Ahead;
      var parts: seq<string>, empty, i := [], true, 0;
      ghost var p: Position := [];
      PositionEnd(b, off, h.little, h.dims, p);
      while i < h.dims
        invariant i <= h.dims && old(off) <= off <= |b| && |p| == i
        invariant PositionAt(b, old(off), h.little, h.dims) == Ahead(p, PositionAt(b, off, h.little, h.dims - i))
        invariant parts == Said(p, say) && empty == Hollow(p)
      {
        PositionStep(b, off, h.little, h.dims - i, p);
        var v := ReadF64(h.little);
        if v.Err? { return Err(v.error); }
        empty := empty && IsNaN(v.value);
        parts := parts + [say(v.value)];
        SaidMore(p, v.value, say);
        p := p + [v.value];
        i := i + 1;
      }
      PositionEnd(b, off, h.little, h.dims, p);
      return Ok((Joined(parts, " "), empty));
    }

    method ReadPoints(h: Head) returns (r: Result<(string, bool)>)
      requires off <= |b|
      modifies this`off
      ensures old(off) <= off <= |b|
      ensures match RunAt(b, old(off), h.little, h.dims)
              case Ok((line, end)) => r == Ok((RunText(line, say), line == [])) && off == end
              case Err(e) => r == Err(e)
    {
      hide RunAt, CountAt, PositionsAt, PositionTexts, ValidPosition;
      RunUnfolds(b, off, h.little, h.dims);
      var n := ReadCount(h.little, 8 * h.dims);
      if n.Err? { return Err(n.error); }
      if n.value == 0 { return Ok(("", true)); }
      var out := ReadRun(h, n.value);
      if out.Err? { return Err(out.error); }
      return Ok(("(" + Joined(out.value, ",") + ")", false));
    }

    /** The loop over a line's positions. */
    method ReadRun(h: Head, n: nat) returns (r: Result<seq<string>>)
      requires off <= |b|
      modifies this`off
      ensures old(off) <= off <= |b|
      ensures match PositionsAt(b, old(off), h.little, h.dims, n)
              case Ok((line, end)) => r == Ok(PositionTexts(line, say)) && off == end
              case Err(e) => r == Err(e)
    {
      hide PositionAt, PositionText, PositionsAt, Ahead;
      var out: seq<string>, i := [], 0;
      ghost var line: seq<Position> := [];
      PositionsEnd(b, off, h.little, h.dims, n, line);
      while i < n
        invariant i <= n && old(off) <= off <= |b| && |line| == i
        invariant PositionsAt(b, old(off), h.little, h.dims, n) == Ahead(line, PositionsAt(b, off, h.little, h.dims, n - i))
        invariant out == PositionTexts(line, say)
      {
        ghost var at := PositionAt(b, off, h.little, h.dims);
        PositionsStep(b, off, h.little, h.dims, n - i, line);
        var p := ReadPoint(h);
        if p.Err? { return Err(p.error); }
        TextsMore(line, at.value.0, say);
        out := out + [p.value.0];
        line := line + [at.value.0];
        i := i + 1;
      }
      PositionsEnd(b, off, h.little, h.dims, n, line);
      return Ok(out);
    }

    /** A header, and what it is the header of. */
    method ReadGeometry() returns (r: Result<string>)
      requires off <= |b|
      modifies this`off
      ensures old(off) <= off <= |b|
      ensures match GeometryAt(b, old(off), 7)
              case Ok((g, end)) => r == Ok(Text(g, say)) && off == end
              case Err(e) => r == Err(e)
      decreases |b| - off, 1
    {
      ghost var header;
      var h;
      h, header := ReadHeader();
      if h.Err? { return Err(h.error); }
      var shape := ReadShape(h.value, header);
      if shape.Err? { return Err(shape.error); }
      var name := Name(h.value.kind) + h.value.tag;
      if shape.value.1 { return Ok(name + " EMPTY"); }
      if h.value.tag != "" { return Ok(name + " " + shape.value.0); }
      return Ok(name + shape.value.0);
    }

    /** The coordinates after the header. An empty shape is told apart. */
    method ReadShape(h: Head, ghost header: Header) returns (r: Result<(string, bool)>)
      requires off <= |b| && ValidHeader(header) && h == HeadOf(header)
      modifies this`off
      ensures old(off) <= off <= |b|
      ensures match ShapeAt(b, old(off), header)
              case Ok((s, end)) => r == Ok((ShapeText(Geometry(header, s), say), EmptyShape(s))) && off == end
              case Err(e) => r == Err(e)
      decreases |b| - off, 2
    {
      hide PositionAt, RunAt, CountAt, RingsAt, PartsAt, PositionText, PositionTexts, Joined, RunTexts, PartTexts, Hollow;
      if h.kind == 1 {
        var p := ReadPoint(h);
        if p.Err? { return Err(p.error); }
        if p.value.1 { return Ok(("", true)); }
        return Ok(("(" + p.value.0 + ")", false));
      } else if h.kind == 2 {
        r := ReadPoints(h);
      } else if h.kind == 3 {
        var n := ReadCount(h.little, 4);
        if n.Err? { return Err(n.error); }
        RingsEnd(b, off, h.little, h.dims, n.value, []);
        if n.value == 0 { return Ok(("", true)); }
        var rings := ReadRings(h, n.value);
        if rings.Err? { return Err(rings.error); }
        return Ok(("(" + Joined(rings.value, ",") + ")", false));
      } else {
        var n := ReadCount(h.little, 5);
        if n.Err? { return Err(n.error); }
        PartsEnd(b, off, n.value, h.kind, []);
        if n.value == 0 { return Ok(("", true)); }
        var parts := ReadParts(h, n.value);
        if parts.Err? { return Err(parts.error); }
        return Ok(("(" + Joined(parts.value, ",") + ")", false));
      }
    }

    /** The loop over a polygon's rings. */
    method ReadRings(h: Head, n: nat) returns (r: Result<seq<string>>)
      requires off <= |b|
      modifies this`off
      ensures old(off) <= off <= |b|
      ensures match RingsAt(b, old(off), h.little, h.dims, n)
              case Ok((rings, end)) => r == Ok(RunTexts(rings, say)) && off == end
              case Err(e) => r == Err(e)
    {
      hide RunAt, RunText, RingsAt, Ahead;
      var out: seq<string>, i := [], 0;
      ghost var rings: seq<seq<Position>> := [];
      RingsEnd(b, off, h.little, h.dims, n, rings);
      while i < n
        invariant i <= n && old(off) <= off <= |b| && |rings| == i
        invariant RingsAt(b, old(off), h.little, h.dims, n) == Ahead(rings, RingsAt(b, off, h.little, h.dims, n - i))
        invariant out == RunTexts(rings, say)
      {
        ghost var at := RunAt(b, off, h.little, h.dims);
        RingsStep(b, off, h.little, h.dims, n - i, rings);
        var ring := ReadPoints(h);
        if ring.Err? { return Err(ring.error); }
        RunsMore(rings, at.value.0, say);
        out := out + [ring.value.0];
        rings := rings + [at.value.0];
        i := i + 1;
      }
      RingsEnd(b, off, h.little, h.dims, n, rings);
      return Ok(out);
    }

    /** The loop over the members of a geometry of many. */
    method ReadParts(h: Head, n: nat) returns (r: Result<seq<string>>)
      requires off <= |b| && 4 <= h.kind <= 7
      modifies this`off
      ensures old(off) <= off <= |b|
      ensures match PartsAt(b, old(off), n, h.kind)
              case Ok((parts, end)) => r == Ok(PartTexts(parts, h.kind, say)) && off == end
              case Err(e) => r == Err(e)
      decreases |b| - off, 3
    {
      hide GeometryAt, PartText, PartsAt, Ahead, Valid;
      var out: seq<string>, i := [], 0;
      ghost var parts: seq<Geometry> := [];
      PartsEnd(b, off, n, h.kind, parts);
      while i < n
        invariant i <= n && old(off) <= off <= |b| && |parts| == i
        invariant forall p :: p in parts ==> Valid(p)
        invariant PartsAt(b, old(off), n, h.kind) == Ahead(parts, PartsAt(b, off, n - i, h.kind))
        invariant out == PartTexts(parts, h.kind, say)
      {
        ghost var at := GeometryAt(b, off, h.kind);
        PartsStep(b, off, n - i, h.kind, parts);
        var part := ReadPart(h);
        if part.Err? { return Err(part.error); }
        out := out + [part.value];
        parts := parts + [at.value.0];
        assert parts[..i] + [at.value.0] == parts;
        i := i + 1;
      }
      PartsEnd(b, off, n, h.kind, parts);
      return Ok(out);
    }

    /** One member of a geometry of many. */
    method ReadPart(h: Head) returns (r: Result<string>)
      requires off <= |b| && 4 <= h.kind <= 7
      modifies this`off
      ensures old(off) <= off <= |b|
      ensures match GeometryAt(b, old(off), h.kind)
              case Ok((g, end)) =>
                && r == Ok(PartText(g, h.kind, say))
                && off == end
              case Err(e) => r == Err(e)
      decreases |b| - off, 2
    {
      if h.kind == 7 {
        r := ReadGeometry();
        return;
      }
      ghost var header;
      var mh;
      mh, header := ReadHeader();
      if mh.Err? { return Err(mh.error); }
      if mh.value.kind != h.kind - 3 { return Err(WrongMember(h.kind, mh.value.kind)); }
      var part := ReadShape(mh.value, header);
      if part.Err? { return Err(part.error); }
      return Ok(if part.value.1 then "EMPTY" else part.value.0);
    }

    // ----- as positions

    /** The first two numbers are kept and the rest read past. */
    method ReadPosition(h: Head) returns (r: Result<(Place, bool)>)
      requires off <= |b| && h.dims >= 2
      modifies this`off
      ensures old(off) <= off <= |b|
      ensures match PositionAt(b, old(off), h.little, h.dims)
              case Ok((p, end)) => r == Ok((PlaceOf(p), Hollow(p))) && AtPlace(r.value.0, p) && off == end
              case Err(e) => r == Err(e)
    {
      hide PositionAt, NumberAt, IsNaN, Ahead;
      var place, empty, i := Place([], []), true, 0;
      ghost var p: Position := [];
      PositionEnd(b, off, h.little, h.dims, p);
      while i < h.dims
        invariant i <= h.dims && old(off) <= off <= |b| && |p| == i
        invariant PositionAt(b, old(off), h.little, h.dims) == Ahead(p, PositionAt(b, off, h.little, h.dims - i))
        invariant empty == Hollow(p)
        invariant (i > 0 ==> place.x == p[0]) && (i > 1 ==> place.y == p[1])
      {
        PositionStep(b, off, h.little, h.dims - i, p);
        var v := ReadF64(h.little);
        if v.Err? { return Err(v.error); }
        empty := empty && IsNaN(v.value);
        SaidMore(p, v.value, say);
        match i {
          case 0 => place := place.(x := v.value);
          case 1 => place := place.(y := v.value);
          case _ =>
        }
        p := p + [v.value];
        i := i + 1;
      }
      PositionEnd(b, off, h.little, h.dims, p);
      return Ok((place, empty));
    }

    method ReadPositionRun(h: Head) returns (r: Result<seq<Place>>)
      requires off <= |b| && h.dims >= 2
      modifies this`off
      ensures old(off) <= off <= |b|
      ensures match RunAt(b, old(off), h.little, h.dims)
              case Ok((line, end)) =>
                && (forall i :: 0 <= i < |line| ==> |line[i]| >= 2)
                && r == Ok(Places(line)) && off == end
              case Err(e) => r == Err(e)
    {
      hide RunAt, CountAt, PositionsAt, PositionAt, Ahead;
      RunUnfolds(b, off, h.little, h.dims);
      var n := ReadCount(h.little, 8 * h.dims);
      if n.Err? { return Err(n.error); }
      if n.value == 0 {
        assert Places(PositionsAt(b, off, h.little, h.dims, 0).value.0) == [];
        return Ok([]);
      }
      r := ReadPlaces(h, n.value);
    }

    /** The loop over a run's positions. */
    method ReadPlaces(h: Head, n: nat) returns (r: Result<seq<Place>>)
      requires off <= |b| && h.dims >= 2
      modifies this`off
      ensures old(off) <= off <= |b|
      ensures match PositionsAt(b, old(off), h.little, h.dims, n)
              case Ok((line, end)) =>
                && (forall i :: 0 <= i < |line| ==> |line[i]| >= 2)
                && r == Ok(Places(line)) && off == end
              case Err(e) => r == Err(e)
    {
      hide PositionsAt, PositionAt, Ahead;
      var out: seq<Place>, i := [], 0;
      ghost var line: seq<Position> := [];
      PositionsEnd(b, off, h.little, h.dims, n, line);
      while i < n
        invariant i <= n && old(off) <= off <= |b| && |line| == i
        invariant PositionsAt(b, old(off), h.little, h.dims, n) == Ahead(line, PositionsAt(b, off, h.little, h.dims, n - i))
        invariant forall i :: 0 <= i < |line| ==> |line[i]| >= 2
        invariant out == Places(line)
      {
        ghost var at := PositionAt(b, off, h.little, h.dims);
        PositionsStep(b, off, h.little, h.dims, n - i, line);
        var p := ReadPosition(h);
        if p.Err? { return Err(p.error); }
        PlacesMore(line, at.value.0);
        out := out + [p.value.0];
        line := line + [at.value.0];
        i := i + 1;
      }
      PositionsEnd(b, off, h.little, h.dims, n, line);
      return Ok(out);
    }

    /** Adds to `out` all that a geometry draws. */
    method ReadPositions(out: Coords) returns (r: Result<()>)
      requires off <= |b|
      modifies this`off, out
      ensures old(off) <= off <= |b|
      ensures match GeometryAt(b, old(off), 7)
              case Ok((g, end)) =>
                && r.Ok? && off == end
                && out.points == old(out.points) + PointsOf(g) && out.lines == old(out.lines) + LinesOf(g)
              case Err(e) => r == Err(e)
      decreases |b| - off, 1
    {
      ghost var header;
      var h;
      h, header := ReadHeader();
      if h.Err? { return Err(h.error); }
      r := ReadShapePositions(h.value, header, out);
    }

    method ReadShapePositions(h: Head, ghost header: Header, out: Coords) returns (r: Result<()>)
      requires off <= |b| && ValidHeader(header) && h == HeadOf(header)
      modifies this`off, out
      ensures old(off) <= off <= |b|
      ensures match ShapeAt(b, old(off), header)
              case Ok((s, end)) =>
                && r.Ok? && off == end
                && out.points == old(out.points) + PointsOf(Geometry(header, s))
                && out.lines == old(out.lines) + LinesOf(Geometry(header, s))
              case Err(e) => r == Err(e)
      decreases |b| - off, 2
    {
      hide Ahead, RunAt, PositionAt, CountAt, RingsAt, PartsAt;
      if h.kind == 1 {
        var p := ReadPosition(h);
        if p.Err? { return Err(p.error); }
        if !p.value.1 { out.points := out.points + [p.value.0]; }
        return Ok(());
      } else if h.kind == 2 {
        ghost var at := RunAt(b, off, h.little, h.dims);
        var line := ReadPositionRun(h);
        if line.Err? { return Err(line.error); }
        DrawnMore([], at.value.0, h.dims);
        assert [] + [at.value.0] == [at.value.0];
        if |line.value| > 0 { out.lines := out.lines + [line.value]; }
        return Ok(());
      } else if h.kind == 3 {
        var n := ReadCount(h.little, 4);
        if n.Err? { return Err(n.error); }
        r := DrawRings(h, n.value, out);
      } else {
        var n := ReadCount(h.little, 5);
        if n.Err? { return Err(n.error); }
        r := DrawParts(h, n.value, out);
      }
    }

    /** The loop over a polygon's rings. */
    method DrawRings(h: Head, n: nat, out: Coords) returns (r: Result<()>)
      requires off <= |b| && h.dims >= 2
      modifies this`off, out
      ensures old(off) <= off <= |b|
      ensures match RingsAt(b, old(off), h.little, h.dims, n)
              case Ok((rings, end)) =>
                && r.Ok? && off == end
                && out.points == old(out.points) && out.lines == old(out.lines) + Drawn(rings, h.dims)
              case Err(e) => r == Err(e)
    {
      hide RunAt, RingsAt, Ahead, ValidRun;
      var i := 0;
      ghost var rings: seq<seq<Position>> := [];
      RingsEnd(b, off, h.little, h.dims, n, rings);
      while i < n
        invariant i <= n && old(off) <= off <= |b| && |rings| == i && ValidRings(rings, h.dims)
        invariant RingsAt(b, old(off), h.little, h.dims, n) == Ahead(rings, RingsAt(b, off, h.little, h.dims, n - i))
        invariant out.points == old(out.points) && out.lines == old(out.lines) + Drawn(rings, h.dims)
      {
        ghost var at := RunAt(b, off, h.little, h.dims);
        RingsStep(b, off, h.little, h.dims, n - i, rings);
        var ring := ReadPositionRun(h);
        if ring.Err? { return Err(ring.error); }
        DrawnMore(rings, at.value.0, h.dims);
        if |ring.value| > 0 { out.lines := out.lines + [ring.value]; }
        rings := rings + [at.value.0];
        i := i + 1;
      }
      RingsEnd(b, off, h.little, h.dims, n, rings);
      return Ok(());
    }

    /** The loop over the members of a geometry of many. */
    method DrawParts(h: Head, n: nat, out: Coords) returns (r: Result<()>)
      requires off <= |b| && 4 <= h.kind <= 7
      modifies this`off, out
      ensures old(off) <= off <= |b|
      ensures match PartsAt(b, old(off), n, h.kind)
              case Ok((parts, end)) =>
                && r.Ok? && off == end
                && out.points == old(out.points) + AllPoints(parts) && out.lines == old(out.lines) + AllLines(parts)
              case Err(e) => r == Err(e)
      decreases |b| - off, 3
    {
      hide GeometryAt, PartsAt, Ahead, Valid, PointsOf, LinesOf;
      var i := 0;
      ghost var parts: seq<Geometry> := [];
      PartsEnd(b, off, n, h.kind, parts);
      while i < n
        invariant i <= n && old(off) <= off <= |b| && |parts| == i
        invariant forall p :: p in parts ==> Valid(p)
        invariant PartsAt(b, old(off), n, h.kind) == Ahead(parts, PartsAt(b, off, n - i, h.kind))
        invariant out.points == old(out.points) + AllPoints(parts) && out.lines == old(out.lines) + AllLines(parts)
      {
        ghost var at := GeometryAt(b, off, h.kind);
        PartsStep(b, off, n - i, h.kind, parts);
        var part := DrawPart(h, out);
        if part.Err? { return Err(part.error); }
        AllMore(parts, at.value.0);
        parts := parts + [at.value.0];
        i := i + 1;
      }
      PartsEnd(b, off, n, h.kind, parts);
      return Ok(());
    }

    /** One member of a geometry of many. */
    method DrawPart(h: Head, out: Coords) returns (r: Result<()>)
      requires off <= |b| && 4 <= h.kind <= 7
      modifies this`off, out
      ensures old(off) <= off <= |b|
      ensures match GeometryAt(b, old(off), h.kind)
              case Ok((g, end)) =>
                && r.Ok? && off == end
                && out.points == old(out.points) + PointsOf(g) && out.lines == old(out.lines) + LinesOf(g)
              case Err(e) => r == Err(e)
      decreases |b| - off, 2
    {
      if h.kind == 7 {
        r := ReadPositions(out);
        return;
      }
      ghost var header;
      var mh;
      mh, header := ReadHeader();
      if mh.Err? { return Err(mh.error); }
      if mh.value.kind != h.kind - 3 { return Err(WrongMember(h.kind, mh.value.kind)); }
      r := ReadShapePositions(mh.value, header, out);
    }
  }

  /** Well-known binary as well-known text: it succeeds exactly on the bytes of
      one geometry and nothing after, and writes that geometry. */
  method WKT(b: seq<byte>, say: Say) returns (r: Result<string>)
    ensures r.Ok? <==> exists g :: Valid(g) && Bytes(g) == b
    ensures forall g :: Valid(g) && Bytes(g) == b ==> r == Ok(Text(g, say))
    ensures match GeometryAt(b, 0, 7)
            case Ok((g, end)) => end < |b| ==> r == Err(Trailing(|b| - end))
            case Err(e) => r == Err(e)
  {
    hide GeometryAt, Bytes, Text, Valid;
    var reader := new Reader(b, say);
    r := reader.ReadGeometry();
    WholeIff(b);
    if r.Ok? && reader.off != |b| { r := Err(Trailing(|b| - reader.off)); }
  }

  /** What a map draws of some bytes; those past the geometry do not matter. */
  method Coordinates(b: seq<byte>, say: Say) returns (r: Result<()>, out: Coords)
    ensures fresh(out)
    ensures r.Ok? <==> exists g, after :: Valid(g) && Bytes(g) + after == b
    ensures forall g, after :: Valid(g) && Bytes(g) + after == b ==> out.points == PointsOf(g) && out.lines == LinesOf(g)
    ensures forall g, after :: Valid(g) && Bytes(g) + after == b ==>
              AlongRun(out.points, Standing(g)) && AllAlong(out.lines, Running(g))
    ensures GeometryAt(b, 0, 7).Err? ==> r == Err(GeometryAt(b, 0, 7).error) && out.points == [] && out.lines == []
  {
    hide GeometryAt, Bytes, Valid, PointsOf, LinesOf, Standing, Running, AlongRun, AllAlong;
    var reader := new Reader(b, say);
    out := new Coords();
    r := reader.ReadPositions(out);
    BeginsIff(b);
    forall g, after | Valid(g) && Bytes(g) + after == b ensures AlongRun(PointsOf(g), Standing(g)) && AllAlong(LinesOf(g), Running(g)) {
      DrawnAt(g);
    }
    if r.Err? { out := new Coords(); }
  }
}
