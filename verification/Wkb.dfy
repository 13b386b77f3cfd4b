/** Well-known binary (internal/model/geometry.go, internal/model/geocoords.go):
    what its bytes say, and the bytes that say it. Section 8 of OGC 06-103r4,
    with PostGIS's flag bits and embedded SRID. */
module Wkb {
  import opened Wrappers

  type byte = x: int | 0 <= x < 256
  type uint32 = x: int | 0 <= x < 0x1_0000_0000

  datatype Error = Short | BadOrder(order: byte) | BadKind(word: uint32) | WrongMember(kind: nat, member: nat) | Trailing(bytes: nat)
  datatype Result<T> = Ok(value: T) | Err(error: Error)

  // ----- the tree

  /** A number: its eight bytes, most significant first. */
  type Number = seq<byte>
  type Position = seq<Number>

  /** What stands before every geometry: its byte order, the word that says what
      it is, and the SRID extended well-known binary puts after it. */
  datatype Header = Header(little: bool, word: uint32, srid: Option<uint32>)

  datatype Shape = Point(at: Position) | Run(line: seq<Position>) | Rings(rings: seq<seq<Position>>) | Parts(parts: seq<Geometry>)
  datatype Geometry = Geometry(head: Header, shape: Shape)

  predicate HasFlag(word: uint32, flag: nat)
    requires flag > 0
  {
    word / flag % 2 == 1
  }

  /** The word without its flag bits. */
  function Plain(word: uint32): nat { word % 0x1000_0000 }

  function Kind(word: uint32): nat { Plain(word) % 1000 }

  predicate HasZ(word: uint32) { HasFlag(word, 0x8000_0000) || Plain(word) / 1000 == 1 || Plain(word) / 1000 == 3 }
  predicate HasM(word: uint32) { HasFlag(word, 0x4000_0000) || Plain(word) / 1000 == 2 || Plain(word) / 1000 == 3 }
  predicate HasSrid(word: uint32) { HasFlag(word, 0x2000_0000) }

  function Dims(word: uint32): (n: nat)
    ensures 2 <= n <= 4
  {
    2 + (if HasZ(word) then 1 else 0) + (if HasM(word) then 1 else 0)
  }

  predicate IsKind(k: nat) { 1 <= k <= 7 }

  // ----- the trees well-known binary can say

  predicate ValidHeader(h: Header) { IsKind(Kind(h.word)) && (h.srid.Some? <==> HasSrid(h.word)) }

  predicate ValidPosition(p: Position, dims: nat) { |p| == dims && forall i :: 0 <= i < |p| ==> |p[i]| == 8 }

  predicate ValidPositions(ps: seq<Position>, dims: nat) {
    forall i {:trigger ps[i]} :: 0 <= i < |ps| ==> ValidPosition(ps[i], dims)
  }

  predicate ValidRun(line: seq<Position>, dims: nat) {
    |line| < 0x1_0000_0000 && ValidPositions(line, dims)
  }

  predicate ValidRings(rings: seq<seq<Position>>, dims: nat) {
    forall i {:trigger rings[i]} :: 0 <= i < |rings| ==> ValidRun(rings[i], dims)
  }

  predicate Valid(g: Geometry) {
    var dims := Dims(g.head.word);
    && ValidHeader(g.head)
    && match Kind(g.head.word)
       case 1 => g.shape.Point? && ValidPosition(g.shape.at, dims)
       case 2 => g.shape.Run? && ValidRun(g.shape.line, dims)
       case 3 => g.shape.Rings? && |g.shape.rings| < 0x1_0000_0000 && ValidRings(g.shape.rings, dims)
       case k =>
         && g.shape.Parts? && |g.shape.parts| < 0x1_0000_0000
         && forall p :: p in g.shape.parts ==> Valid(p) && (k != 7 ==> Kind(p.head.word) == k - 3)
  }

  // ----- the bytes that say a tree

  function U32Bytes(v: uint32, little: bool): (b: seq<byte>)
    ensures |b| == 4
  {
    var b: seq<byte> := [v / 0x100_0000, v / 0x1_0000 % 256, v / 256 % 256, v % 256];
    if little then [b[3], b[2], b[1], b[0]] else b
  }

  function Turned(n: Number): (r: Number)
    ensures |r| == |n|
    ensures forall i :: 0 <= i < |n| ==> r[i] == n[|n| - 1 - i]
  {
    seq(|n|, i requires 0 <= i < |n| => n[|n| - 1 - i])
  }

  function NumberBytes(n: Number, little: bool): (b: seq<byte>)
    ensures |b| == |n|
  {
    if little then Turned(n) else n
  }

  function HeaderBytes(h: Header): seq<byte> {
    [if h.little then 1 else 0] + U32Bytes(h.word, h.little)
    + match h.srid case None => [] case Some(s) => U32Bytes(s, h.little)
  }

  function PositionBytes(p: Position, little: bool): seq<byte> {
    if p == [] then [] else NumberBytes(p[0], little) + PositionBytes(p[1..], little)
  }

  function PositionsBytes(ps: seq<Position>, little: bool): seq<byte> {
    if ps == [] then [] else PositionBytes(ps[0], little) + PositionsBytes(ps[1..], little)
  }

  function RunBytes(line: seq<Position>, little: bool): seq<byte>
    requires |line| < 0x1_0000_0000
  {
    U32Bytes(|line|, little) + PositionsBytes(line, little)
  }

  function RingsBytes(rings: seq<seq<Position>>, little: bool): seq<byte>
    requires forall i :: 0 <= i < |rings| ==> |rings[i]| < 0x1_0000_0000
  {
    if rings == [] then [] else RunBytes(rings[0], little) + RingsBytes(rings[1..], little)
  }

  function Bytes(g: Geometry): seq<byte>
    requires Valid(g)
    decreases g, 1
  {
    HeaderBytes(g.head) + ShapeBytes(g)
  }

  function ShapeBytes(g: Geometry): seq<byte>
    requires Valid(g)
    decreases g, 0
  {
    var little := g.head.little;
    match g.shape
    case Point(at) => PositionBytes(at, little)
    case Run(line) => RunBytes(line, little)
    case Rings(rings) => U32Bytes(|rings|, little) + RingsBytes(rings, little)
    case Parts(parts) => U32Bytes(|parts|, little) + PartsBytes(parts)
  }

  function PartsBytes(parts: seq<Geometry>): seq<byte>
    requires forall p :: p in parts ==> Valid(p)
    decreases parts
  {
    if parts == [] then [] else Bytes(parts[0]) + PartsBytes(parts[1..])
  }

  // ----- what bytes say

  function U32At(b: seq<byte>, off: nat, little: bool): (r: Result<uint32>)
    ensures r.Ok? <==> off + 4 <= |b|
  {
    if off + 4 > |b| then Err(Short)
    else
      var b0: int, b1: int, b2: int, b3: int := b[off], b[off + 1], b[off + 2], b[off + 3];
      if little then Ok(b0 + 256 * b1 + 0x1_0000 * b2 + 0x100_0000 * b3)
      else Ok(0x100_0000 * b0 + 0x1_0000 * b1 + 256 * b2 + b3)
  }

  function HeaderAt(b: seq<byte>, off: nat): (r: Result<(Header, nat)>)
    ensures r.Ok? ==> off + 5 <= r.value.1 <= |b| && ValidHeader(r.value.0)
  {
    if off >= |b| then Err(Short)
    else if b[off] > 1 then Err(BadOrder(b[off]))
    else
      var little := b[off] == 1;
      var word := U32At(b, off + 1, little);
      if word.Err? then Err(word.error)
      else
        var srid: Result<Option<uint32>> :=
          if HasSrid(word.value) then
            var s := U32At(b, off + 5, little);
            if s.Ok? then Ok(Some(s.value)) else Err(s.error)
          else Ok(None);
        if srid.Err? then Err(srid.error)
        else if !IsKind(Kind(word.value)) then Err(BadKind(Plain(word.value)))
        else Ok((Header(little, word.value, srid.value), off + 5 + if HasSrid(word.value) then 4 else 0))
  }

  /** A count, believed only if there is room for as many of the least size. */
  function CountAt(b: seq<byte>, off: nat, little: bool, least: nat): (r: Result<uint32>)
    ensures r.Ok? ==> off + 4 <= |b| && r.value * least <= |b| - off - 4
  {
    var n := U32At(b, off, little);
    if n.Err? then n else if n.value * least > |b| - off - 4 then Err(Short) else n
  }

  function NumberAt(b: seq<byte>, off: nat, little: bool): (r: Result<Number>)
    ensures r.Ok? <==> off + 8 <= |b|
    ensures r.Ok? ==> |r.value| == 8
  {
    if off + 8 > |b| then Err(Short) else Ok(NumberBytes(b[off..off + 8], little))
  }

  function PositionAt(b: seq<byte>, off: nat, little: bool, dims: nat): (r: Result<(Position, nat)>)
    requires off <= |b|
    ensures r.Ok? ==> off <= r.value.1 <= |b| && ValidPosition(r.value.0, dims)
    decreases dims
  {
    if dims == 0 then Ok(([], off))
    else
      var n := NumberAt(b, off, little);
      if n.Err? then Err(n.error)
      else
        var rest := PositionAt(b, off + 8, little, dims - 1);
        if rest.Err? then rest else Ok(([n.value] + rest.value.0, rest.value.1))
  }

  function PositionsAt(b: seq<byte>, off: nat, little: bool, dims: nat, n: nat): (r: Result<(seq<Position>, nat)>)
    requires off <= |b|
    ensures r.Ok? ==> off <= r.value.1 <= |b| && |r.value.0| == n && ValidPositions(r.value.0, dims)
    decreases n
  {
    if n == 0 then Ok(([], off))
    else
      var p := PositionAt(b, off, little, dims);
      if p.Err? then Err(p.error)
      else
        var rest := PositionsAt(b, p.value.1, little, dims, n - 1);
        if rest.Err? then rest else Ok(([p.value.0] + rest.value.0, rest.value.1))
  }

  function RunAt(b: seq<byte>, off: nat, little: bool, dims: nat): (r: Result<(seq<Position>, nat)>)
    requires off <= |b|
    ensures r.Ok? ==> off + 4 <= r.value.1 <= |b| && ValidRun(r.value.0, dims)
  {
    var n := CountAt(b, off, little, 8 * dims);
    if n.Err? then Err(n.error) else PositionsAt(b, off + 4, little, dims, n.value)
  }

  function RingsAt(b: seq<byte>, off: nat, little: bool, dims: nat, n: nat): (r: Result<(seq<seq<Position>>, nat)>)
    requires off <= |b|
    ensures r.Ok? ==> off <= r.value.1 <= |b| && |r.value.0| == n && ValidRings(r.value.0, dims)
    decreases n
  {
    if n == 0 then Ok(([], off))
    else
      var x := RunAt(b, off, little, dims);
      if x.Err? then Err(x.error)
      else
        var rest := RingsAt(b, x.value.1, little, dims, n - 1);
        if rest.Err? then rest else Ok(([x.value.0] + rest.value.0, rest.value.1))
  }

  /** One whole geometry. A member of a multi-geometry, of a kind before 7, must
      be of the kind three below; anything else may be of any. */
  function GeometryAt(b: seq<byte>, off: nat, of: nat): (r: Result<(Geometry, nat)>)
    requires off <= |b|
    ensures r.Ok? ==> off + 5 <= r.value.1 <= |b| && Valid(r.value.0) && (of != 7 ==> Kind(r.value.0.head.word) == of - 3)
    decreases |b| - off, 1
  {
    var h := HeaderAt(b, off);
    if h.Err? then Err(h.error)
    else if of != 7 && Kind(h.value.0.word) != of - 3 then Err(WrongMember(of, Kind(h.value.0.word)))
    else
      var s := ShapeAt(b, h.value.1, h.value.0);
      if s.Err? then Err(s.error) else Ok((Geometry(h.value.0, s.value.0), s.value.1))
  }

  function ShapeAt(b: seq<byte>, off: nat, h: Header): (r: Result<(Shape, nat)>)
    requires off <= |b| && ValidHeader(h)
    ensures r.Ok? ==> off <= r.value.1 <= |b| && Valid(Geometry(h, r.value.0))
    decreases |b| - off, 2
  {
    var dims := Dims(h.word);
    match Kind(h.word)
    case 1 =>
      var p := PositionAt(b, off, h.little, dims);
      if p.Err? then Err(p.error) else Ok((Point(p.value.0), p.value.1))
    case 2 =>
      var l := RunAt(b, off, h.little, dims);
      if l.Err? then Err(l.error) else Ok((Run(l.value.0), l.value.1))
    case 3 =>
      var n := CountAt(b, off, h.little, 4);
      if n.Err? then Err(n.error)
      else
        var rings := RingsAt(b, off + 4, h.little, dims, n.value);
        if rings.Err? then Err(rings.error) else Ok((Rings(rings.value.0), rings.value.1))
    case k =>
      var n := CountAt(b, off, h.little, 5);
      if n.Err? then Err(n.error)
      else
        var parts := PartsAt(b, off + 4, n.value, k);
        if parts.Err? then Err(parts.error) else Ok((Parts(parts.value.0), parts.value.1))
  }

  function PartsAt(b: seq<byte>, off: nat, n: nat, of: nat): (r: Result<(seq<Geometry>, nat)>)
    requires off <= |b|
    ensures r.Ok? ==> off <= r.value.1 <= |b| && |r.value.0| == n
    ensures r.Ok? ==> forall p :: p in r.value.0 ==> Valid(p) && (of != 7 ==> Kind(p.head.word) == of - 3)
    decreases |b| - off, 2
  {
    if n == 0 then Ok(([], off))
    else
      var g := GeometryAt(b, off, of);
      if g.Err? then Err(g.error)
      else
        var rest := PartsAt(b, g.value.1, n - 1, of);
        if rest.Err? then rest else Ok(([g.value.0] + rest.value.0, rest.value.1))
  }
}
