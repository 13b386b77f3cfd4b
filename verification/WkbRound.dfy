/** Reading well-known binary is the inverse of writing it: a geometry is read
    at an offset exactly when its own bytes stand there, and reading stops right
    after them. */
module WkbRound {
  import opened Wkb
  import opened Wrappers

  predicate Stands(b: seq<byte>, off: nat, s: seq<byte>) {
    off + |s| <= |b| && b[off..off + |s|] == s
  }

  /** The reading gave `x`. */
  predicate Gave<T(==)>(r: Result<(T, nat)>, x: T) { r.Ok? && r.value.0 == x }

  lemma StandsBoth(b: seq<byte>, off: nat, s: seq<byte>, t: seq<byte>)
    ensures Stands(b, off, s + t) <==> Stands(b, off, s) && Stands(b, off + |s|, t)
  {
    if Stands(b, off, s + t) {
      assert b[off..off + |s|] == b[off..off + |s + t|][..|s|] == s;
      assert b[off + |s|..off + |s| + |t|] == b[off..off + |s + t|][|s|..] == t;
    }
    if Stands(b, off, s) && Stands(b, off + |s|, t) {
      assert b[off..off + |s + t|] == b[off..off + |s|] + b[off + |s|..off + |s| + |t|];
    }
  }

  lemma StandsNothing(b: seq<byte>, off: nat)
    requires off <= |b|
    ensures Stands(b, off, [])
  {
  }

  lemma StandsIn(b: seq<byte>, off: nat, s: seq<byte>)
    ensures Stands(b, off, s) ==> off + |s| <= |b|
  {
  }

  lemma LowDigit(q: nat, r: byte)
    ensures (256 * q + r) / 256 == q && (256 * q + r) % 256 == r
  {
  }

  lemma DigitByDigit(v: nat)
    ensures v / 0x1_0000 == v / 256 / 256
    ensures v / 0x100_0000 == v / 256 / 256 / 256
  {
  }

  lemma Digits(v: uint32, b0: byte, b1: byte, b2: byte, b3: byte)
    ensures 0x100_0000 * b0 as int + 0x1_0000 * b1 as int + 256 * b2 as int + b3 as int == v
      <==> b0 == v / 0x100_0000 && b1 == v / 0x1_0000 % 256 && b2 == v / 256 % 256 && b3 == v % 256
  {
    DigitByDigit(v);
    LowDigit(0x1_0000 * b0 + 256 * b1 + b2, b3);
    LowDigit(256 * b0 + b1, b2);
    LowDigit(b0, b1);
  }

  lemma U32Reads(b: seq<byte>, off: nat, little: bool, v: uint32)
    ensures U32At(b, off, little) == Ok(v) <==> Stands(b, off, U32Bytes(v, little))
  {
    var s := U32Bytes(v, little);
    if off + 4 <= |b| {
      var t := b[off..off + 4];
      assert t[0] == b[off] && t[1] == b[off + 1] && t[2] == b[off + 2] && t[3] == b[off + 3];
      assert t == s <==> t[0] == s[0] && t[1] == s[1] && t[2] == s[2] && t[3] == s[3];
      if little { Digits(v, b[off + 3], b[off + 2], b[off + 1], b[off]); }
      else { Digits(v, b[off], b[off + 1], b[off + 2], b[off + 3]); }
    }
  }

  /** A count before what it counts is read when there is room for as many. */
  lemma CountReads(b: seq<byte>, off: nat, little: bool, least: nat, n: uint32, counted: seq<byte>)
    requires |counted| >= n * least
    ensures Stands(b, off, U32Bytes(n, little) + counted)
      <==> CountAt(b, off, little, least) == Ok(n) && Stands(b, off + 4, counted)
    ensures CountAt(b, off, little, least).Ok? ==> off + 4 <= |b|
  {
    StandsBoth(b, off, U32Bytes(n, little), counted);
    U32Reads(b, off, little, n);
  }

  lemma NumberReads(b: seq<byte>, off: nat, little: bool, n: Number)
    requires |n| == 8
    ensures NumberAt(b, off, little) == Ok(n) <==> Stands(b, off, NumberBytes(n, little))
  {
    if off + 8 <= |b| {
      var s := b[off..off + 8];
      assert Turned(Turned(n)) == n;
      assert Turned(Turned(s)) == s;
    }
  }

  lemma HeaderReads(b: seq<byte>, off: nat, h: Header)
    requires ValidHeader(h)
    ensures Gave(HeaderAt(b, off), h) <==> Stands(b, off, HeaderBytes(h))
    ensures Gave(HeaderAt(b, off), h) ==> HeaderAt(b, off).value.1 == off + |HeaderBytes(h)|
  {
    var order: seq<byte> := [if h.little then 1 else 0];
    var word := U32Bytes(h.word, h.little);
    var srid := match h.srid case None => [] case Some(s) => U32Bytes(s, h.little);
    StandsBoth(b, off, order + word, srid);
    StandsBoth(b, off, order, word);
    assert off < |b| ==> b[off..off + 1] == [b[off]];
    U32Reads(b, off + 1, h.little, h.word);
    if h.srid.Some? { U32Reads(b, off + 5, h.little, h.srid.value); }
  }

  lemma {:induction false} PositionReads(b: seq<byte>, off: nat, little: bool, dims: nat, p: Position)
    requires off <= |b| && ValidPosition(p, dims)
    ensures Gave(PositionAt(b, off, little, dims), p) <==> Stands(b, off, PositionBytes(p, little))
    ensures Gave(PositionAt(b, off, little, dims), p)
      ==> PositionAt(b, off, little, dims).value.1 == off + |PositionBytes(p, little)|
    ensures |PositionBytes(p, little)| == 8 * dims
    decreases dims
  {
    if dims > 0 {
      NumberReads(b, off, little, p[0]);
      StandsBoth(b, off, NumberBytes(p[0], little), PositionBytes(p[1..], little));
      assert p == [p[0]] + p[1..];
      PositionReads(b, if off + 8 <= |b| then off + 8 else off, little, dims - 1, p[1..]);
    }
  }

  lemma {:induction false} PositionsRead(b: seq<byte>, off: nat, little: bool, dims: nat, ps: seq<Position>)
    requires off <= |b| && ValidPositions(ps, dims)
    ensures Gave(PositionsAt(b, off, little, dims, |ps|), ps) <==> Stands(b, off, PositionsBytes(ps, little))
    ensures Gave(PositionsAt(b, off, little, dims, |ps|), ps)
      ==> PositionsAt(b, off, little, dims, |ps|).value.1 == off + |PositionsBytes(ps, little)|
    decreases |ps|
  {
    hide Stands, PositionAt, PositionBytes, ValidPosition;
    if ps == [] {
      StandsNothing(b, off);
    } else {
      var s := PositionBytes(ps[0], little);
      PositionReads(b, off, little, dims, ps[0]);
      StandsBoth(b, off, s, PositionsBytes(ps[1..], little));
      StandsIn(b, off, s);
      assert ps == [ps[0]] + ps[1..];
      PositionsRead(b, if off + |s| <= |b| then off + |s| else off, little, dims, ps[1..]);
    }
  }

  lemma {:induction false} PositionsLong(little: bool, dims: nat, ps: seq<Position>)
    requires ValidPositions(ps, dims)
    ensures |PositionsBytes(ps, little)| == |ps| * (8 * dims)
    decreases |ps|
  {
    hide PositionAt, PositionBytes, ValidPosition;
    if ps != [] {
      PositionReads([], 0, little, dims, ps[0]);
      PositionsLong(little, dims, ps[1..]);
      Times(|ps[1..]|, 8 * dims);
    }
  }

  lemma Times(n: nat, k: nat)
    ensures (n + 1) * k == n * k + k
  {
  }

  lemma RunReads(b: seq<byte>, off: nat, little: bool, dims: nat, line: seq<Position>)
    requires off <= |b| && ValidRun(line, dims)
    ensures Gave(RunAt(b, off, little, dims), line) <==> Stands(b, off, RunBytes(line, little))
    ensures Gave(RunAt(b, off, little, dims), line) ==> RunAt(b, off, little, dims).value.1 == off + |RunBytes(line, little)|
    ensures |RunBytes(line, little)| >= 4
  {
    hide U32At, U32Bytes, PositionsAt, PositionsBytes, ValidPosition;
    U32Reads(b, off, little, |line|);
    StandsBoth(b, off, U32Bytes(|line|, little), PositionsBytes(line, little));
    PositionsRead(b, if off + 4 <= |b| then off + 4 else off, little, dims, line);
    PositionsLong(little, dims, line);
  }

  lemma {:induction false} RingsRead(b: seq<byte>, off: nat, little: bool, dims: nat, rings: seq<seq<Position>>)
    requires off <= |b| && ValidRings(rings, dims)
    ensures Gave(RingsAt(b, off, little, dims, |rings|), rings) <==> Stands(b, off, RingsBytes(rings, little))
    ensures Gave(RingsAt(b, off, little, dims, |rings|), rings)
      ==> RingsAt(b, off, little, dims, |rings|).value.1 == off + |RingsBytes(rings, little)|
    ensures |RingsBytes(rings, little)| >= 4 * |rings|
    decreases |rings|
  {
    hide Stands, RunAt, RunBytes;
    if rings == [] {
      StandsNothing(b, off);
    } else {
      var s := RunBytes(rings[0], little);
      StandsIn(b, off, s);
      RunReads(b, off, little, dims, rings[0]);
      StandsBoth(b, off, s, RingsBytes(rings[1..], little));
      assert rings == [rings[0]] + rings[1..];
      RingsRead(b, if off + |s| <= |b| then off + |s| else off, little, dims, rings[1..]);
    }
  }

  /** A geometry is read where its bytes stand and nowhere else: whatever its
      byte order, dimension marking, nesting and surroundings. */
  lemma {:induction false} GeometryReads(b: seq<byte>, off: nat, g: Geometry, of: nat)
    requires off <= |b| && Valid(g) && (of != 7 ==> Kind(g.head.word) == of - 3)
    ensures Gave(GeometryAt(b, off, of), g) <==> Stands(b, off, Bytes(g))
    ensures Gave(GeometryAt(b, off, of), g) ==> GeometryAt(b, off, of).value.1 == off + |Bytes(g)|
    ensures |Bytes(g)| >= 5
    decreases g, 1
  {
    var s := HeaderBytes(g.head);
    HeaderReads(b, off, g.head);
    StandsBoth(b, off, s, ShapeBytes(g));
    ShapeReads(b, if off + |s| <= |b| then off + |s| else off, g);
  }

  lemma {:induction false} ShapeReads(b: seq<byte>, off: nat, g: Geometry)
    requires off <= |b| && Valid(g)
    ensures Gave(ShapeAt(b, off, g.head), g.shape) <==> Stands(b, off, ShapeBytes(g))
    ensures Gave(ShapeAt(b, off, g.head), g.shape) ==> ShapeAt(b, off, g.head).value.1 == off + |ShapeBytes(g)|
    decreases g, 0
  {
    hide PositionAt, PositionBytes, RunAt, RunBytes, RingsAt, RingsBytes, PartsAt, PartsBytes, CountAt, U32Bytes, Dims, Stands;
    var dims, little := Dims(g.head.word), g.head.little;
    match g.shape
    case Point(at) => PositionReads(b, off, little, dims, at);
    case Run(line) => RunReads(b, off, little, dims, line);
    case Rings(rings) =>
      RingsRead(b, if off + 4 <= |b| then off + 4 else off, little, dims, rings);
      CountReads(b, off, little, 4, |rings|, RingsBytes(rings, little));
    case Parts(parts) =>
      PartsRead(b, if off + 4 <= |b| then off + 4 else off, parts, Kind(g.head.word));
      CountReads(b, off, little, 5, |parts|, PartsBytes(parts));
  }

  lemma {:induction false} PartsRead(b: seq<byte>, off: nat, parts: seq<Geometry>, of: nat)
    requires off <= |b|
    requires forall p :: p in parts ==> Valid(p) && (of != 7 ==> Kind(p.head.word) == of - 3)
    ensures Gave(PartsAt(b, off, |parts|, of), parts) <==> Stands(b, off, PartsBytes(parts))
    ensures Gave(PartsAt(b, off, |parts|, of), parts) ==> PartsAt(b, off, |parts|, of).value.1 == off + |PartsBytes(parts)|
    ensures |PartsBytes(parts)| >= 5 * |parts|
    decreases parts
  {
    hide Stands, GeometryAt, Bytes, Valid, Kind;
    if parts == [] {
      StandsNothing(b, off);
    } else {
      var s := Bytes(parts[0]);
      StandsIn(b, off, s);
      GeometryReads(b, off, parts[0], of);
      StandsBoth(b, off, s, PartsBytes(parts[1..]));
      assert parts == [parts[0]] + parts[1..];
      PartsRead(b, if off + |s| <= |b| then off + |s| else off, parts[1..], of);
    }
  }

  /** Writing a tree and reading it back gives the tree, and exactly its bytes
      are read, whatever stands around them. */
  lemma RoundTrip(before: seq<byte>, g: Geometry, after: seq<byte>)
    requires Valid(g)
    ensures GeometryAt(before + Bytes(g) + after, |before|, 7) == Ok((g, |before| + |Bytes(g)|))
  {
    hide Bytes, GeometryAt, Valid;
    var b := before + Bytes(g) + after;
    assert b[|before|..|before| + |Bytes(g)|] == Bytes(g);
    GeometryReads(b, |before|, g, 7);
  }

  /** Whatever is read is what the bytes read say: they are the bytes of the
      tree, so no two trees share their bytes and no bytes are read past. */
  lemma ReadBack(b: seq<byte>, off: nat)
    requires off <= |b| && GeometryAt(b, off, 7).Ok?
    ensures var (g, end) := GeometryAt(b, off, 7).value; Valid(g) && b[off..end] == Bytes(g)
  {
    GeometryReads(b, off, GeometryAt(b, off, 7).value.0, 7);
  }

  /** No geometry's bytes begin another's. */
  lemma Apart(g: Geometry, h: Geometry, after: seq<byte>)
    requires Valid(g) && Valid(h) && Bytes(g) + after == Bytes(h)
    ensures g == h && after == []
  {
    hide Bytes, GeometryAt, Valid;
    RoundTrip([], g, after);
    RoundTrip([], h, []);
    assert [] + Bytes(g) + after == [] + Bytes(h) + [];
  }
}
