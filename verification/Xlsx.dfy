/** Text and cell names in a worksheet (internal/export/xlsx.go:216-249, 296-303):
    the escapes of ECMA-376 Part 1 section 22.9.2.19 inside those of XML. Text is
    by code points. */
module Xlsx {
  import opened Numerals

  type Rune = int
  type Text = seq<Rune>

  const UNDERSCORE: Rune := 0x5F
  const LOWER_X: Rune := 0x78

  predicate Hex(r: Rune) { 0x30 <= r <= 0x39 || 0x41 <= r <= 0x46 || 0x61 <= r <= 0x66 }

  function HexValue(r: Rune): int
    requires Hex(r)
  {
    if r <= 0x39 then r - 0x30 else if r <= 0x46 then r - 0x37 else r - 0x57
  }

  function HexDigit(n: int): (r: Rune)
    requires 0 <= n < 16
    ensures Hex(r) && HexValue(r) == n
  {
    if n < 10 then n + 0x30 else n + 0x37
  }

  /** The text begins as an escape does, as far as its last character. */
  predicate Opens(s: Text) {
    |s| >= 7 && s[0] == UNDERSCORE && s[1] == LOWER_X && Hex(s[2]) && Hex(s[3]) && Hex(s[4]) && Hex(s[5])
  }

  /** The text begins with an escape. */
  predicate IsEscape(s: Text) { Opens(s) && s[6] == UNDERSCORE }

  function Coded(s: Text): int
    requires Opens(s)
  {
    0x1000 * HexValue(s[2]) + 0x100 * HexValue(s[3]) + 0x10 * HexValue(s[4]) + HexValue(s[5])
  }

  /** What XML cannot hold, or would read as something else. */
  predicate Control(r: Rune) { (0 <= r < 0x20 && r != 0x09 && r != 0x0A) || r == 0xFFFE || r == 0xFFFF }

  function EscapeOf(r: Rune): (s: Text)
    requires 0 <= r < 0x1_0000
    ensures IsEscape(s) && |s| == 7
  {
    [UNDERSCORE, LOWER_X, HexDigit(r / 0x1000), HexDigit(r / 0x100 % 16), HexDigit(r / 0x10 % 16), HexDigit(r % 16), UNDERSCORE]
  }

  lemma EscapeCodes(r: Rune)
    requires 0 <= r < 0x1_0000
    ensures Coded(EscapeOf(r)) == r
  {
    hide Hex;
    assert r / 0x10 / 0x10 == r / 0x100 && r / 0x100 / 0x10 == r / 0x1000;
  }

  /** What the first character is written as. */
  function Piece(s: Text): (p: Text)
    requires s != []
    ensures p != []
  {
    if IsEscape(s) then EscapeOf(UNDERSCORE) else if Control(s[0]) then EscapeOf(s[0]) else [s[0]]
  }

  function Escaped(s: Text): Text {
    if s == [] then [] else Piece(s) + Escaped(s[1..])
  }

  /** What a spreadsheet reads. */
  function Unescaped(t: Text): Text {
    if t == [] then [] else if IsEscape(t) then [Coded(t)] + Unescaped(t[7..]) else [t[0]] + Unescaped(t[1..])
  }

  // ----- XML's own escapes

  const AMP: Text := [0x26, 0x61, 0x6D, 0x70, 0x3B]
  const LT: Text := [0x26, 0x6C, 0x74, 0x3B]
  const GT: Text := [0x26, 0x67, 0x74, 0x3B]

  function Entity(r: Rune): Text { if r == 0x26 then AMP else if r == 0x3C then LT else if r == 0x3E then GT else [r] }

  function Entities(t: Text): Text { if t == [] then [] else Entity(t[0]) + Entities(t[1..]) }

  /** What an XML reader makes of it. */
  function Parsed(x: Text): Text {
    if x == [] then []
    else if AMP <= x then [0x26] + Parsed(x[5..])
    else if LT <= x then [0x3C] + Parsed(x[4..])
    else if GT <= x then [0x3E] + Parsed(x[4..])
    else [x[0]] + Parsed(x[1..])
  }

  lemma {:induction false} EntitiesParse(t: Text)
    ensures Parsed(Entities(t)) == t
  {
    if t != [] {
      var rest := Entities(t[1..]);
      EntitiesParse(t[1..]);
      EntityParses(t[0], rest);
      assert t == [t[0]] + t[1..];
    }
  }

  lemma EntityParses(r: Rune, rest: Text)
    ensures Parsed(Entity(r) + rest) == [r] + Parsed(rest)
  {
    var x := Entity(r) + rest;
    assert x[|Entity(r)|..] == rest;
    assert x[0] == Entity(r)[0];
    if r == 0x26 { assert x[..5] == AMP; }
    else if r == 0x3C { assert x[..4] == LT; assert x[1] == LT[1]; }
    else if r == 0x3E { assert x[..4] == GT; assert x[1] == GT[1]; }
  }

  lemma {:induction false} EntitiesJoin(a: Text, b: Text)
    ensures Entities(a + b) == Entities(a) + Entities(b)
  {
    if a == [] {
      assert a + b == b;
    } else {
      assert (a + b)[1..] == a[1..] + b;
      EntitiesJoin(a[1..], b);
    }
  }

  lemma {:induction false} NoEntities(t: Text)
    requires forall i :: 0 <= i < |t| ==> t[i] != 0x26 && t[i] != 0x3C && t[i] != 0x3E
    ensures Entities(t) == t
  {
    if t != [] {
      NoEntities(t[1..]);
      assert t == [t[0]] + t[1..];
    }
  }

  lemma EscapedJoins(s: Text)
    requires s != []
    ensures Entities(Escaped(s)) == Entities(Piece(s)) + Entities(Escaped(s[1..]))
    ensures Entities(Piece(s)) == if |Piece(s)| == 1 then Entity(s[0]) else Piece(s)
  {
    EntitiesJoin(Piece(s), Escaped(s[1..]));
    hide Entities, EscapeOf, IsEscape, Control;
    if IsEscape(s) { PlainEscape(UNDERSCORE); }
    else if Control(s[0]) { ControlsAreSmall(s[0]); PlainEscape(s[0]); }
    else { OneEntity(s[0]); }
  }

  lemma ControlsAreSmall(r: Rune)
    requires Control(r)
    ensures 0 <= r < 0x1_0000
  {
  }

  lemma OneEntity(r: Rune)
    ensures Entities([r]) == Entity(r)
  {
    assert [r][1..] == [];
  }

  lemma PlainEscape(r: Rune)
    requires 0 <= r < 0x1_0000
    ensures Entities(EscapeOf(r)) == EscapeOf(r)
  {
    NoEntities(EscapeOf(r));
  }

  /** Adds a cell's text, escaped. */
  method AppendXString(b: Text, s: Text) returns (out: Text)
    ensures out == b + Entities(Escaped(s))
  {
    hide Entities, Escaped, Piece, IsEscape, Control;
    out := b;
    Whole(s);
    for i := 0 to |s|
      invariant out + Entities(Escaped(s[i..])) == b + Entities(Escaped(s))
    {
      var r := s[i];
      EscapedJoins(s[i..]);
      PieceIs(s[i..]);
      assert s[i..][1..] == s[i + 1..] && s[i..][0] == r;
      ghost var was := out;
      if r == 0x26 { out := out + AMP; }
      else if r == 0x3C { out := out + LT; }
      else if r == 0x3E { out := out + GT; }
      else if r == UNDERSCORE && IsEscape(s[i..]) { out := out + EscapeOf(UNDERSCORE); }
      else if Control(r) { out := out + EscapeOf(r); }
      else { out := out + [r]; }
      Glue(was, Entities(Piece(s[i..])), Entities(Escaped(s[i + 1..])));
    }
    Nothing(s[|s|..]);
    assert out + [] == out;
  }

  lemma Glue(a: Text, b: Text, c: Text)
    ensures a + (b + c) == a + b + c
  {
  }

  lemma Whole(s: Text)
    ensures s[0..] == s
  {
  }

  lemma Nothing(s: Text)
    requires s == []
    ensures Entities(Escaped(s)) == []
  {
  }

  lemma PieceIs(s: Text)
    requires s != []
    ensures IsEscape(s) ==> s[0] == UNDERSCORE && Piece(s) == EscapeOf(UNDERSCORE)
    ensures !IsEscape(s) && Control(s[0]) ==> Piece(s) == EscapeOf(s[0]) && s[0] !in [0x26, 0x3C, 0x3E, UNDERSCORE]
    ensures !IsEscape(s) && !Control(s[0]) ==> Piece(s) == [s[0]]
    ensures Control(s[0]) ==> 0 <= s[0] < 0x1_0000
  {
  }

  // ----- what reads back

  /** An underscore, x and four hexadecimal digits, not an escape as they stand,
      directly before a character that is written as one: its first underscore
      makes them one. */
  predicate Breaks(s: Text) { Opens(s) && Control(s[6]) }

  predicate Broken(s: Text) { s != [] && (Breaks(s) || Broken(s[1..])) }

  /** What is written begins with what the text begins with, or with an underscore. */
  lemma FirstWritten(s: Text)
    requires s != []
    ensures Escaped(s) != []
    ensures Escaped(s)[0] == if IsEscape(s) || Control(s[0]) then UNDERSCORE else s[0]
    ensures !IsEscape(s) && !Control(s[0]) ==> Escaped(s)[1..] == Escaped(s[1..])
  {
    if !IsEscape(s) && !Control(s[0]) { assert ([s[0]] + Escaped(s[1..]))[1..] == Escaped(s[1..]); }
  }

  lemma NothingWritten(s: Text)
    ensures Escaped(s) == [] <==> s == []
  {
  }

  /** A written character that is no underscore is the text's own. */
  lemma OwnFirst(s: Text)
    requires Escaped(s) != [] && Escaped(s)[0] != UNDERSCORE
    ensures s != [] && s[0] == Escaped(s)[0] && Escaped(s)[1..] == Escaped(s[1..])
  {
    NothingWritten(s);
    FirstWritten(s);
  }

  lemma OwnFive(s: Text) returns (t: Text)
    requires |Escaped(s)| >= 6 && forall i :: 0 <= i < 5 ==> Escaped(s)[i] != UNDERSCORE
    ensures |s| >= 6 && (forall i :: 0 <= i < 5 ==> s[i] == Escaped(s)[i]) && t == s[5..] && t != [] && Escaped(t)[0] == Escaped(s)[5]
  {
    hide Escaped;
    var e := Escaped(s);
    OwnFirst(s);
    assert e[1..][0] == e[1];
    OwnFirst(s[1..]);
    assert e[1..][1..] == e[2..] && s[1..][1..] == s[2..] && e[2..][0] == e[2];
    OwnFirst(s[2..]);
    assert e[2..][1..] == e[3..] && s[2..][1..] == s[3..] && e[3..][0] == e[3];
    OwnFirst(s[3..]);
    assert e[3..][1..] == e[4..] && s[3..][1..] == s[4..] && e[4..][0] == e[4];
    OwnFirst(s[4..]);
    assert e[4..][1..] == e[5..] && s[4..][1..] == s[5..] && e[5..][0] == e[5];
    t := s[5..];
    NothingWritten(t);
  }

  /** An underscore left as it is reads as an escape exactly when it breaks. */
  lemma LeftUnderscore(s: Text)
    requires s != [] && s[0] == UNDERSCORE && !IsEscape(s)
    ensures IsEscape([UNDERSCORE] + Escaped(s[1..])) <==> Breaks(s)
  {
    var w := [UNDERSCORE] + Escaped(s[1..]);
    if IsEscape(w) {
      assert forall i :: 0 <= i < 6 ==> w[i + 1] == Escaped(s[1..])[i];
      var t := OwnFive(s[1..]);
      assert forall i :: 0 <= i < 5 ==> s[1..][i] == s[i + 1];
      FirstWritten(t);
      assert t[0] == s[6];
    }
    if Breaks(s) { BreaksEscape(s); }
  }

  lemma PlainFirst(s: Text)
    requires s != [] && s[0] != UNDERSCORE && !Control(s[0])
    ensures Escaped(s) == [s[0]] + Escaped(s[1..])
  {
  }

  lemma HexPlain(r: Rune)
    requires Hex(r) || r == LOWER_X
    ensures r != UNDERSCORE && !Control(r)
  {
  }

  /** What a break is written as. */
  lemma BreaksEscape(s: Text)
    requires Breaks(s)
    ensures Escaped(s[1..]) == s[1..6] + EscapeOf(s[6]) + Escaped(s[7..])
    ensures IsEscape([UNDERSCORE] + Escaped(s[1..])) && Coded([UNDERSCORE] + Escaped(s[1..])) == Coded(s)
  {
    hide Escaped, EscapeOf;
    HexPlain(s[1]); HexPlain(s[2]); HexPlain(s[3]); HexPlain(s[4]); HexPlain(s[5]);
    PlainFirst(s[1..]);
    assert s[1..][1..] == s[2..];
    PlainFirst(s[2..]);
    assert s[2..][1..] == s[3..];
    PlainFirst(s[3..]);
    assert s[3..][1..] == s[4..];
    PlainFirst(s[4..]);
    assert s[4..][1..] == s[5..];
    PlainFirst(s[5..]);
    assert s[5..][1..] == s[6..];
    ControlFirst(s[6..]);
    assert s[6..][1..] == s[7..];
    var e := EscapeOf(s[6]) + Escaped(s[7..]);
    assert Escaped(s[1..]) == [s[1]] + ([s[2]] + ([s[3]] + ([s[4]] + ([s[5]] + e))));
    assert s[1..6] == [s[1], s[2], s[3], s[4], s[5]];
    assert Escaped(s[1..]) == s[1..6] + e;
    assert EscapeOf(s[6])[0] == UNDERSCORE;
  }

  lemma ControlFirst(s: Text)
    requires s != [] && Control(s[0])
    ensures Escaped(s) == EscapeOf(s[0]) + Escaped(s[1..])
  {
  }

  lemma UnescapedFirst(t: Text, rest: Text)
    requires |t| == 7 && IsEscape(t)
    ensures Unescaped(t + rest) == [Coded(t)] + Unescaped(rest)
  {
    assert (t + rest)[7..] == rest;
    assert forall i :: 0 <= i < 7 ==> (t + rest)[i] == t[i];
  }

  /** One character in, one character back, where it does not break. */
  lemma PieceReads(s: Text)
    requires s != [] && !Breaks(s)
    ensures Unescaped(Escaped(s)) == [s[0]] + Unescaped(Escaped(s[1..]))
  {
    var rest := Escaped(s[1..]);
    if IsEscape(s) { EscapeCodes(UNDERSCORE); UnescapedFirst(EscapeOf(UNDERSCORE), rest); }
    else if Control(s[0]) { EscapeCodes(s[0]); UnescapedFirst(EscapeOf(s[0]), rest); }
    else {
      assert Escaped(s) == [s[0]] + rest;
      assert ([s[0]] + rest)[1..] == rest;
      if s[0] == UNDERSCORE { LeftUnderscore(s); }
    }
  }

  lemma {:induction false} CleanReads(s: Text)
    requires !Broken(s)
    ensures Unescaped(Escaped(s)) == s
  {
    if s != [] {
      CleanReads(s[1..]);
      PieceReads(s);
      assert s == [s[0]] + s[1..];
    }
  }

  lemma BreakWritten(s: Text) returns (after: Text)
    requires Breaks(s)
    ensures after == EscapeOf(s[6])[1..] + Escaped(s[7..])
    ensures Unescaped(Escaped(s)) == [Coded(s)] + Unescaped(after)
  {
    var c, rest := EscapeOf(s[6]), Escaped(s[7..]);
    BreaksEscape(s);
    LeftAlone(s);
    hide Escaped, EscapeOf, Unescaped;
    after := c[1..] + rest;
    var w := [UNDERSCORE] + s[1..6] + [c[0]];
    Regrouped(UNDERSCORE, s[1..6], c, rest);
    SameEscape(w, Escaped(s));
    hide IsEscape, Coded, Breaks, Control, Opens;
    UnescapedFirst(w, after);
  }

  lemma Regrouped(u: Rune, m: Text, c: Text, rest: Text)
    requires c != []
    ensures [u] + (m + c + rest) == ([u] + m + [c[0]]) + (c[1..] + rest)
  {
    assert c == [c[0]] + c[1..];
  }

  lemma SameEscape(w: Text, t: Text)
    requires |w| == 7 && w <= t && IsEscape(t)
    ensures IsEscape(w) && Coded(w) == Coded(t)
  {
    assert forall i :: 0 <= i < 7 ==> w[i] == t[i];
  }

  lemma LeftAlone(s: Text)
    requires Breaks(s)
    ensures Escaped(s) == [UNDERSCORE] + Escaped(s[1..])
  {
    assert !IsEscape(s) && !Control(s[0]);
  }

  /** An escape's third digit is 5 only for a character that is not escaped. */
  lemma ThirdDigit(r: Rune)
    requires Control(r)
    ensures EscapeOf(r)[4] != HexDigit(5)
  {
  }

  lemma CodedUnderscore(s: Text)
    requires Opens(s) && Coded(s) == UNDERSCORE
    ensures s[4] == HexDigit(5)
  {
    var a, b, c, d := HexValue(s[2]), HexValue(s[3]), HexValue(s[4]), HexValue(s[5]);
    assert 0 <= a < 16 && 0 <= b < 16 && 0 <= c < 16 && 0 <= d < 16;
    assert c == 5;
  }

  /** The digits of a character that is escaped never spell an underscore's. */
  lemma BreakReads(s: Text)
    requires Breaks(s)
    ensures Unescaped(Escaped(s)) != s
  {
    var after := BreakWritten(s);
    DigitsRead4(EscapeOf(s[6]), Escaped(s[7..]));
    ThirdDigit(s[6]);
    hide Escaped, Unescaped, EscapeOf;
    if Coded(s) == UNDERSCORE {
      CodedUnderscore(s);
      assert ([Coded(s)] + Unescaped(after))[4] == EscapeOf(s[6])[4];
    } else {
      assert ([Coded(s)] + Unescaped(after))[0] == Coded(s);
    }
  }

  /** Past its first underscore an escape is read as it stands, as far as its third digit. */
  lemma DigitsRead4(c: Text, rest: Text)
    requires |c| == 7 && IsEscape(c)
    ensures |Unescaped(c[1..] + rest)| >= 4 && Unescaped(c[1..] + rest)[3] == c[4]
  {
    HexPlain(c[1]); HexPlain(c[2]); HexPlain(c[3]); HexPlain(c[4]);
    var t := c[1..] + rest;
    AsItStands(t);
    assert t[1..][0] == c[2] && t[2..][0] == c[3] && t[3..][0] == c[4];
    AsItStands(t[1..]);
    assert t[1..][1..] == t[2..];
    AsItStands(t[2..]);
    assert t[2..][1..] == t[3..];
    AsItStands(t[3..]);
  }

  lemma AsItStands(t: Text)
    requires t != [] && t[0] != UNDERSCORE
    ensures Unescaped(t) == [t[0]] + Unescaped(t[1..])
  {
  }

  lemma {:induction false} BrokenReads(s: Text)
    requires Broken(s)
    ensures Unescaped(Escaped(s)) != s
  {
    if Breaks(s) {
      BreakReads(s);
    } else {
      BrokenReads(s[1..]);
      PieceReads(s);
      assert s == [s[0]] + s[1..];
      assert ([s[0]] + Unescaped(Escaped(s[1..])))[1..] == Unescaped(Escaped(s[1..]));
    }
  }

  /** A cell's text reads back, XML's escapes undone and then the spreadsheet's,
      exactly when nothing in it breaks. */
  lemma TextReads(s: Text)
    ensures Unescaped(Parsed(Entities(Escaped(s)))) == s <==> !Broken(s)
  {
    EntitiesParse(Escaped(s));
    if Broken(s) { BrokenReads(s); } else { CleanReads(s); }
  }

  // ----- what is written

  /** A character there is: no surrogate, and none past the last plane. */
  predicate IsRune(r: Rune) { 0 <= r < 0xD800 || 0xE000 <= r <= 0x10FFFF }

  /** A character XML 1.0 holds (section 2.2) and keeps, a carriage return being
      read as a line feed (section 2.11). */
  predicate XmlKeeps(r: Rune) {
    r == 0x09 || r == 0x0A || 0x20 <= r <= 0xD7FF || 0xE000 <= r <= 0xFFFD || 0x10000 <= r <= 0x10FFFF
  }

  function Runes(s: string): Text { seq(|s|, i requires 0 <= i < |s| => s[i] as int) }

  /** Whatever the text, XML keeps what is written of it, and nothing in that opens a tag. */
  lemma {:induction false} XmlHolds(s: Text)
    requires forall r :: r in s ==> IsRune(r)
    ensures forall c :: c in Entities(Escaped(s)) ==> XmlKeeps(c) && c != 0x3C
  {
    if s != [] {
      XmlHolds(s[1..]);
      EscapedJoins(s);
      PieceHolds(s);
      assert s[0] in s;
    }
  }

  lemma PieceHolds(s: Text)
    requires s != [] && IsRune(s[0])
    ensures forall c :: c in Entities(Piece(s)) ==> XmlKeeps(c) && c != 0x3C
  {
    EscapedJoins(s);
    hide Entities, IsEscape, Opens;
  }

  /** What a text of one character is written as. */
  lemma OneWritten(r: Rune)
    ensures Entities(Escaped([r])) == if |Piece([r])| == 1 then Entity(r) else Piece([r])
    ensures r == '&' as int ==> Entities(Escaped([r])) == Runes("&amp;")
    ensures r == '<' as int ==> Entities(Escaped([r])) == Runes("&lt;")
    ensures r == '>' as int ==> Entities(Escaped([r])) == Runes("&gt;")
    ensures r == 0x01 ==> Entities(Escaped([r])) == Runes("_x0001_")
    ensures r == 0x0D ==> Entities(Escaped([r])) == Runes("_x000D_")
    ensures r == 0xFFFE ==> Entities(Escaped([r])) == Runes("_xFFFE_")
    ensures XmlKeeps(r) && r !in Runes("&<>") ==> Entities(Escaped([r])) == [r]
  {
    EscapedJoins([r]);
    assert [r][1..] == [] && Entities(Escaped([])) == [];
    var p := Piece([r]);
    assert Entities(p) + [] == Entities(p);
    SpecialRunes();
    hide Entities, Escaped;
  }

  lemma SpecialRunes()
    ensures Runes("&<>") == [0x26, 0x3C, 0x3E]
    ensures Runes("&amp;") == AMP && Runes("&lt;") == LT && Runes("&gt;") == GT
    ensures Runes("_x0001_") == EscapeOf(0x01) && Runes("_x000D_") == EscapeOf(0x0D) && Runes("_xFFFE_") == EscapeOf(0xFFFE)
    ensures Runes("_x005F_") == EscapeOf(UNDERSCORE)
  {
  }

  /** Where no character is XML's or a control and no escape begins, the text is
      written as it is. */
  lemma {:induction false} PlainStays(s: Text)
    requires forall i :: 0 <= i < |s| ==> XmlKeeps(s[i]) && s[i] !in [0x26, 0x3C, 0x3E] && !IsEscape(s[i..])
    ensures Entities(Escaped(s)) == s
  {
    if s != [] {
      assert s[0..] == s;
      forall i | 0 <= i < |s[1..]| ensures XmlKeeps(s[1..][i]) && s[1..][i] !in [0x26, 0x3C, 0x3E] && !IsEscape(s[1..][i..]) {
        assert s[1..][i] == s[i + 1] && s[1..][i..] == s[i + 1..];
      }
      PlainStays(s[1..]);
      EscapedJoins(s);
      hide Entities, Escaped;
      assert s == [s[0]] + s[1..];
    }
  }

  /** Past its first underscore an escape is written as it stands. */
  lemma RestStays(rest: Text)
    requires |rest| == 6 && rest[0] == LOWER_X && Hex(rest[1]) && Hex(rest[2]) && Hex(rest[3]) && Hex(rest[4]) && rest[5] == UNDERSCORE
    ensures Entities(Escaped(rest)) == rest
  {
    hide Control, Entities, Escaped;
    forall i | 0 <= i < |rest| ensures XmlKeeps(rest[i]) && rest[i] !in [0x26, 0x3C, 0x3E] && !IsEscape(rest[i..]) { }
    PlainStays(rest);
  }

  /** What would read as an escape has its underscore escaped, and is not then
      looked at again. */
  lemma EscapeWritten(a: Rune, b: Rune, c: Rune, d: Rune)
    requires Hex(a) && Hex(b) && Hex(c) && Hex(d)
    ensures Entities(Escaped(Runes("_x") + [a, b, c, d, UNDERSCORE])) == Runes("_x005F_x") + [a, b, c, d, UNDERSCORE]
  {
    hide Control;
    var s := Runes("_x") + [a, b, c, d, UNDERSCORE];
    var rest := [LOWER_X, a, b, c, d, UNDERSCORE];
    assert s == [UNDERSCORE] + rest && s[1..] == rest;
    assert IsEscape(s);
    hide Hex, Entities, Escaped;
    RestStays(rest);
    EscapedJoins(s);
    hide Entities, Escaped, Piece, IsEscape;
    SpecialRunes();
    PieceIs(s);
    assert Runes("_x005F_") + rest == Runes("_x005F_x") + [a, b, c, d, UNDERSCORE];
  }

  /** Too few digits, no underscore after them, or no digits: left alone. */
  lemma NoEscapes()
    ensures Entities(Escaped(Runes("_x12_f"))) == Runes("_x12_f")
    ensures Entities(Escaped(Runes("_x0041xg"))) == Runes("_x0041xg")
    ensures Entities(Escaped(Runes("_xZZZZ_"))) == Runes("_xZZZZ_")
  {
    hide Entities, Escaped, Control;
    PlainStays(Runes("_x12_f"));
    PlainStays(Runes("_x0041xg"));
    PlainStays(Runes("_xZZZZ_"));
  }

  // ----- cell names

  function Letter(n: nat): (c: char)
    requires n < 26
    ensures 'A' <= c <= 'Z' && c as int - 'A' as int == n
  {
    n as char + 'A'
  }

  function Letters(i: nat): string {
    if i == 0 then "" else Letters((i - 1) / 26) + [Letter((i - 1) % 26)]
  }

  /** Letters read as a number in base 26 that has no zero. */
  function LettersValue(s: string): int {
    if s == "" then 0 else 26 * LettersValue(s[..|s| - 1]) + (s[|s| - 1] as int - 'A' as int + 1)
  }

  lemma {:induction false} LettersRead(i: nat)
    ensures LettersValue(Letters(i)) == i
    ensures forall c :: c in Letters(i) ==> 'A' <= c <= 'Z'
  {
    if i > 0 {
      LettersRead((i - 1) / 26);
      assert Letters(i)[..|Letters(i)| - 1] == Letters((i - 1) / 26);
    }
  }

  lemma NextLetter(v: nat, d: nat)
    requires d < 26
    ensures Letters(26 * v + d + 1) == Letters(v) + [Letter(d)]
  {
    assert (26 * v + d) / 26 == v && (26 * v + d) % 26 == d;
  }

  lemma LettersLast(s: string)
    requires s != "" && 'A' <= s[|s| - 1] <= 'Z'
    ensures LettersValue(s) == 26 * LettersValue(s[..|s| - 1]) + (s[|s| - 1] as int - 'A' as int) + 1
    ensures Letter(s[|s| - 1] as int - 'A' as int) == s[|s| - 1]
  {
  }

  lemma {:induction false} LettersOf(s: string)
    requires forall c :: c in s ==> 'A' <= c <= 'Z'
    ensures LettersValue(s) >= 0 && Letters(LettersValue(s)) == s
  {
    if s != "" {
      hide LettersValue, Letters, Letter;
      var init, last := s[..|s| - 1], s[|s| - 1];
      assert last in s;
      assert forall c :: c in init ==> c in s;
      LettersOf(init);
      LettersLast(s);
      NextLetter(LettersValue(init), last as int - 'A' as int);
      assert s == init + [last];
    }
  }

  /** The name of the i-th column, the first being the 0th. */
  method ColumnName(i: nat) returns (b: string)
    ensures b == Letters(i + 1)
  {
    b := "";
    var n: nat := i + 1;
    assert Letters(n) + b == Letters(n);
    while n > 0
      invariant Letters(i + 1) == Letters(n) + b
    {
      assert Letters(n) + b == Letters((n - 1) / 26) + ([Letter((n - 1) % 26)] + b);
      b := [Letter((n - 1) % 26)] + b;
      n := (n - 1) / 26;
    }
  }

  function CellName(column: nat, row: nat): string { Letters(column + 1) + Digits(row) }

  /** No two cells have one name. */
  lemma CellsApart(c1: nat, r1: nat, c2: nat, r2: nat)
    requires CellName(c1, r1) == CellName(c2, r2)
    ensures c1 == c2 && r1 == r2
  {
    hide Letters, Digits;
    LettersRead(c1 + 1);
    LettersRead(c2 + 1);
    AreDigits(r1);
    AreDigits(r2);
    SplitAlike(Letters(c1 + 1), Digits(r1), Letters(c2 + 1), Digits(r2));
    DigitsApart(r1, r2);
  }

  lemma SplitAlike(a: string, x: string, b: string, y: string)
    requires (forall c :: c in a ==> c >= 'A') && (forall c :: c in b ==> c >= 'A')
    requires x != "" && x[0] < 'A' && y != "" && y[0] < 'A' && a + x == b + y
    ensures a == b && x == y
  {
    var s := a + x;
    assert forall i :: 0 <= i < |a| ==> s[i] == a[i] && a[i] in a;
    assert forall i :: 0 <= i < |b| ==> s[i] == b[i] && b[i] in b;
    assert s[|a|] == x[0] && s[|b|] == y[0];
    assert s[..|a|] == a && s[..|b|] == b && s[|a|..] == x && s[|b|..] == y;
  }

  lemma {:induction false} AreDigits(n: nat)
    ensures forall c :: c in Digits(n) ==> '0' <= c <= '9'
    ensures '0' <= Digits(n)[0] <= '9'
  {
    if n >= 10 { AreDigits(n / 10); }
    assert Digits(n)[0] in Digits(n);
  }

  lemma SomeColumns()
    ensures Letters(1) == "A" && Letters(26) == "Z" && Letters(27) == "AA" && Letters(52) == "AZ" && Letters(702) == "ZZ"
    ensures Letters(703) == "AAA" && Letters(16384) == "XFD"
    ensures CellName(0, 1) == "A1" && CellName(27, 10) == "AB10"
  {
    assert Letters(24) == "X" && Letters(630) == "XF" && Letters(2) == "B" && Letters(28) == "AB";
    assert Digits(1) == "1";
  }
}
