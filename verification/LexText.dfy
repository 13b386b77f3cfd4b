/** What carrying the lexer's state from line to line means (internal/sqllex/lexer.go):
    the lines are coloured as one automaton over the whole text would colour it. */
module SqlText {
  import opened SqlLex

  // ----- one automaton over the whole text

  /** What the text is in the middle of. A comment's depth is a number here, not a byte. */
  datatype Mode = Code | InsideComment(depth: nat) | InsideString(quote: char) | InsideBody(tag: string)

  predicate NotNewline(c: char) { c != '\n' }

  function FirstLine(text: string): (line: string)
    ensures line <= text && '\n' !in line
    ensures |line| < |text| ==> text[|line|] == '\n'
  {
    text[..Span(text, NotNewline)]
  }

  /** A comment of this depth, newlines and all: its length, the depth it
      leaves, and whether it closed. */
  function WholeComment(d: Dialect, text: string, depth: nat): (r: (nat, nat, bool))
    requires depth >= 1
    ensures r.0 <= |text| && r.1 >= 1
    ensures if r.2 then r.0 >= 2 else r.0 == |text|
    ensures text == [] ==> r.1 == depth
  {
    if text == [] then (0, depth, false)
    else if |text| > 1 && text[0] == '*' && text[1] == '/' then
      if depth == 1 then (2, 1, true)
      else
        var r := WholeComment(d, text[2..], depth - 1);
        (2 + r.0, r.1, r.2)
    else if d.nestedComments && |text| > 1 && text[0] == '/' && text[1] == '*' then
      var r := WholeComment(d, text[2..], depth + 1);
      (2 + r.0, r.1, r.2)
    else
      var r := WholeComment(d, text[1..], depth);
      (1 + r.0, r.1, r.2)
  }

  /** The comment never comes back down to a depth a byte would read as zero:
      256, 512 and so on. One that nests no deeper than 256 never does. */
  predicate NoWrap(d: Dialect, text: string, depth: nat)
    requires depth >= 1
  {
    if text == [] then true
    else if |text| > 1 && text[0] == '*' && text[1] == '/' then
      depth == 1 || ((depth - 1) % 256 != 0 && NoWrap(d, text[2..], depth - 1))
    else if d.nestedComments && |text| > 1 && text[0] == '/' && text[1] == '*' then NoWrap(d, text[2..], depth + 1)
    else NoWrap(d, text[1..], depth)
  }

  predicate IsQuote(c: char) { c == '\'' || c == '"' }

  predicate Inside(mode: Mode) {
    match mode
    case Code => false
    case InsideComment(depth) => depth >= 1
    case InsideString(quote) => IsQuote(quote)
    case InsideBody(tag) => '\n' !in tag
  }

  function RegionKind(mode: Mode): TokenKind {
    if mode.InsideComment? then Comment else String
  }

  datatype Reach = Reach(len: nat, left: Mode, closed: bool)

  /** How far the region the text is in reaches into it. */
  function RegionEnd(d: Dialect, text: string, mode: Mode): (r: Reach)
    requires Inside(mode)
    ensures r.len <= |text| && (if r.closed then r.len >= 1 else r.len == |text|)
    ensures Inside(r.left)
    ensures text == [] ==> r.left == mode
    ensures if mode.InsideComment? then r.left.InsideComment? else r.left == mode
  {
    match mode
    case InsideComment(depth) => var r := WholeComment(d, text, depth); Reach(r.0, InsideComment(r.1), r.2)
    case InsideString(quote) => var r := StringEnd(d, text, quote); Reach(r.0, mode, r.1)
    case InsideBody(tag) =>
      var r := IndexOf(text, Closer(tag));
      if r.1 then Reach(r.0 + |Closer(tag)|, mode, true) else Reach(|text|, mode, false)
  }

  /** The region s opens and the length of its opener, or Code when it opens none. */
  function OpeningOf(d: Dialect, s: string): (r: (Mode, nat))
    requires s != []
    ensures r.1 <= |s| && (r.0 != Code ==> r.1 >= 1 && Inside(r.0))
  {
    var c := s[0];
    if Plain(d, s) then
      if d.dollarQuote && c == '$' && DollarOpener(s) > 0 then
        TagHasNoNewline(s);
        (InsideBody(s[1..DollarOpener(s) - 1]), DollarOpener(s))
      else (Code, 0)
    else if IsBlankByte(c) || (c == '-' && |s| > 1 && s[1] == '-') || (d.hashComment && c == '#') then (Code, 0)
    else if d.slashComment && c == '/' && |s| > 1 && s[1] == '/' then (Code, 0)
    else if c == '/' && |s| > 1 && s[1] == '*' then (InsideComment(1), 2)
    else if c == '\'' then (InsideString('\''), 1)
    else if d.doubleQuotedStrings && c == '"' then (InsideString('"'), 1)
    else (Code, 0)
  }

  lemma TagHasNoNewline(s: string)
    requires s != [] && DollarOpener(s) > 0
    ensures '\n' !in s[1..DollarOpener(s) - 1]
  {
    var n := Span(s[1..], IsDollarTagPart);
    var tag := s[1..DollarOpener(s) - 1];
    forall k | 0 <= k < |tag| ensures tag[k] != '\n' {
      assert tag[k] == s[1..][k] && IsDollarTagPart(s[1..][k]);
    }
  }

  function Repeat(k: TokenKind, n: nat): seq<TokenKind> { seq(n, _ => k) }

  /** What each byte of the text is, read in one go. Outside a region lexemes
      stop at the end of their line, as they do in SQL; a region runs until it
      is closed, over as many lines as that takes. */
  function WholeKinds(d: Dialect, text: string, mode: Mode): seq<TokenKind>
    requires mode == Code || Inside(mode)
    decreases |text|, if mode == Code then 0 else 1
  {
    if text == [] then []
    else if mode != Code then
      var r := RegionEnd(d, text, mode);
      Repeat(RegionKind(mode), r.len) + (if r.closed then WholeKinds(d, text[r.len..], Code) else [])
    else if text[0] == '\n' then [Text] + WholeKinds(d, text[1..], Code)
    else
      var s := FirstLine(text);
      var open := OpeningOf(d, s);
      if open.0 == Code then
        var x := Next(d, s);
        Repeat(x.kind, x.len) + WholeKinds(d, text[x.len..], Code)
      else Repeat(RegionKind(open.0), open.1) + WholeKinds(d, text[open.1..], open.0)
  }

  // ----- the lines

  function Join(s: string, rest: seq<string>): string
    decreases |rest|
  {
    if rest == [] then s else s + "\n" + Join(rest[0], rest[1..])
  }

  function KindOf(st: State): TokenKind {
    match st
    case Normal => Text
    case InComment(_) => Comment
    case _ => String
  }

  /** What each byte of what is left of a line, and of the lines after it, is,
      lexed line by line; a newline is of the kind around it. */
  function LineKinds(d: Dialect, s: string, rest: seq<string>, st: State): seq<TokenKind>
    decreases |rest|, |s|
  {
    if s != [] then
      var x := First(d, s, st);
      Repeat(x.kind, x.len) + LineKinds(d, s[x.len..], rest, x.next)
    else if rest == [] then []
    else [KindOf(st)] + LineKinds(d, rest[0], rest[1..], st)
  }

  /** A state of the line lexer that stands for a mode of the whole text. */
  predicate Stands(st: State, mode: Mode) {
    match st
    case Normal => mode == Code
    case InComment(depth) => mode.InsideComment? && mode.depth >= 1 && depth == mode.depth % 256
    case InString(quote) => mode == InsideString(quote) && IsQuote(quote)
    case InDollar(tag) => mode == InsideBody(tag) && '\n' !in tag
  }

  /** No line inside a string begins with the quote that opened it. */
  predicate QuoteFree(s: string, quote: char) {
    forall k :: 0 <= k < |s| - 1 && s[k] == '\n' ==> s[k + 1] != quote
  }

  /** What the line lexer asks of a region: that a comment's depth is not lost in
      a byte, and that no line inside a string begins with its quote. */
  predicate CalmRegion(d: Dialect, text: string, mode: Mode)
    requires Inside(mode)
  {
    match mode
    case InsideComment(depth) => NoWrap(d, text, depth)
    case InsideString(quote) => QuoteFree(text[..RegionEnd(d, text, mode).len], quote)
    case InsideBody(_) => true
  }

  /** A line that does not begin with the quote of the string it is inside. */
  predicate StartsFresh(line: string, mode: Mode) {
    mode.InsideString? && line != [] ==> line[0] != mode.quote
  }

  predicate Calm(d: Dialect, text: string, mode: Mode)
    requires mode == Code || Inside(mode)
    decreases |text|, if mode == Code then 0 else 1
  {
    if text == [] then true
    else if mode != Code then
      var r := RegionEnd(d, text, mode);
      CalmRegion(d, text, mode) && (r.closed ==> Calm(d, text[r.len..], Code))
    else if text[0] == '\n' then Calm(d, text[1..], Code)
    else
      var s := FirstLine(text);
      var open := OpeningOf(d, s);
      if open.0 == Code then Calm(d, text[Next(d, s).len..], Code)
      else Calm(d, text[open.1..], open.0)
  }

  // ----- reading on past the end of a line

  lemma ByteDepth(depth: nat)
    ensures (depth % 256 - 1) % 256 == (depth - 1) % 256 && (depth % 256 + 1) % 256 == (depth + 1) % 256
  {}

  /** A byte's depth and a number's read a comment alike exactly when the number
      never comes back down to a positive multiple of 256. */
  lemma {:induction false} CommentAgrees(d: Dialect, s: string, depth: nat)
    requires depth >= 1
    ensures NoWrap(d, s, depth) <==>
      var w := WholeComment(d, s, depth);
      CommentEnd(d, s, depth % 256) == (w.0, if w.2 then 0 else w.1 % 256, w.2)
  {
    hide WholeComment, CommentEnd;
    if s != [] {
      ByteDepth(depth);
      CommentUnfolds(d, s, depth);
      CommentEndUnfolds(d, s, depth % 256);
      if |s| > 1 && s[0] == '*' && s[1] == '/' {
        if depth > 1 { CommentAgrees(d, s[2..], depth - 1); }
      } else if d.nestedComments && |s| > 1 && s[0] == '/' && s[1] == '*' {
        CommentAgrees(d, s[2..], depth + 1);
      } else {
        CommentAgrees(d, s[1..], depth);
      }
    }
  }

  /** Such a comment: 257 deep, and closed by the first closer. */
  lemma WrappedCommentCloses(d: Dialect)
    ensures !NoWrap(d, "*/", 257)
    ensures CommentEnd(d, "*/", 257 % 256).2 && !WholeComment(d, "*/", 257).2
  {
    assert "*/"[2..] == "";
  }

  /** A line a string goes on into is read as the whole text reads it exactly
      when it does not begin with the string's quote. */
  lemma ResumeAgrees(d: Dialect, s: string, quote: char)
    requires IsQuote(quote)
    ensures StartsFresh(s, InsideString(quote)) <==>
      var r := StringEnd(d, s, quote);
      Resume(d, s, InString(quote)) == Lexeme(String, r.0, if r.1 then Normal else InString(quote))
  {
    assert s[0..] == s;
    if !StartsFresh(s, InsideString(quote)) { OneQuoteLater(d, s, quote); }
  }

  /** Skipping a quote changes where the string ends, however many follow it. */
  lemma {:induction false} OneQuoteLater(d: Dialect, s: string, quote: char)
    requires IsQuote(quote) && s != [] && s[0] == quote
    ensures var r := StringEnd(d, s[1..], quote); StringEnd(d, s, quote) != (1 + r.0, r.1)
  {
    if |s| > 1 && s[1] == quote {
      assert s[1..][1..] == s[2..];
      OneQuoteLater(d, s[1..], quote);
    }
  }

  lemma CommentUnfolds(d: Dialect, s: string, depth: nat)
    requires depth >= 1 && s != []
    ensures
      var r := WholeComment(d, s, depth);
      if |s| > 1 && s[0] == '*' && s[1] == '/' then
        if depth == 1 then r == (2, 1, true)
        else var r' := WholeComment(d, s[2..], depth - 1); r == (2 + r'.0, r'.1, r'.2)
      else if d.nestedComments && |s| > 1 && s[0] == '/' && s[1] == '*' then
        var r' := WholeComment(d, s[2..], depth + 1); r == (2 + r'.0, r'.1, r'.2)
      else var r' := WholeComment(d, s[1..], depth); r == (1 + r'.0, r'.1, r'.2)
  {}

  lemma {:induction false} CommentGoesOn(d: Dialect, s: string, t: string, depth: nat)
    requires depth >= 1 && '\n' !in s
    ensures
      var w, whole := WholeComment(d, s, depth), WholeComment(d, s + "\n" + t, depth);
      if w.2 then whole == w
      else var w' := WholeComment(d, t, w.1); whole == (|s| + 1 + w'.0, w'.1, w'.2)
  {
    hide WholeComment;
    var text := s + "\n" + t;
    CommentUnfolds(d, text, depth);
    if s == [] {
      assert text[1..] == t;
    } else {
      CommentUnfolds(d, s, depth);
      assert text[0] == s[0] && text[1] == if |s| > 1 then s[1] else '\n';
      if |s| > 1 && s[0] == '*' && s[1] == '/' {
        assert text[2..] == s[2..] + "\n" + t;
        if depth > 1 { CommentGoesOn(d, s[2..], t, depth - 1); }
      } else if d.nestedComments && |s| > 1 && s[0] == '/' && s[1] == '*' {
        assert text[2..] == s[2..] + "\n" + t;
        CommentGoesOn(d, s[2..], t, depth + 1);
      } else {
        assert text[1..] == s[1..] + "\n" + t;
        CommentGoesOn(d, s[1..], t, depth);
      }
    }
  }

  lemma {:induction false} NoWrapGoesOn(d: Dialect, s: string, t: string, depth: nat)
    requires depth >= 1 && '\n' !in s && NoWrap(d, s + "\n" + t, depth)
    ensures NoWrap(d, s, depth)
    ensures !WholeComment(d, s, depth).2 ==> NoWrap(d, t, WholeComment(d, s, depth).1)
  {
    var text := s + "\n" + t;
    if s == [] {
      assert text[1..] == t;
    } else {
      assert text[0] == s[0] && text[1] == if |s| > 1 then s[1] else '\n';
      if |s| > 1 && s[0] == '*' && s[1] == '/' {
        assert text[2..] == s[2..] + "\n" + t;
        if depth > 1 { NoWrapGoesOn(d, s[2..], t, depth - 1); }
      } else if d.nestedComments && |s| > 1 && s[0] == '/' && s[1] == '*' {
        assert text[2..] == s[2..] + "\n" + t;
        NoWrapGoesOn(d, s[2..], t, depth + 1);
      } else {
        assert text[1..] == s[1..] + "\n" + t;
        NoWrapGoesOn(d, s[1..], t, depth);
      }
    }
  }

  lemma {:induction false} StringGoesOn(d: Dialect, s: string, t: string, quote: char)
    requires IsQuote(quote) && '\n' !in s
    ensures
      var r, whole := StringEnd(d, s, quote), StringEnd(d, s + "\n" + t, quote);
      if r.1 then whole == r
      else var r' := StringEnd(d, t, quote); whole == (|s| + 1 + r'.0, r'.1)
  {
    hide StringEnd;
    var text := s + "\n" + t;
    StringEndUnfolds(d, text, quote);
    if s == [] {
      assert text[1..] == t;
    } else {
      StringEndUnfolds(d, s, quote);
      assert text[0] == s[0] && text[1] == if |s| > 1 then s[1] else '\n';
      if |s| == 1 {
        assert text[1..] == s[1..] + "\n" + t && text[2..] == t && s[1..] == [];
        if s[0] != quote { StringGoesOn(d, s[1..], t, quote); }
      } else if (Escapes(d) && s[0] == '\\') || (s[0] == quote && s[1] == quote) {
        assert text[2..] == s[2..] + "\n" + t;
        StringGoesOn(d, s[2..], t, quote);
      } else if s[0] != quote {
        assert text[1..] == s[1..] + "\n" + t;
        StringGoesOn(d, s[1..], t, quote);
      }
    }
  }

  lemma {:induction false} IndexGoesOn(s: string, t: string, closer: string)
    requires closer != [] && '\n' !in closer
    ensures
      var r, whole := IndexOf(s, closer), IndexOf(s + "\n" + t, closer);
      if r.1 then whole == r
      else var r' := IndexOf(t, closer); whole == (|s| + 1 + r'.0, r'.1)
  {
    var text := s + "\n" + t;
    assert text[|s|] == '\n' && (|closer| > |s| ==> closer[|s|] != '\n');
    if s == [] {
      assert text[1..] == t;
    } else if !(closer <= s) {
      assert text[1..] == s[1..] + "\n" + t;
      IndexGoesOn(s[1..], t, closer);
    }
  }

  /** A region that its line leaves open is still the region on the line after. */
  lemma RegionGoesOn(d: Dialect, s: string, t: string, mode: Mode)
    requires Inside(mode) && '\n' !in s
    ensures
      var r, whole := RegionEnd(d, s, mode), RegionEnd(d, s + "\n" + t, mode);
      if r.closed then whole.closed && whole.len == r.len
      else var r' := RegionEnd(d, t, r.left); whole == Reach(|s| + 1 + r'.len, r'.left, r'.closed)
  {
    match mode
    case InsideComment(depth) => CommentGoesOn(d, s, t, depth);
    case InsideString(quote) => StringGoesOn(d, s, t, quote);
    case InsideBody(tag) =>
      assert '\n' !in Closer(tag);
      IndexGoesOn(s, t, Closer(tag));
  }

  lemma CalmRegionGoesOn(d: Dialect, s: string, t: string, mode: Mode)
    requires Inside(mode) && '\n' !in s && CalmRegion(d, s + "\n" + t, mode)
    ensures CalmRegion(d, s, mode)
    ensures var r := RegionEnd(d, s, mode);
      !r.closed ==> CalmRegion(d, t, r.left) && StartsFresh(t, mode)
  {
    var text := s + "\n" + t;
    RegionGoesOn(d, s, t, mode);
    var r, whole := RegionEnd(d, s, mode), RegionEnd(d, text, mode);
    if mode.InsideComment? {
      NoWrapGoesOn(d, s, t, mode.depth);
    } else if mode.InsideString? && r.closed {
      assert s[..r.len] == text[..r.len];
    } else if mode.InsideString? {
      QuoteFreeGoesOn(s, t, whole.len, mode.quote);
      assert s[..|s|] == s;
    }
  }

  lemma CalmGoesOn(d: Dialect, s: string, t: string, mode: Mode)
    requires Inside(mode) && '\n' !in s && Calm(d, s + "\n" + t, mode)
    ensures CalmRegion(d, s, mode)
    ensures var r := RegionEnd(d, s, mode);
      if r.closed then Calm(d, s[r.len..] + "\n" + t, Code)
      else Calm(d, t, r.left) && StartsFresh(t, mode)
  {
    hide RegionEnd, CalmRegion;
    var text := s + "\n" + t;
    RegionGoesOn(d, s, t, mode);
    CalmRegionGoesOn(d, s, t, mode);
    var r, whole := RegionEnd(d, s, mode), RegionEnd(d, text, mode);
    if r.closed {
      assert text[r.len..] == s[r.len..] + "\n" + t;
    } else if t != [] {
      assert text[whole.len..] == t[whole.len - |s| - 1..];
    }
  }

  lemma QuoteFreeGoesOn(s: string, t: string, len: nat, quote: char)
    requires |s| + 1 <= len <= |s| + 1 + |t| && QuoteFree((s + "\n" + t)[..len], quote)
    ensures QuoteFree(s, quote) && QuoteFree(t[..len - |s| - 1], quote)
    ensures len > |s| + 1 ==> t[0] != quote
  {
    var text := (s + "\n" + t)[..len];
    assert text[|s|] == '\n';
    forall k | 0 <= k < |s| - 1 && s[k] == '\n' ensures s[k + 1] != quote {
      assert text[k] == s[k] && text[k + 1] == s[k + 1];
    }
    var t' := t[..len - |s| - 1];
    assert len > |s| + 1 ==> text[|s| + 1] == t[0];
    forall k | 0 <= k < |t'| - 1 && t'[k] == '\n' ensures t'[k + 1] != quote {
      assert text[|s| + 1 + k] == t'[k] && text[|s| + 1 + k + 1] == t'[k + 1];
    }
  }

  // ----- a line's own reading of a region

  /** x is what the region reaching r makes of the line: closed, or still open
      in a state that stands for the mode the region is left in. */
  ghost predicate Reads(x: Lexeme, kind: TokenKind, skip: nat, r: Reach) {
    && x.kind == kind && x.len == skip + r.len
    && (if r.closed then x.next.Normal? else Stands(x.next, r.left) && !x.next.Normal?)
  }

  lemma ResumeReads(d: Dialect, s: string, st: State, mode: Mode)
    requires Stands(st, mode) && Inside(mode) && CalmRegion(d, s, mode)
    requires StartsFresh(s, mode)
    ensures Reads(Resume(d, s, st), RegionKind(mode), 0, RegionEnd(d, s, mode))
  {
    assert s[0..] == s;
    if mode.InsideComment? { CommentAgrees(d, s, mode.depth); }
  }

  lemma OpeningReads(d: Dialect, s: string)
    requires s != []
    requires var open := OpeningOf(d, s); open.0 != Code && open.1 < |s| ==> CalmRegion(d, s[open.1..], open.0)
    ensures var open := OpeningOf(d, s);
      if open.0 == Code then Next(d, s).next.Normal?
      else Reads(Next(d, s), RegionKind(open.0), open.1, RegionEnd(d, s[open.1..], open.0))
  {
    hide StringEnd, IndexOf, Span, NextWord, NumberLen;
    var open := OpeningOf(d, s);
    if open.0.InsideComment? { CommentAgrees(d, s[2..], 1); }
  }

  function NextLines(rest: seq<string>): string
    requires rest != []
  {
    Join(rest[0], rest[1..])
  }

  /** A region of the whole text, cut at the end of the line it is in. */
  lemma RegionCut(d: Dialect, s: string, rest: seq<string>, mode: Mode)
    requires Inside(mode) && '\n' !in s && Calm(d, Join(s, rest), mode)
    ensures s != [] ==> CalmRegion(d, s, mode)
    ensures var r := RegionEnd(d, s, mode); var kind := RegionKind(mode);
      if r.closed then
        && Calm(d, Join(s[r.len..], rest), Code)
        && WholeKinds(d, Join(s, rest), mode) == Repeat(kind, r.len) + WholeKinds(d, Join(s[r.len..], rest), Code)
      else if rest == [] then WholeKinds(d, Join(s, rest), mode) == Repeat(kind, r.len)
      else
        && Calm(d, NextLines(rest), r.left) && StartsFresh(NextLines(rest), r.left)
        && WholeKinds(d, Join(s, rest), mode) == Repeat(kind, r.len) + [kind] + WholeKinds(d, NextLines(rest), r.left)
  {
    if rest != [] {
      CalmGoesOn(d, s, NextLines(rest), mode);
      KindsGoOn(d, s, NextLines(rest), mode);
      var r := RegionEnd(d, s, mode);
      assert r.closed ==> s[r.len..] + "\n" + NextLines(rest) == Join(s[r.len..], rest);
    }
  }

  lemma KindsGoOn(d: Dialect, s: string, t: string, mode: Mode)
    requires Inside(mode) && '\n' !in s
    ensures var r := RegionEnd(d, s, mode); var kind := RegionKind(mode);
      if r.closed then
        WholeKinds(d, s + "\n" + t, mode) == Repeat(kind, r.len) + WholeKinds(d, s[r.len..] + "\n" + t, Code)
      else
        WholeKinds(d, s + "\n" + t, mode) == Repeat(kind, r.len) + [kind] + WholeKinds(d, t, r.left)
  {
    hide RegionEnd, OpeningOf, Next;
    var text := s + "\n" + t;
    RegionGoesOn(d, s, t, mode);
    var r, whole, kind := RegionEnd(d, s, mode), RegionEnd(d, text, mode), RegionKind(mode);
    if r.closed {
      assert text[r.len..] == s[r.len..] + "\n" + t;
    } else {
      var r' := RegionEnd(d, t, r.left);
      assert text[whole.len..] == t[r'.len..];
      assert Repeat(kind, whole.len) == Repeat(kind, r.len) + [kind] + Repeat(kind, r'.len);
    }
  }

  // ----- the theorem

  ghost predicate AreLines(lines: seq<string>) {
    forall k :: 0 <= k < |lines| ==> '\n' !in lines[k]
  }

  /** Lexed line by line with the state carried across, every byte is what one
      automaton over the whole text makes it: the same comments, strings and
      quoted bodies, wherever their lines break. */
  lemma {:induction false} SameKinds(d: Dialect, s: string, rest: seq<string>, st: State, mode: Mode)
    requires Stands(st, mode) && (mode == Code || Inside(mode))
    requires '\n' !in s && AreLines(rest) && Calm(d, Join(s, rest), mode)
    requires StartsFresh(s, mode)
    ensures LineKinds(d, s, rest, st) == WholeKinds(d, Join(s, rest), mode)
    decreases |rest|, |s|, 2
  {
    hide RegionEnd, OpeningOf, Next, Resume, CalmRegion;
    if mode != Code {
      SameInside(d, s, rest, st, mode);
    } else if s != [] {
      SameCode(d, s, rest);
    } else if rest != [] {
      SameKinds(d, rest[0], rest[1..], Normal, Code);
      assert Join(s, rest)[1..] == NextLines(rest);
    }
  }

  /** From the end of a line still inside a region. */
  lemma SameNext(d: Dialect, rest: seq<string>, st: State, mode: Mode)
    requires rest != [] && AreLines(rest) && Inside(mode) && Stands(st, mode)
    requires Calm(d, NextLines(rest), mode)
    requires StartsFresh(NextLines(rest), mode)
    ensures LineKinds(d, [], rest, st) == [RegionKind(mode)] + WholeKinds(d, NextLines(rest), mode)
    decreases |rest|, 0, 0
  {
    SameKinds(d, rest[0], rest[1..], st, mode);
  }

  lemma SameInside(d: Dialect, s: string, rest: seq<string>, st: State, mode: Mode)
    requires Stands(st, mode) && Inside(mode)
    requires '\n' !in s && AreLines(rest) && Calm(d, Join(s, rest), mode)
    requires StartsFresh(s, mode)
    ensures LineKinds(d, s, rest, st) == WholeKinds(d, Join(s, rest), mode)
    decreases |rest|, |s|, 1
  {
    hide RegionEnd, OpeningOf, Next, Resume, CalmRegion, Calm, WholeKinds;
    RegionCut(d, s, rest, mode);
    var r := RegionEnd(d, s, mode);
    if s == [] {
      if rest != [] { SameNext(d, rest, st, mode); }
    } else {
      ResumeReads(d, s, st, mode);
      var x := First(d, s, st);
      if r.closed {
        SameKinds(d, s[x.len..], rest, Normal, Code);
      } else if rest != [] {
        SameNext(d, rest, x.next, r.left);
      }
    }
  }

  lemma SameCode(d: Dialect, s: string, rest: seq<string>)
    requires s != [] && '\n' !in s && AreLines(rest) && Calm(d, Join(s, rest), Code)
    ensures LineKinds(d, s, rest, Normal) == WholeKinds(d, Join(s, rest), Code)
    decreases |rest|, |s|, 1
  {
    hide RegionEnd, OpeningOf, Next, Resume, CalmRegion;
    var text, open, x := Join(s, rest), OpeningOf(d, s), Next(d, s);
    FirstLineOf(s, rest);
    assert First(d, s, Normal) == x;
    if open.0 == Code {
      OpeningReads(d, s);
      assert text[x.len..] == Join(s[x.len..], rest);
      SameKinds(d, s[x.len..], rest, Normal, Code);
    } else {
      assert text[open.1..] == Join(s[open.1..], rest);
      assert WholeKinds(d, text, Code)
          == Repeat(RegionKind(open.0), open.1) + WholeKinds(d, Join(s[open.1..], rest), open.0);
      SameOpened(d, s, rest, open.0, open.1);
    }
  }

  /** From a line that opens a region at its start. */
  lemma SameOpened(d: Dialect, s: string, rest: seq<string>, mode: Mode, skip: nat)
    requires s != [] && '\n' !in s && AreLines(rest)
    requires OpeningOf(d, s) == (mode, skip) && mode != Code
    requires Calm(d, Join(s[skip..], rest), mode)
    ensures LineKinds(d, s, rest, Normal)
         == Repeat(RegionKind(mode), skip) + WholeKinds(d, Join(s[skip..], rest), mode)
    decreases |rest|, |s|, 0
  {
    hide RegionEnd, OpeningOf, Next, Resume, CalmRegion, Calm, WholeKinds;
    var u, x := s[skip..], Next(d, s);
    assert First(d, s, Normal) == x;
    RegionCut(d, u, rest, mode);
    OpeningReads(d, s);
    var r := RegionEnd(d, u, mode);
    assert Repeat(x.kind, x.len) == Repeat(x.kind, skip) + Repeat(x.kind, r.len);
    if r.closed {
      assert u[r.len..] == s[x.len..];
      SameKinds(d, s[x.len..], rest, Normal, Code);
    } else if rest != [] {
      SameNext(d, rest, x.next, r.left);
    }
  }

  lemma FirstLineOf(s: string, rest: seq<string>)
    requires '\n' !in s
    ensures FirstLine(Join(s, rest)) == s
  {
    var text := Join(s, rest);
    assert text[..|s|] == s && (|s| < |text| ==> text[|s|] == '\n');
    assert forall k :: 0 <= k < |s| ==> text[k] == s[k];
  }
}
