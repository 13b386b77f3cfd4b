/** Reading a piece of a text on its own (internal/sqlfmt/format.go hands some
    statements back as they were written): the tokens are those the piece had
    where it stood. */
module SqlCut {
  import opened SqlLex
  import opened SqlText
  import opened SqlTokens

  // ----- a lexeme does not look past where it is cut

  lemma {:induction false} SpanCut(s: string, p: char -> bool, e: nat)
    requires Span(s, p) <= e <= |s|
    ensures Span(s[..e], p) == Span(s, p)
  {
    if e > 0 && p(s[0]) {
      assert s[..e][1..] == s[1..][..e - 1];
      SpanCut(s[1..], p, e - 1);
    }
  }

  lemma {:induction false} SpanShort(s: string, p: char -> bool, e: nat)
    requires e <= Span(s, p)
    ensures Span(s[..e], p) == e
  {
    if e > 0 {
      assert s[..e][1..] == s[1..][..e - 1];
      SpanShort(s[1..], p, e - 1);
    }
  }

  lemma {:induction false} CommentCut(d: Dialect, s: string, depth: uint8, e: nat)
    requires CommentEnd(d, s, depth).2 && CommentEnd(d, s, depth).0 <= e <= |s|
    ensures CommentEnd(d, s[..e], depth) == CommentEnd(d, s, depth)
  {
    hide CommentEnd;
    CommentEndUnfolds(d, s, depth);
    CommentEndUnfolds(d, s[..e], depth);
    assert s[..e][1..] == s[1..][..e - 1] && s[..e][2..] == s[2..][..e - 2];
    if s[0] == '*' && s[1] == '/' {
      if (depth - 1) % 256 != 0 { CommentCut(d, s[2..], (depth - 1) % 256, e - 2); }
    } else if d.nestedComments && s[0] == '/' && s[1] == '*' {
      CommentCut(d, s[2..], (depth + 1) % 256, e - 2);
    } else {
      CommentCut(d, s[1..], depth, e - 1);
    }
  }

  lemma {:induction false} StringCut(d: Dialect, s: string, quote: char, e: nat)
    requires StringEnd(d, s, quote).1 && StringEnd(d, s, quote).0 <= e <= |s|
    ensures StringEnd(d, s[..e], quote) == StringEnd(d, s, quote)
  {
    hide StringEnd;
    StringEndUnfolds(d, s, quote);
    StringEndUnfolds(d, s[..e], quote);
    assert s[..e][1..] == s[1..][..e - 1];
    if |s| > 1 && ((Escapes(d) && s[0] == '\\') || (s[0] == quote && s[1] == quote)) {
      assert s[..e][2..] == s[2..][..e - 2];
      StringCut(d, s[2..], quote, e - 2);
    } else if s[0] != quote {
      StringCut(d, s[1..], quote, e - 1);
    }
  }

  lemma {:induction false} IndexCut(s: string, closer: string, e: nat)
    requires IndexOf(s, closer).1 && IndexOf(s, closer).0 + |closer| <= e <= |s|
    ensures IndexOf(s[..e], closer) == IndexOf(s, closer)
  {
    if closer <= s {
      assert closer <= s[..e];
    } else {
      assert !(closer <= s[..e]);
      assert s[..e][1..] == s[1..][..e - 1];
      IndexCut(s[1..], closer, e - 1);
    }
  }

  lemma {:induction false} QuotedIdentCut(s: string, quote: char, e: nat)
    requires QuotedIdentEnd(s, quote) <= e <= |s|
    ensures QuotedIdentEnd(s[..e], quote) == QuotedIdentEnd(s, quote)
  {
    if s != [] && e > 0 {
      assert s[..e][1..] == s[1..][..e - 1];
      if s[0] == quote && |s| > 1 && s[1] == quote {
        assert s[..e][2..] == s[2..][..e - 2];
        QuotedIdentCut(s[2..], quote, e - 2);
      } else if s[0] != quote {
        QuotedIdentCut(s[1..], quote, e - 1);
      }
    }
  }

  lemma SliceCut(s: string, j: nat, e: nat)
    requires j <= e <= |s|
    ensures s[..e][j..] == s[j..][..e - j] == s[j..e]
  {}

  lemma NumberCut(s: string, e: nat)
    requires NumberLen(s) <= e <= |s|
    ensures NumberLen(s[..e]) == NumberLen(s)
  {
    hide Span;
    var i := Span(s, IsNumberPart);
    SpanCut(s, IsNumberPart, e);
    if i < |s| && (s[i] == 'e' || s[i] == 'E') {
      var j := if i + 1 < |s| && (s[i + 1] == '+' || s[i + 1] == '-') then i + 2 else i + 1;
      if j < |s| && IsDigit(s[j]) {
        SliceCut(s, j, e);
        SpanCut(s[j..], IsDigit, e - j);
      }
    }
  }

  /** Where a line can be cut without a word before the cut being read differently:
      nothing after it is a bracket, or a semicolon stands right before it. */
  predicate CutOk(s: string, e: nat)
    requires e <= |s|
  {
    '(' !in s[e..] || (e > 0 && s[e - 1] == ';')
  }

  lemma CalledCut(s: string, n: nat, e: nat)
    requires n <= e <= |s| && CutOk(s, e) && (n == e ==> '(' !in s[e..])
    ensures IsCalled(s[n..e]) == IsCalled(s[n..])
  {
    hide Span;
    var rest, rest' := s[n..], s[n..e];
    var j := Span(rest, IsSpaceOrTab);
    assert rest[..e - n] == rest';
    assert forall k :: e - n <= k < |rest| ==> rest[k] == s[e..][k - (e - n)];
    assert forall k :: 0 <= k < |rest'| ==> rest'[k] == rest[k] == s[n + k];
    if j <= e - n {
      SpanCut(rest, IsSpaceOrTab, e - n);
    } else if n < e {
      assert rest[e - n - 1] == s[e - 1] && IsSpaceOrTab(rest[e - n - 1]);
    }
  }

  lemma OpenerCut(s: string, e: nat)
    requires s != [] && 1 <= e <= |s| && DollarOpener(s) <= e
    ensures DollarOpener(s[..e]) == DollarOpener(s)
  {
    hide Span;
    assert s[..e][1..] == s[1..][..e - 1];
    var n := Span(s[1..], IsDollarTagPart);
    if n <= e - 1 {
      SpanCut(s[1..], IsDollarTagPart, e - 1);
    } else {
      SpanShort(s[1..], IsDollarTagPart, e - 1);
    }
  }

  lemma WordCut(d: Dialect, s: string, e: nat)
    requires s != [] && NextWord(d, s).len <= e < |s| && CutOk(s, e)
    requires NextWord(d, s).len == e ==> NextWord(d, s).kind == Punctuation || '(' !in s[e..]
    ensures NextWord(d, s[..e]) == NextWord(d, s)
  {
    hide Span, NumberLen, IsCalled, CutOk;
    var c := s[0];
    if IsDigit(c) || (c == '.' && |s| > 1 && IsDigit(s[1])) {
      NumberCut(s, e);
      if c == '.' { DotNumber(s); }
    } else if IsIdentStart(c) {
      var n := Span(s, IsIdentPart);
      SpanCut(s, IsIdentPart, e);
      assert s[..e][..n] == s[..n] && s[..e][n..] == s[n..e];
      NotPunctuation(d, s[..n], s[n..]);
      CalledCut(s, n, e);
    } else if IsOperator(c) {
      SpanCut(s, IsOperator, e);
    }
  }

  lemma NotPunctuation(d: Dialect, word: string, rest: string)
    ensures WordKind(d, word, rest) != Punctuation
  {}

  lemma DotNumber(s: string)
    requires |s| > 1 && s[0] == '.' && IsDigit(s[1])
    ensures NumberLen(s) >= 2
  {
    FirstOfSpan(s[1..], IsNumberPart);
  }

  lemma PlainCut(d: Dialect, s: string, e: nat)
    requires s != [] && Plain(d, s) && NextPlain(d, s).len <= e < |s| && CutOk(s, e)
    requires NextPlain(d, s).len == e ==> NextPlain(d, s).kind == Punctuation || '(' !in s[e..]
    ensures Plain(d, s[..e]) && NextPlain(d, s[..e]) == NextPlain(d, s)
  {
    hide NextPlain, CutOk;
    assert s[..e][0] == s[0] && (e > 1 ==> s[..e][1] == s[1]);
    if s[0] == '$' { DollarPlainCut(d, s, e); } else { OtherPlainCut(d, s, e); }
  }

  lemma DollarPlainCut(d: Dialect, s: string, e: nat)
    requires s != [] && s[0] == '$' && Plain(d, s) && NextPlain(d, s).len <= e < |s| && CutOk(s, e)
    requires Plain(d, s[..e])
    requires NextPlain(d, s).len == e ==> NextPlain(d, s).kind == Punctuation || '(' !in s[e..]
    ensures NextPlain(d, s[..e]) == NextPlain(d, s)
  {
    hide Span, Plain, NextWord, DollarLexeme, CutOk, DollarOpener;
    assert s[..e][0] == '$' && (e > 1 ==> s[..e][1] == s[1]);
    assert s[..e][1..] == s[1..][..e - 1];
    if d.dollarQuote && DollarOpener(s) > 0 {
      DollarCut(s, DollarOpener(s), s[1..DollarOpener(s) - 1], e);
      OpenerCut(s, e);
      assert s[..e][1..DollarOpener(s) - 1] == s[1..DollarOpener(s) - 1];
    } else {
      if d.dollarQuote { OpenerCut(s, e); }
      if |s| > 1 && IsDigit(s[1]) {
        FirstOfSpan(s[1..], IsDigit);
        SpanCut(s[1..], IsDigit, e - 1);
      } else {
        WordCut(d, s, e);
      }
    }
  }

  lemma OtherPlainCut(d: Dialect, s: string, e: nat)
    requires s != [] && s[0] != '$' && Plain(d, s) && NextPlain(d, s).len <= e < |s| && CutOk(s, e)
    requires Plain(d, s[..e])
    requires NextPlain(d, s).len == e ==> NextPlain(d, s).kind == Punctuation || '(' !in s[e..]
    ensures NextPlain(d, s[..e]) == NextPlain(d, s)
  {
    hide Span, Plain, NextWord, DollarLexeme, CutOk, DollarOpener;
    assert s[..e][0] == s[0] && (e > 1 ==> s[..e][1] == s[1]);
    assert s[..e][1..] == s[1..][..e - 1];
    if s[0] == ':' && |s| > 1 && IsIdentStart(s[1]) {
      FirstOfSpan(s[1..], IsIdentPart);
      SpanCut(s[1..], IsIdentPart, e - 1);
    } else if s[0] != '?' {
      WordCut(d, s, e);
    }
  }

  lemma FirstOfSpan(s: string, p: char -> bool)
    requires s != [] && p(s[0])
    ensures Span(s, p) >= 1
  {}

  lemma DollarCut(s: string, skip: nat, tag: string, e: nat)
    requires skip <= |s| && DollarLexeme(s, skip, tag).len <= e < |s|
    ensures skip <= e && DollarLexeme(s[..e], skip, tag) == DollarLexeme(s, skip, tag)
  {
    assert s[..e][skip..] == s[skip..][..e - skip];
    IndexCut(s[skip..], Closer(tag), e - skip);
  }

  lemma StringLexemeCut(d: Dialect, s: string, quote: char, e: nat)
    requires s != [] && 1 <= e < |s| && StringLexeme(d, s, quote).len <= e
    ensures StringLexeme(d, s[..e], quote) == StringLexeme(d, s, quote)
  {
    var skip := if s[0] == quote then 1 else 0;
    assert s[..e][skip..] == s[skip..][..e - skip];
    StringCut(d, s[skip..], quote, e - skip);
  }

  lemma CommentLexemeCut(d: Dialect, s: string, skip: nat, depth: uint8, e: nat)
    requires skip <= |s| && CommentLexeme(d, s, skip, depth).len <= e < |s|
    ensures skip <= e && CommentLexeme(d, s[..e], skip, depth) == CommentLexeme(d, s, skip, depth)
  {
    assert s[..e][skip..] == s[skip..][..e - skip];
    CommentCut(d, s[skip..], depth, e - skip);
  }

  lemma QuotedCut(d: Dialect, s: string, e: nat)
    requires s != [] && !Plain(d, s) && NextQuoted(d, s).len <= e < |s|
    ensures !Plain(d, s[..e]) && NextQuoted(d, s[..e]) == NextQuoted(d, s)
  {
    hide Span, QuotedIdentEnd, StringLexeme, CommentLexeme;
    var c := s[0];
    assert s[..e][0] == c && (e > 1 ==> s[..e][1] == s[1]);
    assert s[..e][1..] == s[1..][..e - 1];
    if IsBlankByte(c) {
      SpanCut(s, IsBlankByte, e);
    } else if c == '/' && |s| > 1 && s[1] == '*' {
      CommentLexemeCut(d, s, 2, 1, e);
    } else if c == '\'' {
      StringLexemeCut(d, s, '\'', e);
    } else if d.doubleQuotedStrings && c == '"' {
      StringLexemeCut(d, s, '"', e);
    } else if c == d.quoteIdent {
      QuotedIdentCut(s[1..], d.quoteIdent, e - 1);
    } else if d.altQuoteIdent != NUL && c == d.altQuoteIdent {
      QuotedIdentCut(s[1..], d.altQuoteIdent, e - 1);
    } else {
      SpanCut(s[1..], IsNotBracket, e - 1);
    }
  }

  /** A line cut after its first lexeme still begins with it. */
  lemma FirstCut(d: Dialect, s: string, st: State, e: nat)
    requires s != [] && First(d, s, st).len <= e < |s| && CutOk(s, e)
    requires First(d, s, st).len == e ==> First(d, s, st).kind == Punctuation || '(' !in s[e..]
    ensures First(d, s[..e], st) == First(d, s, st)
  {
    hide CutOk, Plain, NextPlain, NextQuoted, StringLexeme, CommentLexeme, DollarLexeme;
    match st
    case Normal => if Plain(d, s) { PlainCut(d, s, e); } else { QuotedCut(d, s, e); }
    case InComment(depth) => CommentLexemeCut(d, s, 0, depth, e);
    case InString(quote) => StringLexemeCut(d, s, quote, e);
    case InDollar(tag) => DollarCut(s, 0, tag, e);
  }

  // ----- a text, one lexeme at a time

  /** What is trimmed off a text: ASCII's white space, and nothing else that is ASCII. */
  predicate IsSpaceLike(c: char) {
    c == ' ' || ('\t' <= c <= '\r') || c >= '\U{80}'
  }

  /** All that is asked of trimming: what it leaves nothing of is white space. */
  ghost predicate KnowsBlank(u: Unicode) {
    forall s: string :: u.blank(s) ==> forall k :: 0 <= k < |s| ==> IsSpaceLike(s[k])
  }

  lemma FirstLineIs(text: string, line: string)
    requires line <= text && '\n' !in line && (|line| < |text| ==> text[|line|] == '\n')
    ensures FirstLine(text) == line
  {
    var first := FirstLine(text);
    assert |first| < |text| ==> text[|first|] == '\n';
    assert first == text[..|first|] && line == text[..|line|];
  }

  function KeptAt(u: Unicode, kind: TokenKind, text: string, base: nat): seq<Tok> {
    if u.blank(text) then [] else [Tok(kind, text, false, base, base + |text|)]
  }

  lemma PeelNewline(u: Unicode, d: Dialect, text: string, st: State, base: nat)
    requires text != [] && text[0] == '\n'
    ensures TextToks(u, d, text, st, base) == TextToks(u, d, text[1..], st, base + 1)
    ensures TextEnd(d, text, st) == TextEnd(d, text[1..], st)
  {
    hide FirstLine, TextToks, TextEnd;
    FirstLineIs(text, "");
    TextUnfolds(u, d, text, st, base);
  }

  lemma Peel(u: Unicode, d: Dialect, text: string, st: State, base: nat)
    requires text != [] && text[0] != '\n'
    ensures FirstLine(text) != []
    ensures var x := First(d, FirstLine(text), st);
      && TextToks(u, d, text, st, base)
         == KeptAt(u, x.kind, text[..x.len], base) + TextToks(u, d, text[x.len..], x.next, base + x.len)
      && TextEnd(d, text, st) == TextEnd(d, text[x.len..], x.next)
  {
    hide First, FirstLine, TextToks, TextEnd, LineToks, EndState;
    var s := FirstLine(text);
    var x := First(d, s, st);
    var rest := text[x.len..];
    assert text[..x.len] == s[..x.len];
    assert s[x.len..] <= rest;
    FirstLineIs(rest, s[x.len..]);
    TextUnfolds(u, d, text, st, base);
    TextUnfolds(u, d, rest, x.next, base + x.len);
    LineUnfolds(u, d, s, st, base);
    EndUnfolds(d, s, st);
    if |s| < |text| {
      assert rest[|s| - x.len + 1..] == text[|s| + 1..];
      Assoc(KeptAt(u, x.kind, text[..x.len], base), LineToks(u, d, s[x.len..], x.next, base + x.len),
        TextToks(u, d, text[|s| + 1..], EndState(d, s, st), base + |s| + 1));
    }
  }

  lemma EndUnfolds(d: Dialect, s: string, st: State)
    requires s != []
    ensures var x := First(d, s, st); EndState(d, s, st) == EndState(d, s[x.len..], x.next)
  {
    hide First;
  }

  lemma TextUnfolds(u: Unicode, d: Dialect, text: string, st: State, base: nat)
    ensures var line := FirstLine(text); var next := EndState(d, line, st);
      if |line| == |text| then
        TextToks(u, d, text, st, base) == LineToks(u, d, line, st, base) && TextEnd(d, text, st) == next
      else
        && TextToks(u, d, text, st, base)
           == LineToks(u, d, line, st, base) + TextToks(u, d, text[|line| + 1..], next, base + |line| + 1)
        && TextEnd(d, text, st) == TextEnd(d, text[|line| + 1..], next)
  {
    hide First, FirstLine;
  }

  // ----- where tokens are

  /** A token is where it says it is, and the tokens after it are after it. */
  ghost predicate InPlace(toks: seq<Tok>, text: string, base: nat) {
    && (forall k :: 0 <= k < |toks| ==>
          base <= toks[k].from < toks[k].to <= base + |text|
          && text[toks[k].from - base..toks[k].to - base] == toks[k].text)
    && (forall k, l :: 0 <= k < l < |toks| ==> toks[k].to <= toks[l].from)
  }

  lemma {:induction false} ToksInPlace(u: Unicode, d: Dialect, text: string, st: State, base: nat)
    ensures InPlace(TextToks(u, d, text, st, base), text, base)
    decreases |text|
  {
    hide First, FirstLine, TextToks, InPlace;
    if text == [] {
      Nothing(u, d, st, base);
    } else if text[0] == '\n' {
      PeelNewline(u, d, text, st, base);
      ToksInPlace(u, d, text[1..], st, base + 1);
      ShiftPlace(TextToks(u, d, text[1..], st, base + 1), text, 1, base);
    } else {
      Peel(u, d, text, st, base);
      var x := First(d, FirstLine(text), st);
      ToksInPlace(u, d, text[x.len..], x.next, base + x.len);
      ShiftPlace(TextToks(u, d, text[x.len..], x.next, base + x.len), text, x.len, base);
      PlaceFirst(KeptAt(u, x.kind, text[..x.len], base), TextToks(u, d, text[x.len..], x.next, base + x.len), text, x.len, base);
    }
  }

  lemma Nothing(u: Unicode, d: Dialect, st: State, base: nat)
    ensures TextToks(u, d, "", st, base) == [] && TextEnd(d, "", st) == st
    ensures InPlace([], "", base)
  {
    FirstLineIs("", "");
  }

  lemma ShiftPlace(toks: seq<Tok>, text: string, n: nat, base: nat)
    requires n <= |text| && InPlace(toks, text[n..], base + n)
    ensures InPlace(toks, text, base) && forall k :: 0 <= k < |toks| ==> base + n <= toks[k].from
  {
    forall k | 0 <= k < |toks| ensures text[toks[k].from - base..toks[k].to - base] == toks[k].text {
      assert text[n..][toks[k].from - base - n..toks[k].to - base - n] == toks[k].text;
    }
  }

  lemma PlaceFirst(one: seq<Tok>, rest: seq<Tok>, text: string, n: nat, base: nat)
    requires 0 < n <= |text| && InPlace(rest, text, base) && forall k :: 0 <= k < |rest| ==> base + n <= rest[k].from
    requires one == [] || (|one| == 1 && one[0].from == base && one[0].to == base + n && one[0].text == text[..n])
    ensures InPlace(one + rest, text, base)
  {
    var toks := one + rest;
    forall k, l | 0 <= k < l < |toks| ensures toks[k].to <= toks[l].from {
      if |one| == 1 && k >= 1 { assert toks[k] == rest[k - 1]; }
    }
  }

  // ----- the state past a token

  lemma PunctuationNormal(d: Dialect, s: string, st: State)
    requires s != [] && First(d, s, st).kind == Punctuation
    ensures st.Normal? && First(d, s, st).next.Normal?
  {
    hide Span, StringEnd, CommentEnd, QuotedIdentEnd, NumberLen;
    if st.Normal? && Plain(d, s) && NextPlain(d, s) == NextWord(d, s) {
      NotPunctuation(d, s[..Span(s, IsIdentPart)], s[Span(s, IsIdentPart)..]);
    }
  }

  /** White space opens nothing. */
  lemma BlankNormal(u: Unicode, d: Dialect, s: string)
    requires KnowsBlank(u) && s != [] && u.blank(s[..First(d, s, Normal).len])
    ensures First(d, s, Normal).next.Normal?
  {
    hide Span, StringEnd, CommentEnd, QuotedIdentEnd, NumberLen, IndexOf, NextWord;
    var x := First(d, s, Normal);
    assert s[..x.len][0] == s[0] && IsSpaceLike(s[0]);
  }

  /** A text that ends in punctuation, or says nothing at all, ends outside any region. */
  lemma {:induction false} EndsNormal(u: Unicode, d: Dialect, text: string, st: State, base: nat)
    requires KnowsBlank(u)
    requires var toks := TextToks(u, d, text, st, base);
      if toks == [] then st.Normal? else toks[|toks| - 1].kind == Punctuation
    ensures TextEnd(d, text, st).Normal?
    decreases |text|
  {
    hide First, FirstLine, TextToks, TextEnd, KnowsBlank;
    if text == [] {
      Nothing(u, d, st, base);
    } else if text[0] == '\n' {
      PeelNewline(u, d, text, st, base);
      EndsNormal(u, d, text[1..], st, base + 1);
    } else {
      Peel(u, d, text, st, base);
      var s := FirstLine(text);
      var x := First(d, s, st);
      assert text[..x.len] == s[..x.len];
      if x.kind == Punctuation { PunctuationNormal(d, s, st); }
      if st.Normal? && u.blank(text[..x.len]) { BlankNormal(u, d, s); }
      EndsNormal(u, d, text[x.len..], x.next, base + x.len);
    }
  }

  // ----- from a token on, and up to one

  /** Read from a token that comes first or after punctuation, the text goes on
      as it did. */
  lemma {:induction false} ReadFrom(u: Unicode, d: Dialect, text: string, st: State, base: nat, j: nat)
    requires KnowsBlank(u)
    requires var toks := TextToks(u, d, text, st, base);
      j < |toks| && if j == 0 then st.Normal? else toks[j - 1].kind == Punctuation
    ensures var toks := TextToks(u, d, text, st, base);
      && base <= toks[j].from <= base + |text|
      && TextToks(u, d, text[toks[j].from - base..], Normal, toks[j].from) == toks[j..]
    decreases |text|
  {
    hide First, FirstLine, TextToks, KnowsBlank, KeptAt;
    if text == [] {
      Nothing(u, d, st, base);
      assert false;
    } else if text[0] == '\n' {
      PeelNewline(u, d, text, st, base);
      ReadFrom(u, d, text[1..], st, base + 1, j);
      var from := TextToks(u, d, text, st, base)[j].from;
      assert text[1..][from - base - 1..] == text[from - base..];
    } else {
      var x, one, rest := Head(u, d, text, st, base);
      var toks := TextToks(u, d, text, st, base);
      HeadNormal(u, d, text, st, base, x, one);
      if j < |one| {
        assert text[0..] == text;
      } else {
        DropHead(one, rest, j);
        ReadFrom(u, d, text[x.len..], x.next, base + x.len, j - |one|);
        DropDrop(text, x.len, toks[j].from - base);
      }
    }
  }

  lemma DropHead(one: seq<Tok>, rest: seq<Tok>, j: nat)
    requires |one| <= j < |one + rest|
    ensures (one + rest)[j] == rest[j - |one|] && (one + rest)[j..] == rest[j - |one|..]
    ensures j > |one| ==> (one + rest)[j - 1] == rest[j - |one| - 1]
  {}

  lemma DropDrop(text: string, n: nat, m: nat)
    requires n <= m <= |text|
    ensures text[n..][m - n..] == text[m..]
  {}

  /** Peel, with names for what it peels. */
  lemma Head(u: Unicode, d: Dialect, text: string, st: State, base: nat) returns (x: Lexeme, one: seq<Tok>, rest: seq<Tok>)
    requires text != [] && text[0] != '\n'
    ensures FirstLine(text) != [] && x == First(d, FirstLine(text), st) && 1 <= x.len <= |text|
    ensures one == KeptAt(u, x.kind, text[..x.len], base) && rest == TextToks(u, d, text[x.len..], x.next, base + x.len)
    ensures TextToks(u, d, text, st, base) == one + rest
  {
    hide First;
    Peel(u, d, text, st, base);
    x := First(d, FirstLine(text), st);
    one, rest := KeptAt(u, x.kind, text[..x.len], base), TextToks(u, d, text[x.len..], x.next, base + x.len);
  }

  /** A lexeme that is white space or punctuation, met outside any region,
      leaves the text outside any. */
  lemma HeadNormal(u: Unicode, d: Dialect, text: string, st: State, base: nat, x: Lexeme, one: seq<Tok>)
    requires KnowsBlank(u) && text != [] && FirstLine(text) != []
    requires x == First(d, FirstLine(text), st) && one == KeptAt(u, x.kind, text[..x.len], base)
    ensures one == [] && st.Normal? ==> x.next.Normal?
    ensures one != [] ==> |one| == 1 && one[0] == Tok(x.kind, text[..x.len], false, base, base + x.len)
    ensures one != [] && one[0].kind == Punctuation ==> x.next.Normal?
  {
    hide First, KnowsBlank;
    var s := FirstLine(text);
    assert text[..x.len] == s[..x.len];
    if x.kind == Punctuation { PunctuationNormal(d, s, st); }
    if st.Normal? && u.blank(s[..x.len]) { BlankNormal(u, d, s); }
  }

  /** Past the last token there is white space only, so no bracket. */
  lemma {:induction false} NothingAfter(u: Unicode, d: Dialect, text: string, st: State, base: nat)
    requires KnowsBlank(u)
    ensures var toks := TextToks(u, d, text, st, base);
      if toks == [] then '(' !in text
      else base <= toks[|toks| - 1].to <= base + |text| && '(' !in text[toks[|toks| - 1].to - base..]
    decreases |text|
  {
    hide First, FirstLine, TextToks, KnowsBlank;
    if text == [] {
      Nothing(u, d, st, base);
    } else if text[0] == '\n' {
      PeelNewline(u, d, text, st, base);
      NothingAfter(u, d, text[1..], st, base + 1);
      var toks := TextToks(u, d, text, st, base);
      if toks != [] { DropDrop(text, 1, toks[|toks| - 1].to - base); }
    } else {
      var x, one, rest := Head(u, d, text, st, base);
      NothingAfter(u, d, text[x.len..], x.next, base + x.len);
      if rest != [] {
        assert (one + rest)[|one + rest| - 1] == rest[|rest| - 1];
        DropDrop(text, x.len, rest[|rest| - 1].to - base);
      } else if one == [] {
        NoBracket(u, text, x.len);
      }
    }
  }

  lemma NoBracket(u: Unicode, text: string, n: nat)
    requires KnowsBlank(u) && n <= |text| && u.blank(text[..n]) && '(' !in text[n..]
    ensures '(' !in text
  {
    assert text == text[..n] + text[n..];
    assert forall k :: 0 <= k < n ==> IsSpaceLike(text[..n][k]);
  }

  /** A token the text can be cut after: a semicolon that is one, or the last. */
  predicate CutAt(toks: seq<Tok>, j: nat)
    requires j < |toks|
  {
    (toks[j].text == ";" && toks[j].kind == Punctuation) || j == |toks| - 1
  }

  /** The first lexeme of a text cut at e is what it was. */
  lemma HeadCut(d: Dialect, text: string, st: State, e: nat)
    requires 0 < e <= |text| && text[0] != '\n'
    requires FirstLine(text) != []
    requires var x := First(d, FirstLine(text), st);
      x.len <= e && (text[e - 1] == ';' || '(' !in text[e..])
      && (x.len == e ==> x.kind == Punctuation || '(' !in text[e..])
    ensures FirstLine(text[..e]) != [] && First(d, FirstLine(text[..e]), st) == First(d, FirstLine(text), st)
  {
    hide First;
    var s := FirstLine(text);
    if e >= |s| {
      FirstLineIs(text[..e], s);
    } else {
      FirstLineIs(text[..e], s[..e]);
      assert forall k :: 0 <= k < |s| - e ==> s[e..][k] == text[e..][k];
      FirstCut(d, s, st, e);
    }
  }

  /** Cut after such a token, the text reads the same up to it. */
  lemma {:induction false} ReadUpTo(u: Unicode, d: Dialect, text: string, st: State, base: nat, j: nat)
    requires KnowsBlank(u)
    requires var toks := TextToks(u, d, text, st, base); j < |toks| && CutAt(toks, j)
    ensures var toks := TextToks(u, d, text, st, base);
      && base < toks[j].to <= base + |text|
      && TextToks(u, d, text[..toks[j].to - base], st, base) == toks[..j + 1]
    decreases |text|
  {
    hide First, FirstLine, TextToks, KnowsBlank, InPlace;
    var toks := TextToks(u, d, text, st, base);
    CutPlace(u, d, text, st, base, j);
    var e := toks[j].to - base;
    var cut := text[..e];
    if text[0] == '\n' {
      PeelNewline(u, d, text, st, base);
      ReadUpTo(u, d, text[1..], st, base + 1, j);
      PeelNewline(u, d, cut, st, base);
      assert cut[1..] == text[1..][..e - 1];
    } else {
      var x, one, rest := ReadUpToHead(u, d, text, st, base, j);
      if j >= |one| {
        ReadUpTo(u, d, text[x.len..], x.next, base + x.len, j - |one|);
        assert toks[..j + 1] == one + rest[..j - |one| + 1];
      }
    }
  }

  /** The first lexeme of the text, and of the text cut. */
  lemma ReadUpToHead(u: Unicode, d: Dialect, text: string, st: State, base: nat, j: nat)
      returns (x: Lexeme, one: seq<Tok>, rest: seq<Tok>)
    requires KnowsBlank(u) && text != [] && text[0] != '\n'
    requires j < |TextToks(u, d, text, st, base)| && CutAt(TextToks(u, d, text, st, base), j)
    ensures TextToks(u, d, text, st, base) == one + rest && |one| <= 1
    ensures var e := (one + rest)[j].to - base;
      && 1 <= x.len <= e <= |text|
      && rest == TextToks(u, d, text[x.len..], x.next, base + x.len)
      && (j >= |one| ==> CutAt(rest, j - |one|))
      && TextToks(u, d, text[..e], st, base)
         == if j < |one| then one else one + TextToks(u, d, text[x.len..][..e - x.len], x.next, base + x.len)
  {
    hide First, FirstLine, TextToks, KnowsBlank, InPlace;
    CutPlace(u, d, text, st, base, j);
    x, one, rest := Head(u, d, text, st, base);
    HeadNormal(u, d, text, st, base, x, one);
    var toks := one + rest;
    var e := toks[j].to - base;
    var cut := text[..e];
    LaterPlace(u, d, text[x.len..], x.next, base + x.len);
    if j >= |one| { assert rest[j - |one|] == toks[j] && toks[j] in rest; }
    HeadCut(d, text, st, e);
    Peel(u, d, cut, st, base);
    assert cut[..x.len] == text[..x.len] && cut[x.len..] == text[x.len..][..e - x.len];
    if j < |one| {
      Nothing(u, d, x.next, base + x.len);
      assert cut[x.len..] == "";
    }
  }

  lemma CutPlace(u: Unicode, d: Dialect, text: string, st: State, base: nat, j: nat)
    requires KnowsBlank(u)
    requires var toks := TextToks(u, d, text, st, base); j < |toks| && CutAt(toks, j)
    ensures var toks := TextToks(u, d, text, st, base); var e := toks[j].to - base;
      && base <= toks[j].from < toks[j].to <= base + |text|
      && (text[e - 1] == ';' || '(' !in text[e..])
      && (toks[j].kind == Punctuation || '(' !in text[e..])
  {
    hide TextToks;
    var toks := TextToks(u, d, text, st, base);
    ToksInPlace(u, d, text, st, base);
    NothingAfter(u, d, text, st, base);
    assert text[toks[j].from - base..toks[j].to - base] == toks[j].text;
    if toks[j].text == ";" {
      assert text[toks[j].from - base..toks[j].to - base][0] == ';';
    }
  }

  lemma LaterPlace(u: Unicode, d: Dialect, text: string, st: State, base: nat)
    ensures forall t :: t in TextToks(u, d, text, st, base) ==> base <= t.from < t.to
  {
    ToksInPlace(u, d, text, st, base);
  }

  // ----- texts one after the other

  /** Lexing composes at a newline, in the state the text before it ends in. */
  lemma {:induction false} JoinToks(u: Unicode, d: Dialect, a: string, b: string, st: State, base: nat)
    ensures TextToks(u, d, a + "\n" + b, st, base)
         == TextToks(u, d, a, st, base) + TextToks(u, d, b, TextEnd(d, a, st), base + |a| + 1)
    ensures TextEnd(d, a + "\n" + b, st) == TextEnd(d, b, TextEnd(d, a, st))
    decreases |a|
  {
    hide First, FirstLine, TextToks, TextEnd;
    var text := a + "\n" + b;
    if a == [] {
      Nothing(u, d, st, base);
      PeelNewline(u, d, text, st, base);
      assert text[1..] == b;
    } else if a[0] == '\n' {
      PeelNewline(u, d, text, st, base);
      PeelNewline(u, d, a, st, base);
      assert text[1..] == a[1..] + "\n" + b;
      JoinToks(u, d, a[1..], b, st, base + 1);
    } else {
      Peel(u, d, text, st, base);
      Peel(u, d, a, st, base);
      SameFirstLine(a, b);
      var x := First(d, FirstLine(a), st);
      assert text[x.len..] == a[x.len..] + "\n" + b && text[..x.len] == a[..x.len];
      JoinToks(u, d, a[x.len..], b, x.next, base + x.len);
    }
  }

  lemma SameFirstLine(a: string, b: string)
    ensures FirstLine(a + "\n" + b) == FirstLine(a)
  {
    var text, line := a + "\n" + b, FirstLine(a);
    assert line <= text;
    FirstLineIs(text, line);
  }

  /** What tokens say, wherever they are. */
  function Said(toks: seq<Tok>): (r: seq<(TokenKind, string)>)
    ensures |r| == |toks| && forall i :: 0 <= i < |toks| ==> r[i] == (toks[i].kind, toks[i].text)
  {
    seq(|toks|, i requires 0 <= i < |toks| => (toks[i].kind, toks[i].text))
  }

  lemma {:induction false} SaidAnywhere(u: Unicode, d: Dialect, text: string, st: State, a: nat, b: nat)
    ensures Said(TextToks(u, d, text, st, a)) == Said(TextToks(u, d, text, st, b))
    decreases |text|
  {
    hide First, FirstLine, TextToks;
    if text == [] {
      Nothing(u, d, st, a);
      Nothing(u, d, st, b);
    } else if text[0] == '\n' {
      PeelNewline(u, d, text, st, a);
      PeelNewline(u, d, text, st, b);
      SaidAnywhere(u, d, text[1..], st, a + 1, b + 1);
    } else {
      Peel(u, d, text, st, a);
      Peel(u, d, text, st, b);
      var x := First(d, FirstLine(text), st);
      SaidAnywhere(u, d, text[x.len..], x.next, a + x.len, b + x.len);
      SaidBoth(KeptAt(u, x.kind, text[..x.len], a), TextToks(u, d, text[x.len..], x.next, a + x.len));
      SaidBoth(KeptAt(u, x.kind, text[..x.len], b), TextToks(u, d, text[x.len..], x.next, b + x.len));
    }
  }

  lemma SaidBoth(a: seq<Tok>, b: seq<Tok>)
    ensures Said(a + b) == Said(a) + Said(b)
  {}

  lemma SameSaid(u: Unicode, a: seq<Tok>, b: seq<Tok>, a': seq<Tok>, b': seq<Tok>)
    requires Said(a) == Said(a') && Said(b) == Said(b')
    ensures Same(u, a, b) <==> Same(u, a', b')
  {
    assert |Said(a)| == |a| == |a'| && |Said(b)| == |b| == |b'|;
    assert forall i :: 0 <= i < |a| ==> Said(a)[i] == Said(a')[i];
    assert forall i :: 0 <= i < |b| ==> Said(b)[i] == Said(b')[i];
    assert forall i :: 0 <= i < |a| ==> a[i].kind == a'[i].kind && a[i].text == a'[i].text;
    assert forall i :: 0 <= i < |b| ==> b[i].kind == b'[i].kind && b[i].text == b'[i].text;
  }
}
