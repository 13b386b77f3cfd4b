/** The SQL lexer (internal/sqllex/lexer.go): each line is
    given the state the previous one left. A line is its bytes, one char a byte. */
module SqlLex {

  datatype TokenKind =
    Text | Keyword | Type | Function | Identifier | QuotedIdent | String | Number
  | Comment | Operator | Punctuation | Parameter | Error

  /** What may be open where a line starts. The depth is a byte,
      and wraps like one. */
  datatype State = Normal | InComment(depth: uint8) | InString(quote: char) | InDollar(tag: string)

  type uint8 = x: int | 0 <= x < 256

  /** An engine's way of writing SQL. The word lists are looked up whatever the case. */
  datatype Dialect = Dialect(
    isKeyword: string -> bool, isType: string -> bool, isFunction: string -> bool,
    quoteIdent: char, altQuoteIdent: char, bracketIdent: bool, dollarQuote: bool,
    hashComment: bool, nestedComments: bool, backslashEscapes: bool,
    doubleQuotedStrings: bool, slashComment: bool)

  const NUL: char := '\0'

  // ----- characters

  predicate IsBlankByte(c: char) { c == ' ' || c == '\t' || c == '\r' }
  predicate IsSpaceOrTab(c: char) { c == ' ' || c == '\t' }
  predicate IsDigit(c: char) { '0' <= c <= '9' }
  predicate IsIdentStart(c: char) { c == '_' || 'a' <= c <= 'z' || 'A' <= c <= 'Z' || c >= '\U{80}' }
  predicate IsIdentPart(c: char) { IsIdentStart(c) || IsDigit(c) || c == '$' }
  predicate IsDollarTagPart(c: char) { IsIdentStart(c) || IsDigit(c) }
  predicate IsNumberPart(c: char) { IsDigit(c) || c == '.' || c == '_' }
  predicate IsNotBracket(c: char) { c != ']' }
  predicate IsOperator(c: char) {
    || c == '+' || c == '-' || c == '*' || c == '/' || c == '%' || c == '<' || c == '>' || c == '='
    || c == '!' || c == '|' || c == '&' || c == '^' || c == '~' || c == '@' || c == ':'
  }
  predicate IsPunctuation(c: char) {
    c == '(' || c == ')' || c == ',' || c == ';' || c == '.' || c == '[' || c == ']'
  }

  // ----- what each construct covers, from where it stands: s is the rest of the line

  /** How far the run of p reaches. */
  function Span(s: string, p: char -> bool): (n: nat)
    ensures n <= |s|
    ensures forall k :: 0 <= k < n ==> p(s[k])
    ensures n < |s| ==> !p(s[n])
  {
    if s != [] && p(s[0]) then 1 + Span(s[1..], p) else 0
  }

  /** How far into s a comment of this depth runs, the depth it leaves, and
      whether it closed. */
  function CommentEnd(d: Dialect, s: string, depth: uint8): (r: (nat, uint8, bool))
    ensures r.0 <= |s|
    ensures if r.2 then r.0 >= 2 else r.0 == |s|
    ensures s == [] ==> r.1 == depth
  {
    if s == [] then (0, depth, false)
    else if |s| > 1 && s[0] == '*' && s[1] == '/' then
      if (depth - 1) % 256 == 0 then (2, 0, true)
      else
        var r := CommentEnd(d, s[2..], (depth - 1) % 256);
        (2 + r.0, r.1, r.2)
    else if d.nestedComments && |s| > 1 && s[0] == '/' && s[1] == '*' then
      var r := CommentEnd(d, s[2..], (depth + 1) % 256);
      (2 + r.0, r.1, r.2)
    else
      var r := CommentEnd(d, s[1..], depth);
      (1 + r.0, r.1, r.2)
  }

  predicate Escapes(d: Dialect) { d.backslashEscapes || d.doubleQuotedStrings }

  /** How far into s a string's text runs, its closing quote included, and
      whether it closed. */
  function StringEnd(d: Dialect, s: string, quote: char): (r: (nat, bool))
    ensures r.0 <= |s|
    ensures !r.1 ==> r.0 == |s|
    ensures r.1 ==> r.0 > 0 && s[r.0 - 1] == quote
  {
    if s == [] then (0, false)
    else if Escapes(d) && s[0] == '\\' && |s| > 1 then
      var r := StringEnd(d, s[2..], quote);
      (2 + r.0, r.1)
    else if s[0] == quote then
      if |s| > 1 && s[1] == quote then
        var r := StringEnd(d, s[2..], quote);
        (2 + r.0, r.1)
      else (1, true)
    else
      var r := StringEnd(d, s[1..], quote);
      (1 + r.0, r.1)
  }

  /** Where closer first begins in s. */
  function IndexOf(s: string, closer: string): (r: (nat, bool))
    ensures r.1 ==> r.0 + |closer| <= |s| && s[r.0..r.0 + |closer|] == closer
  {
    if closer <= s then (0, true)
    else if s == [] then (0, false)
    else
      var r := IndexOf(s[1..], closer);
      (1 + r.0, r.1)
  }

  function Closer(tag: string): string { "$" + tag + "$" }

  function QuotedIdentEnd(s: string, quote: char): (n: nat)
    ensures n <= |s|
  {
    if s == [] then 0
    else if s[0] == quote then
      if |s| > 1 && s[1] == quote then 2 + QuotedIdentEnd(s[2..], quote) else 1
    else 1 + QuotedIdentEnd(s[1..], quote)
  }

  function NumberLen(s: string): (n: nat)
    ensures n <= |s|
  {
    var i := Span(s, IsNumberPart);
    if i < |s| && (s[i] == 'e' || s[i] == 'E') then
      var j := if i + 1 < |s| && (s[i + 1] == '+' || s[i + 1] == '-') then i + 2 else i + 1;
      if j < |s| && IsDigit(s[j]) then j + Span(s[j..], IsDigit) else i
    else i
  }

  /** A bracket opens next. */
  predicate IsCalled(rest: string) {
    var j := Span(rest, IsSpaceOrTab);
    j < |rest| && rest[j] == '('
  }

  /** The kind of a word, what follows it deciding whether it is called. */
  function WordKind(d: Dialect, word: string, rest: string): TokenKind {
    if d.isKeyword(word) then Keyword
    else if d.isType(word) then Type
    else if d.isFunction(word) && IsCalled(rest) then Function
    else Identifier
  }

  /** The length of the $tag$ opener s begins with, or 0 when it is not one. */
  function DollarOpener(s: string): (n: nat)
    requires s != []
    ensures n <= |s| && (n > 0 ==> n >= 2)
  {
    var j := 1 + Span(s[1..], IsDollarTagPart);
    if j < |s| && s[j] == '$' then j + 1 else 0
  }

  // ----- one lexeme

  /** A lexeme's kind, its length, and the state the lexer is in past it. */
  datatype Lexeme = Lexeme(kind: TokenKind, len: nat, next: State)

  /** A comment entered with this depth, its first skip bytes already read. */
  function CommentLexeme(d: Dialect, s: string, skip: nat, depth: uint8): Lexeme
    requires skip <= |s|
  {
    var r := CommentEnd(d, s[skip..], depth);
    Lexeme(Comment, skip + r.0, if r.2 then Normal else InComment(r.1))
  }

  /** A string, from its opening quote or from the start of a later line. A later
      line that begins with the quote has it read as an opening one. */
  function StringLexeme(d: Dialect, s: string, quote: char): Lexeme {
    var skip := if s != [] && s[0] == quote then 1 else 0;
    var r := StringEnd(d, s[skip..], quote);
    Lexeme(String, skip + r.0, if r.1 then Normal else InString(quote))
  }

  function DollarLexeme(s: string, skip: nat, tag: string): Lexeme
    requires skip <= |s|
  {
    var r := IndexOf(s[skip..], Closer(tag));
    if r.1 then Lexeme(String, skip + r.0 + |Closer(tag)|, Normal)
    else Lexeme(String, |s|, InDollar(tag))
  }

  /** No blank, comment or quote opener begins s: the dollar quote aside, what
      begins it stays within it. */
  predicate Plain(d: Dialect, s: string)
    requires s != []
  {
    var c := s[0];
    && !IsBlankByte(c) && c != '\'' && c != d.quoteIdent
    && !(c == '-' && |s| > 1 && s[1] == '-')
    && !(d.hashComment && c == '#')
    && !(d.slashComment && c == '/' && |s| > 1 && s[1] == '/')
    && !(c == '/' && |s| > 1 && s[1] == '*')
    && !(d.doubleQuotedStrings && c == '"')
    && !(d.altQuoteIdent != NUL && c == d.altQuoteIdent)
    && !(d.bracketIdent && c == '[')
  }

  function NextQuoted(d: Dialect, s: string): (x: Lexeme)
    requires s != [] && !Plain(d, s)
    ensures 1 <= x.len <= |s| && (x.next.Normal? || x.len == |s|)
  {
    var c := s[0];
    if IsBlankByte(c) then Lexeme(Text, Span(s, IsBlankByte), Normal)
    else if c == '-' && |s| > 1 && s[1] == '-' then Lexeme(Comment, |s|, Normal)
    else if d.hashComment && c == '#' then Lexeme(Comment, |s|, Normal)
    else if d.slashComment && c == '/' && |s| > 1 && s[1] == '/' then Lexeme(Comment, |s|, Normal)
    else if c == '/' && |s| > 1 && s[1] == '*' then CommentLexeme(d, s, 2, 1)
    else if c == '\'' then StringLexeme(d, s, '\'')
    else if d.doubleQuotedStrings && c == '"' then StringLexeme(d, s, '"')
    else if c == d.quoteIdent then Lexeme(QuotedIdent, 1 + QuotedIdentEnd(s[1..], d.quoteIdent), Normal)
    else if d.altQuoteIdent != NUL && c == d.altQuoteIdent then
      Lexeme(QuotedIdent, 1 + QuotedIdentEnd(s[1..], d.altQuoteIdent), Normal)
    else
      var n := 1 + Span(s[1..], IsNotBracket);
      Lexeme(QuotedIdent, if n < |s| then n + 1 else n, Normal)
  }

  function NextPlain(d: Dialect, s: string): (x: Lexeme)
    requires s != [] && Plain(d, s)
    ensures 1 <= x.len <= |s| && (x.next.Normal? || x.len == |s|)
  {
    var c := s[0];
    if d.dollarQuote && c == '$' && DollarOpener(s) > 0 then
      DollarLexeme(s, DollarOpener(s), s[1..DollarOpener(s) - 1])
    else if c == ':' && |s| > 1 && IsIdentStart(s[1]) then Lexeme(Parameter, 1 + Span(s[1..], IsIdentPart), Normal)
    else if c == '$' && |s| > 1 && IsDigit(s[1]) then Lexeme(Parameter, 1 + Span(s[1..], IsDigit), Normal)
    else if c == '?' then Lexeme(Parameter, 1, Normal)
    else NextWord(d, s)
  }

  function NextWord(d: Dialect, s: string): (x: Lexeme)
    requires s != []
    ensures 1 <= x.len <= |s| && x.next.Normal?
  {
    var c := s[0];
    if IsDigit(c) || (c == '.' && |s| > 1 && IsDigit(s[1])) then Lexeme(Number, NumberLen(s), Normal)
    else if IsIdentStart(c) then
      var n := Span(s, IsIdentPart);
      Lexeme(WordKind(d, s[..n], s[n..]), n, Normal)
    else if IsOperator(c) then Lexeme(Operator, Span(s, IsOperator), Normal)
    else if IsPunctuation(c) then Lexeme(Punctuation, 1, Normal)
    else Lexeme(Error, 1, Normal)
  }

  /** The lexeme s begins with, outside any string, comment or quoted body. */
  function Next(d: Dialect, s: string): (x: Lexeme)
    requires s != []
    ensures 1 <= x.len <= |s| && (x.next.Normal? || x.len == |s|)
  {
    if Plain(d, s) then NextPlain(d, s) else NextQuoted(d, s)
  }

  /** The lexeme a line begins with when it begins in the middle of something. */
  function Resume(d: Dialect, s: string, st: State): (x: Lexeme)
    requires !st.Normal?
    ensures x.len <= |s| && (s != [] ==> x.len >= 1) && (x.next.Normal? || x.len == |s|)
  {
    match st
    case InComment(depth) => CommentLexeme(d, s, 0, depth)
    case InString(quote) => StringLexeme(d, s, quote)
    case InDollar(tag) => DollarLexeme(s, 0, tag)
  }

  /** The lexeme a line, or what is left of one, begins with. Every lexeme
      covers something, and only one that reaches the end of its line leaves the
      line in the middle of something. */
  function First(d: Dialect, s: string, st: State): (x: Lexeme)
    requires s != []
    ensures 1 <= x.len <= |s|
    ensures x.next.Normal? || x.len == |s|
  {
    if st.Normal? then Next(d, s) else Resume(d, s, st)
  }

  // ----- a line

  datatype Piece = Piece(kind: TokenKind, len: nat)

  function Pieces(d: Dialect, s: string, st: State): seq<Piece> {
    if s == [] then []
    else
      var x := First(d, s, st);
      [Piece(x.kind, x.len)] + Pieces(d, s[x.len..], x.next)
  }

  /** What is left open at the end of the line. */
  function EndState(d: Dialect, s: string, st: State): State {
    if s == [] then st
    else
      var x := First(d, s, st);
      EndState(d, s[x.len..], x.next)
  }

  /** A lexeme, by its offsets in its line. */
  datatype Token = Token(kind: TokenKind, start: nat, end: nat)

  function Placed(pieces: seq<Piece>, at: nat): seq<Token> {
    if pieces == [] then []
    else [Token(pieces[0].kind, at, at + pieces[0].len)] + Placed(pieces[1..], at + pieces[0].len)
  }

  /** Every byte from from up to to is in exactly one token, and the tokens are in order. */
  predicate Tiles(tokens: seq<Token>, from: nat, to: nat) {
    && (if tokens == [] then from == to else tokens[0].start == from && tokens[|tokens| - 1].end == to)
    && (forall k :: 0 <= k < |tokens| ==> tokens[k].start < tokens[k].end)
    && (forall k :: 0 < k < |tokens| ==> tokens[k - 1].end == tokens[k].start)
  }

  /** From every state, well-formed or not, a line's tokens tile it. */
  lemma {:induction false} TokensTile(d: Dialect, s: string, st: State, at: nat)
    ensures Tiles(Placed(Pieces(d, s, st), at), at, at + |s|)
    decreases |s|
  {
    hide First;
    if s != [] {
      var x := First(d, s, st);
      var rest := Pieces(d, s[x.len..], x.next);
      assert Pieces(d, s, st)[1..] == rest;
      TokensTile(d, s[x.len..], x.next, at + x.len);
      var tail := Placed(rest, at + x.len);
      assert Placed(Pieces(d, s, st), at) == [Token(x.kind, at, at + x.len)] + tail;
    }
  }

  // ----- the lexer itself

  function Emitted(buf: seq<Token>, k: TokenKind, start: nat, end: nat): seq<Token> {
    if end <= start then buf else buf + [Token(k, start, end)]
  }

  /** buf without its trailing tokens from start on. */
  function DropBack(buf: seq<Token>, start: nat): seq<Token> {
    if buf != [] && buf[|buf| - 1].start >= start then DropBack(buf[..|buf| - 1], start) else buf
  }

  /** Where the run of p that begins at i stops. */
  method ScanWhile(line: string, i: nat, p: char -> bool) returns (j: nat)
    requires i <= |line|
    ensures j == i + Span(line[i..], p)
  {
    j := i;
    while j < |line| && p(line[j])
      invariant i <= j <= |line|
      invariant i + Span(line[i..], p) == j + Span(line[j..], p)
    {
      assert line[j..][1..] == line[j + 1..];
      j := j + 1;
    }
  }

  method FindCloser(line: string, i: nat, closer: string) returns (at: nat, found: bool)
    requires i <= |line|
    ensures found == IndexOf(line[i..], closer).1
    ensures found ==> at == i + IndexOf(line[i..], closer).0
  {
    at := i;
    while at < |line| && !(closer <= line[at..])
      invariant i <= at <= |line|
      invariant IndexOf(line[i..], closer) == (at - i + IndexOf(line[at..], closer).0, IndexOf(line[at..], closer).1)
    {
      assert line[at..][1..] == line[at + 1..];
      at := at + 1;
    }
    found := closer <= line[at..];
  }

  method ScanNumber(line: string, at: nat) returns (i: nat)
    requires at < |line|
    ensures i == at + NumberLen(line[at..])
  {
    hide Span;
    i := ScanWhile(line, at, IsNumberPart);
    if i < |line| && (line[i] == 'e' || line[i] == 'E') {
      var j := i + 1;
      if j < |line| && (line[j] == '+' || line[j] == '-') { j := j + 1; }
      if j < |line| && IsDigit(line[j]) {
        assert line[at..][j - at..] == line[j..];
        i := ScanWhile(line, j, IsDigit);
      }
    }
  }

  method ScanComment(d: Dialect, line: string, from: nat, depth: uint8) returns (i: nat, left: uint8, closed: bool)
    requires from <= |line|
    ensures CommentEnd(d, line[from..], depth) == (i - from, left, closed) && i >= from
  {
    hide CommentEnd;
    i, left, closed := from, depth, false;
    ghost var r := CommentEnd(d, line[from..], depth);
    while i < |line|
      invariant from <= i <= |line|
      invariant r == (i - from + CommentEnd(d, line[i..], left).0, CommentEnd(d, line[i..], left).1, CommentEnd(d, line[i..], left).2)
    {
      CommentEndUnfolds(d, line[i..], left);
      assert line[i..][1..] == line[i + 1..];
      if i + 1 < |line| { assert line[i..][2..] == line[i + 2..]; }
      if i + 1 < |line| && line[i] == '*' && line[i + 1] == '/' {
        i := i + 2;
        left := (left - 1) % 256;
        if left == 0 { return i, 0, true; }
      } else if d.nestedComments && i + 1 < |line| && line[i] == '/' && line[i + 1] == '*' {
        i := i + 2;
        left := (left + 1) % 256;
      } else {
        i := i + 1;
      }
    }
  }

  /** CommentEnd, one step on. */
  lemma CommentEndUnfolds(d: Dialect, s: string, depth: uint8)
    requires s != []
    ensures
      var r := CommentEnd(d, s, depth);
      if |s| > 1 && s[0] == '*' && s[1] == '/' then
        if (depth - 1) % 256 == 0 then r == (2, 0, true)
        else var r' := CommentEnd(d, s[2..], (depth - 1) % 256); r == (2 + r'.0, r'.1, r'.2)
      else if d.nestedComments && |s| > 1 && s[0] == '/' && s[1] == '*' then
        var r' := CommentEnd(d, s[2..], (depth + 1) % 256); r == (2 + r'.0, r'.1, r'.2)
      else var r' := CommentEnd(d, s[1..], depth); r == (1 + r'.0, r'.1, r'.2)
  {}

  /** StringEnd, one step on. */
  lemma StringEndUnfolds(d: Dialect, s: string, quote: char)
    requires s != []
    ensures
      var r := StringEnd(d, s, quote);
      if |s| > 1 && ((Escapes(d) && s[0] == '\\') || (s[0] == quote && s[1] == quote)) then
        var r' := StringEnd(d, s[2..], quote); r == (2 + r'.0, r'.1)
      else if s[0] == quote then r == (1, true)
      else var r' := StringEnd(d, s[1..], quote); r == (1 + r'.0, r'.1)
  {}

  method ScanString(d: Dialect, line: string, from: nat, quote: char) returns (i: nat, closed: bool)
    requires from <= |line|
    ensures StringEnd(d, line[from..], quote) == (i - from, closed) && i >= from
  {
    hide StringEnd;
    i, closed := from, false;
    ghost var r := StringEnd(d, line[from..], quote);
    while i < |line|
      invariant from <= i <= |line|
      invariant r == (i - from + StringEnd(d, line[i..], quote).0, StringEnd(d, line[i..], quote).1)
    {
      StringEndUnfolds(d, line[i..], quote);
      assert line[i..][1..] == line[i + 1..];
      if i + 1 < |line| { assert line[i..][2..] == line[i + 2..]; }
      if (d.backslashEscapes || d.doubleQuotedStrings) && line[i] == '\\' && i + 1 < |line| {
        i := i + 2;
        continue;
      }
      if line[i] == quote {
        if i + 1 < |line| && line[i + 1] == quote {
          i := i + 2; // two quotes stand for one, and the name goes on
          continue;
        }
        return i + 1, true;
      }
      i := i + 1;
    }
  }

  /** A lexer keeps one token buffer, which every line reuses. */
  class Lexer {
    const d: Dialect
    var buf: seq<Token>

    constructor (d: Dialect)
      ensures this.d == d && buf == []
    {
      this.d := d;
      buf := [];
    }

    method Emit(k: TokenKind, start: nat, end: nat)
      modifies this
      ensures buf == Emitted(old(buf), k, start, end)
    {
      if end > start {
        buf := buf + [Token(k, start, end)];
      }
    }

    /** Replaces the trailing tokens from start on with one. */
    method MergeBack(k: TokenKind, start: nat, end: nat)
      modifies this
      ensures buf == Emitted(DropBack(old(buf), start), k, start, end)
    {
      while buf != [] && buf[|buf| - 1].start >= start
        invariant DropBack(buf, start) == DropBack(old(buf), start)
        decreases |buf|
      {
        buf := buf[..|buf| - 1];
      }
      Emit(k, start, end);
    }

    /** Consumes a comment whose scanning begins at scan and whose token begins
        at tokenStart: the opener itself adds nothing to the depth. */
    method ContinueBlockComment(line: string, tokenStart: nat, scan: nat, depth: uint8) returns (i: nat, next: State)
      requires tokenStart <= scan <= |line|
      modifies this
      ensures
        var r := CommentEnd(d, line[scan..], depth);
        i == scan + r.0 && next == if r.2 then Normal else InComment(r.1)
      ensures buf == Emitted(old(buf), Comment, tokenStart, i)
    {
      var left, closed;
      i, left, closed := ScanComment(d, line, scan, depth);
      Emit(Comment, tokenStart, i);
      next := if closed then Normal else InComment(left);
    }

    method ContinueString(line: string, at: nat, quote: char) returns (i: nat, next: State)
      requires at <= |line|
      modifies this
      ensures
        var x := StringLexeme(d, line[at..], quote);
        i == at + x.len && next == x.next && buf == Emitted(old(buf), String, at, i)
    {
      i := at;
      if i < |line| && line[i] == quote {
        i := i + 1; // opening quote
      }
      assert line[at..][i - at..] == line[i..];
      var closed;
      i, closed := ScanString(d, line, i, quote);
      Emit(String, at, i);
      next := if closed then Normal else InString(quote);
    }

    method ContinueDollarQuote(line: string, i: nat, tag: string) returns (end: nat, next: State)
      requires i <= |line|
      modifies this
      ensures
        var x := DollarLexeme(line[i..], 0, tag);
        end == i + x.len && next == x.next && buf == Emitted(old(buf), String, i, end)
    {
      var closer := Closer(tag);
      var at, found := FindCloser(line, i, closer);
      assert line[i..][0..] == line[i..];
      if found {
        end := at + |closer|;
        Emit(String, i, end);
        return end, Normal;
      }
      Emit(String, i, |line|);
      return |line|, InDollar(tag);
    }

    method LexQuotedIdent(line: string, at: nat, quote: char) returns (i: nat)
      requires at < |line|
      modifies this
      ensures i == at + 1 + QuotedIdentEnd(line[at..][1..], quote)
      ensures buf == Emitted(old(buf), QuotedIdent, at, i)
    {
      i := at + 1;
      assert line[at..][1..] == line[at + 1..];
      while i < |line|
        invariant at < i <= |line| && buf == old(buf)
        invariant at + 1 + QuotedIdentEnd(line[at + 1..], quote) == i + QuotedIdentEnd(line[i..], quote)
      {
        assert line[i..][1..] == line[i + 1..];
        if line[i] == quote {
          if i + 1 < |line| && line[i + 1] == quote {
            assert line[i..][2..] == line[i + 2..];
            i := i + 2;
            continue;
          }
          i := i + 1;
          break;
        }
        i := i + 1;
      }
      Emit(QuotedIdent, at, i);
    }

    method LexBracketIdent(line: string, at: nat) returns (i: nat)
      requires at < |line|
      modifies this
      ensures
        var n := 1 + Span(line[at..][1..], IsNotBracket);
        i == at + if n < |line[at..]| then n + 1 else n
      ensures buf == Emitted(old(buf), QuotedIdent, at, i)
    {
      assert line[at..][1..] == line[at + 1..];
      i := ScanWhile(line, at + 1, IsNotBracket);
      if i < |line| { i := i + 1; }
      Emit(QuotedIdent, at, i);
    }

    method LexNumber(line: string, at: nat) returns (i: nat)
      requires at < |line|
      modifies this
      ensures i == at + NumberLen(line[at..]) && buf == Emitted(old(buf), Number, at, i)
    {
      i := ScanNumber(line, at);
      Emit(Number, at, i);
    }

    method LexWord(line: string, at: nat) returns (i: nat)
      requires at < |line|
      modifies this
      ensures i == at + Span(line[at..], IsIdentPart)
      ensures buf == Emitted(old(buf), WordKind(d, line[at..i], line[i..]), at, i)
    {
      hide Span;
      i := ScanWhile(line, at, IsIdentPart);
      var word := line[at..i];
      var kind := Identifier;
      if d.isKeyword(word) {
        kind := Keyword;
      } else if d.isType(word) {
        kind := Type;
      } else if d.isFunction(word) {
        var j := ScanWhile(line, i, IsSpaceOrTab);
        if j < |line| && line[j] == '(' { kind := Function; }
      }
      Emit(kind, at, i);
    }

    /** The end of the $tag$ opener at i, or i when it is not one. */
    method DollarTag(line: string, i: nat) returns (tag: string, after: nat)
      requires i < |line|
      ensures after == i + DollarOpener(line[i..])
      ensures after > i ==> tag == line[i..][1..DollarOpener(line[i..]) - 1]
    {
      assert line[i..][1..] == line[i + 1..];
      var j := ScanWhile(line, i + 1, IsDollarTagPart);
      if j < |line| && line[j] == '$' { return line[i + 1..j], j + 1; }
      return "", i;
    }

    method LexDollar(line: string, i: nat, after: nat, tag: string) returns (j: nat, next: State)
      requires i < after <= |line|
      requires buf != [] ==> buf[|buf| - 1].start < i
      modifies this
      ensures
        var x := DollarLexeme(line[i..], after - i, tag);
        j == i + x.len && next == x.next && buf == old(buf) + [Token(x.kind, i, j)]
    {
      hide IndexOf, Closer, DropBack;
      assert line[i..][after - i..] == line[after..] && line[after..][0..] == line[after..];
      j, next := ContinueDollarQuote(line, after, tag);
      // One token for the tag that opens it and all that it quotes.
      Dropped(old(buf), buf, i, after);
      MergeBack(String, i, j);
    }

    /** The lexeme at i, outside any string, comment or quoted body. */
    method LexOne(line: string, i: nat) returns (j: nat, next: State)
      requires i < |line|
      requires buf != [] ==> buf[|buf| - 1].start < i
      modifies this
      ensures
        var x := Next(d, line[i..]);
        j == i + x.len && next == x.next && buf == old(buf) + [Token(x.kind, i, j)]
    {
      var n := |line|;
      var c := line[i];
      hide Span, StringLexeme, CommentEnd, QuotedIdentEnd, NextPlain;
      assert line[i..][1..] == line[i + 1..];
      next := Normal;
      if IsBlankByte(c) {
        j := ScanWhile(line, i, IsBlankByte);
        Emit(Text, i, j);
      } else if c == '-' && i + 1 < n && line[i + 1] == '-' {
        Emit(Comment, i, n);
        j := n;
      } else if d.hashComment && c == '#' {
        Emit(Comment, i, n);
        j := n;
      } else if d.slashComment && c == '/' && i + 1 < n && line[i + 1] == '/' {
        Emit(Comment, i, n);
        j := n;
      } else if c == '/' && i + 1 < n && line[i + 1] == '*' {
        assert line[i..][2..] == line[i + 2..];
        j, next := ContinueBlockComment(line, i, i + 2, 1);
      } else if c == '\'' {
        j, next := ContinueString(line, i, '\'');
      } else if d.doubleQuotedStrings && c == '"' {
        j, next := ContinueString(line, i, '"');
      } else if c == d.quoteIdent {
        j := LexQuotedIdent(line, i, d.quoteIdent);
      } else if d.altQuoteIdent != NUL && c == d.altQuoteIdent {
        j := LexQuotedIdent(line, i, d.altQuoteIdent);
      } else if d.bracketIdent && c == '[' {
        j := LexBracketIdent(line, i);
      } else {
        j, next := LexPlain(line, i);
      }
    }

    /** The lexemes that no quote, bracket or comment opener begins. */
    method LexPlain(line: string, i: nat) returns (j: nat, next: State)
      requires i < |line|
      requires buf != [] ==> buf[|buf| - 1].start < i
      requires Plain(d, line[i..])
      modifies this
      ensures
        var x := NextPlain(d, line[i..]);
        j == i + x.len && next == x.next && buf == old(buf) + [Token(x.kind, i, j)]
    {
      var n := |line|;
      var c := line[i];
      hide Span, StringEnd, IndexOf, NumberLen, WordKind, DollarLexeme, Plain;
      assert line[i..][1..] == line[i + 1..];
      next := Normal;
      var tag, after := DollarTag(line, i);
      if d.dollarQuote && c == '$' && after > i {
        j, next := LexDollar(line, i, after, tag);
      } else if c == ':' && i + 1 < n && IsIdentStart(line[i + 1]) {
        j := ScanWhile(line, i + 1, IsIdentPart);
        Emit(Parameter, i, j);
      } else if c == '$' && i + 1 < n && IsDigit(line[i + 1]) {
        j := ScanWhile(line, i + 1, IsDigit);
        Emit(Parameter, i, j);
      } else if c == '?' {
        j := i + 1;
        Emit(Parameter, i, j);
      } else {
        j := LexRest(line, i);
      }
    }

    /** Numbers, words and what is left. */
    method LexRest(line: string, i: nat) returns (j: nat)
      requires i < |line|
      modifies this
      ensures
        var x := NextWord(d, line[i..]);
        j == i + x.len && buf == old(buf) + [Token(x.kind, i, j)]
    {
      hide NumberLen, WordKind;
      var n := |line|;
      var c := line[i];
      if IsDigit(c) || (c == '.' && i + 1 < n && IsDigit(line[i + 1])) {
        j := LexNumber(line, i);
      } else if IsIdentStart(c) {
        j := LexWord(line, i);
        assert line[i..][..j - i] == line[i..j] && line[i..][j - i..] == line[j..];
      } else if IsOperator(c) {
        j := ScanWhile(line, i, IsOperator);
        Emit(Operator, i, j);
      } else if IsPunctuation(c) {
        j := i + 1;
        Emit(Punctuation, i, j);
      } else {
        j := i + 1;
        Emit(Error, i, j);
      }
    }

    /** Reads the end of what an earlier line opened. */
    method Finish(line: string, st: State) returns (i: nat, next: State)
      requires !st.Normal?
      modifies this
      ensures
        var x := Resume(d, line, st);
        i == x.len && next == x.next && buf == Emitted(old(buf), x.kind, 0, x.len)
    {
      assert line[0..] == line;
      match st
      case InComment(depth) => i, next := ContinueBlockComment(line, 0, 0, depth);
      case InString(quote) => i, next := ContinueString(line, 0, quote);
      case InDollar(tag) => i, next := ContinueDollarQuote(line, 0, tag);
    }

    /** The tokens of one line, which tile it whatever state it is given, and the
        state to give the line after. */
    method LexLine(line: string, st: State) returns (tokens: seq<Token>, next: State)
      modifies this
      ensures tokens == Placed(Pieces(d, line, st), 0) && Tiles(tokens, 0, |line|)
      ensures next == EndState(d, line, st)
      ensures buf == tokens
    {
      hide Lexed, Next, Resume, Pieces, Placed, EndState, Tiles;
      buf := [];
      next := st;
      var i := 0;
      if st.Normal? {
        LexedStart(d, line, st);
      } else {
        i, next := Finish(line, st);
        AfterResume(d, line, st);
      }
      while i < |line|
        invariant Lexed(d, line, st, i, next, buf)
        decreases |line| - i
      {
        LexedStep(d, line, st, i, next, buf);
        i, next := LexOne(line, i);
      }
      LexedAll(d, line, st, i, next, buf);
      tokens := buf;
    }
  }

  // ----- how far a line has been lexed

  /** The lexer, at i, has the tokens before i and will get the rest right. */
  ghost predicate Lexed(d: Dialect, line: string, st: State, i: nat, next: State, done: seq<Token>) {
    && i <= |line| && (i < |line| ==> next.Normal?)
    && (done != [] ==> done[|done| - 1].start < i)
    && done + Placed(Pieces(d, line[i..], next), i) == Placed(Pieces(d, line, st), 0)
    && EndState(d, line[i..], next) == EndState(d, line, st)
  }

  lemma LexedStart(d: Dialect, line: string, st: State)
    requires st.Normal?
    ensures Lexed(d, line, st, 0, st, [])
  {
    assert line[0..] == line;
  }

  lemma LexedStep(d: Dialect, line: string, st: State, i: nat, next: State, done: seq<Token>)
    requires i < |line| && Lexed(d, line, st, i, next, done)
    ensures next.Normal? && (done != [] ==> done[|done| - 1].start < i)
    ensures var x := Next(d, line[i..]);
      Lexed(d, line, st, i + x.len, x.next, done + [Token(x.kind, i, i + x.len)])
  {
    hide Next, Pieces, Placed, EndState;
    var x := Next(d, line[i..]);
    UnfoldOnce(d, line[i..], next, i);
    assert First(d, line[i..], next) == x;
    assert line[i..][x.len..] == line[i + x.len..];
    var rest := Placed(Pieces(d, line[i + x.len..], x.next), i + x.len);
    assert (done + [Token(x.kind, i, i + x.len)]) + rest == done + ([Token(x.kind, i, i + x.len)] + rest);
  }

  lemma LexedAll(d: Dialect, line: string, st: State, i: nat, next: State, done: seq<Token>)
    requires i >= |line| && Lexed(d, line, st, i, next, done)
    ensures done == Placed(Pieces(d, line, st), 0) && Tiles(done, 0, |line|)
    ensures next == EndState(d, line, st)
  {
    TokensTile(d, line, st, 0);
    assert line[i..] == [];
  }

  lemma Dropped(was: seq<Token>, buf: seq<Token>, start: nat, after: nat)
    requires was != [] ==> was[|was| - 1].start < start
    requires start <= after && (buf == was || exists end :: buf == was + [Token(String, after, end)])
    ensures DropBack(buf, start) == was
  {
    if buf != was {
      assert buf[..|buf| - 1] == was;
      assert DropBack(was, start) == was;
    }
  }

  lemma UnfoldOnce(d: Dialect, s: string, st: State, at: nat)
    ensures s == [] ==> Placed(Pieces(d, s, st), at) == [] && EndState(d, s, st) == st
    ensures s != [] ==>
      var x := First(d, s, st);
      && Placed(Pieces(d, s, st), at)
         == [Token(x.kind, at, at + x.len)] + Placed(Pieces(d, s[x.len..], x.next), at + x.len)
      && EndState(d, s, st) == EndState(d, s[x.len..], x.next)
  {
    hide First;
    if s != [] {
      var x := First(d, s, st);
      assert Pieces(d, s, st)[1..] == Pieces(d, s[x.len..], x.next);
    }
  }

  lemma AfterResume(d: Dialect, line: string, st: State)
    requires !st.Normal?
    ensures var x := Resume(d, line, st);
      Lexed(d, line, st, x.len, x.next, Emitted([], x.kind, 0, x.len))
  {
    hide Resume, Next, Pieces, Placed, EndState;
    UnfoldOnce(d, line, st, 0);
    if line == [] { NothingLeft(d, st); }
  }

  /** An empty line leaves things as they were. */
  lemma NothingLeft(d: Dialect, st: State)
    requires !st.Normal?
    ensures Resume(d, "", st).len == 0 && Resume(d, "", st).next == st
  {
    if st.InDollar? { assert !(Closer(st.tag) <= ""); }
  }
}
