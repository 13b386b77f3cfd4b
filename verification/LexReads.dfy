/** What is written is what is read (internal/sqllex/lexer.go): a name, a string, a
    number, a word or a comment, written out, is one lexeme of just its own length. */
module SqlReads {
  import opened SqlLex

  /** The quotes a dialect has for names, if any, are the usual ones. */
  predicate UsualQuotes(d: Dialect) {
    (d.quoteIdent == '"' || d.quoteIdent == '`' || d.quoteIdent == NUL)
    && (d.altQuoteIdent == '"' || d.altQuoteIdent == '`' || d.altQuoteIdent == NUL)
  }

  /** Every quote in it doubled. */
  function Doubled(n: string, quote: char): string {
    if n == "" then "" else (if n[0] == quote then [quote, quote] else [n[0]]) + Doubled(n[1..], quote)
  }

  /** What follows does not go on with the quote. */
  predicate Ended(rest: string, quote: char) { rest == "" || rest[0] != quote }

  // ----- names in quotes

  lemma {:induction false} NameEnds(n: string, quote: char, rest: string)
    requires Ended(rest, quote)
    ensures QuotedIdentEnd(Doubled(n, quote) + [quote] + rest, quote) == |Doubled(n, quote)| + 1
  {
    var s := Doubled(n, quote) + [quote] + rest;
    if n == "" {
      assert s == [quote] + rest;
    } else {
      NameEnds(n[1..], quote, rest);
      var more := Doubled(n[1..], quote) + [quote] + rest;
      if n[0] == quote { assert s[2..] == more; } else { assert s[1..] == more; }
    }
  }

  lemma {:induction false} NameOpen(n: string, quote: char)
    ensures QuotedIdentEnd(Doubled(n, quote), quote) == |Doubled(n, quote)|
  {
    if n != "" {
      NameOpen(n[1..], quote);
      var s, more := Doubled(n, quote), Doubled(n[1..], quote);
      if n[0] == quote { assert s[2..] == more; } else { assert s[1..] == more; }
    }
  }

  /** The dialect takes this quote for a name's. */
  predicate QuotesNames(d: Dialect, quote: char) {
    && (quote == d.quoteIdent || (d.altQuoteIdent != NUL && quote == d.altQuoteIdent))
    && !IsBlankByte(quote) && quote !in "'-#/" && !(quote == '"' && d.doubleQuotedStrings)
  }

  lemma NameFirst(d: Dialect, s: string, quote: char)
    requires QuotesNames(d, quote) && s != "" && s[0] == quote
    ensures First(d, s, Normal) == Lexeme(QuotedIdent, 1 + QuotedIdentEnd(s[1..], quote), Normal)
  {
    assert '\'' in "'-#/" && '-' in "'-#/" && '#' in "'-#/" && '/' in "'-#/";
  }

  /** Any name at all, put in quotes with its own quotes doubled, is one quoted name. */
  lemma NameReads(d: Dialect, n: string, quote: char, rest: string)
    requires QuotesNames(d, quote) && Ended(rest, quote)
    ensures First(d, [quote] + Doubled(n, quote) + [quote] + rest, Normal) == Lexeme(QuotedIdent, |Doubled(n, quote)| + 2, Normal)
  {
    var s := [quote] + Doubled(n, quote) + [quote] + rest;
    assert s[1..] == Doubled(n, quote) + [quote] + rest;
    NameFirst(d, s, quote);
    NameEnds(n, quote, rest);
    hide First, QuotedIdentEnd;
  }

  /** Not closed, it runs to its line's end. */
  lemma NameRuns(d: Dialect, n: string, quote: char)
    requires QuotesNames(d, quote)
    ensures First(d, [quote] + Doubled(n, quote), Normal) == Lexeme(QuotedIdent, |Doubled(n, quote)| + 1, Normal)
  {
    var s := [quote] + Doubled(n, quote);
    assert s[1..] == Doubled(n, quote);
    NameFirst(d, s, quote);
    NameOpen(n, quote);
    hide First, QuotedIdentEnd;
  }

  /** Two names are in quotes alike only when they are the same. */
  lemma {:induction false} DoubledApart(m: string, n: string, quote: char)
    requires Doubled(m, quote) == Doubled(n, quote)
    ensures m == n
  {
    if m != "" && n != "" {
      var x, y := Doubled(m, quote), Doubled(n, quote);
      assert x[0] == m[0] && y[0] == n[0];
      var k := if m[0] == quote then 2 else 1;
      assert x[k..] == Doubled(m[1..], quote) && y[k..] == Doubled(n[1..], quote);
      DoubledApart(m[1..], n[1..], quote);
      assert m == [m[0]] + m[1..] && n == [n[0]] + n[1..];
    }
  }

  lemma SpanIs(s: string, p: char -> bool, n: nat)
    requires n <= |s| && (forall k :: 0 <= k < n ==> p(s[k])) && (n < |s| ==> !p(s[n]))
    ensures Span(s, p) == n
  {
  }

  /** In brackets, a name runs to the first closing one. */
  lemma BracketReads(d: Dialect, n: string, rest: string)
    requires d.bracketIdent && UsualQuotes(d) && ']' !in n
    ensures First(d, "[" + n + "]" + rest, Normal) == Lexeme(QuotedIdent, |n| + 2, Normal)
    ensures First(d, "[" + n, Normal) == Lexeme(QuotedIdent, |n| + 1, Normal)
  {
    var s, t := "[" + n + "]" + rest, "[" + n;
    assert s[1..] == n + "]" + rest && t[1..] == n;
    forall k | 0 <= k < |n| ensures IsNotBracket(s[1..][k]) && IsNotBracket(t[1..][k]) { assert n[k] in n; }
    SpanIs(s[1..], IsNotBracket, |n|);
    SpanIs(t[1..], IsNotBracket, |n|);
    hide Span, IsNotBracket;
  }

  // ----- strings

  /** A string's text as it is written: quotes doubled and, where a backslash is an
      escape, those too. */
  function Quoted(d: Dialect, n: string, quote: char): string {
    if n == "" then ""
    else (if n[0] == quote || (n[0] == '\\' && Escapes(d)) then [n[0], n[0]] else [n[0]]) + Quoted(d, n[1..], quote)
  }

  /** Or with a backslash before each. */
  function Slashed(n: string, quote: char): string {
    if n == "" then "" else (if n[0] == quote || n[0] == '\\' then ['\\', n[0]] else [n[0]]) + Slashed(n[1..], quote)
  }

  predicate QuotesStrings(d: Dialect, quote: char) { quote == '\'' || (quote == '"' && d.doubleQuotedStrings) }

  lemma {:induction false} StringCloses(d: Dialect, n: string, quote: char, rest: string)
    requires quote != '\\' && Ended(rest, quote)
    ensures StringEnd(d, Quoted(d, n, quote) + [quote] + rest, quote) == (|Quoted(d, n, quote)| + 1, true)
  {
    hide StringEnd;
    var s := Quoted(d, n, quote) + [quote] + rest;
    StringEndUnfolds(d, s, quote);
    if n == "" {
      assert s == [quote] + rest;
    } else {
      StringCloses(d, n[1..], quote, rest);
      var more := Quoted(d, n[1..], quote) + [quote] + rest;
      if n[0] == quote || (n[0] == '\\' && Escapes(d)) { assert s[2..] == more; } else { assert s[1..] == more; }
    }
  }

  lemma {:induction false} StringOpen(d: Dialect, n: string, quote: char)
    requires quote != '\\'
    ensures StringEnd(d, Quoted(d, n, quote), quote) == (|Quoted(d, n, quote)|, false)
  {
    hide StringEnd;
    var s := Quoted(d, n, quote);
    if n == "" {
      StringNothing(d, quote);
    } else {
      StringEndUnfolds(d, s, quote);
      StringOpen(d, n[1..], quote);
      var more := Quoted(d, n[1..], quote);
      if n[0] == quote || (n[0] == '\\' && Escapes(d)) { assert s[2..] == more; } else { assert s[1..] == more; }
    }
  }

  lemma StringNothing(d: Dialect, quote: char)
    ensures StringEnd(d, "", quote) == (0, false)
  {
  }

  lemma {:induction false} SlashedCloses(d: Dialect, n: string, quote: char, rest: string)
    requires Escapes(d) && quote != '\\' && Ended(rest, quote)
    ensures StringEnd(d, Slashed(n, quote) + [quote] + rest, quote) == (|Slashed(n, quote)| + 1, true)
  {
    hide StringEnd;
    var s := Slashed(n, quote) + [quote] + rest;
    StringEndUnfolds(d, s, quote);
    if n == "" {
      assert s == [quote] + rest;
    } else {
      SlashedCloses(d, n[1..], quote, rest);
      var more := Slashed(n[1..], quote) + [quote] + rest;
      if n[0] == quote || n[0] == '\\' { assert s[2..] == more; } else { assert s[1..] == more; }
    }
  }

  lemma StringFirst(d: Dialect, s: string, quote: char)
    requires QuotesStrings(d, quote) && s != "" && s[0] == quote
    ensures var r := StringEnd(d, s[1..], quote);
      First(d, s, Normal) == Lexeme(String, 1 + r.0, if r.1 then Normal else InString(quote))
  {
    hide StringEnd;
  }

  /** Any text at all, put in quotes, is one string; and not closed, it runs to its
      line's end and is still open there. */
  lemma StringReads(d: Dialect, n: string, quote: char, rest: string)
    requires QuotesStrings(d, quote) && Ended(rest, quote)
    ensures First(d, [quote] + Quoted(d, n, quote) + [quote] + rest, Normal) == Lexeme(String, |Quoted(d, n, quote)| + 2, Normal)
    ensures First(d, [quote] + Quoted(d, n, quote), Normal) == Lexeme(String, |Quoted(d, n, quote)| + 1, InString(quote))
    ensures Escapes(d) ==>
      First(d, [quote] + Slashed(n, quote) + [quote] + rest, Normal) == Lexeme(String, |Slashed(n, quote)| + 2, Normal)
  {
    var text, slashed := Quoted(d, n, quote), Slashed(n, quote);
    var s, t, u := [quote] + text + [quote] + rest, [quote] + text, [quote] + slashed + [quote] + rest;
    assert s[1..] == text + [quote] + rest && t[1..] == text && u[1..] == slashed + [quote] + rest;
    hide First, StringEnd, Quoted, Slashed;
    StringFirst(d, s, quote);
    StringFirst(d, t, quote);
    StringFirst(d, u, quote);
    StringCloses(d, n, quote, rest);
    StringOpen(d, n, quote);
    if Escapes(d) { SlashedCloses(d, n, quote, rest); }
  }

  /** A body between dollar tags runs to the first closing one. */
  lemma DollarReads(d: Dialect, tag: string, body: string, rest: string)
    requires d.dollarQuote && UsualQuotes(d) && forall c :: c in tag ==> IsDollarTagPart(c)
    requires forall k :: 0 <= k < |body| ==> !(Closer(tag) <= (body + Closer(tag) + rest)[k..])
    ensures First(d, Closer(tag) + body + Closer(tag) + rest, Normal) == Lexeme(String, |body| + 2 * |Closer(tag)|, Normal)
  {
    var s, after := Closer(tag) + body + Closer(tag) + rest, body + Closer(tag) + rest;
    OpenerIs(s, tag);
    AfterOpener(tag, body, rest);
    IndexIs(after, Closer(tag), |body|);
    hide IndexOf, DollarOpener, Closer, First, IsDollarTagPart;
    DollarFirst(d, s);
  }

  lemma AfterOpener(tag: string, body: string, rest: string)
    ensures var s, after := Closer(tag) + body + Closer(tag) + rest, body + Closer(tag) + rest;
      Closer(tag) <= s && s[0] == '$' && s[|tag| + 2..] == after && after[|body|..] == Closer(tag) + rest && Closer(tag) <= after[|body|..]
  {
    var s, after := Closer(tag) + body + Closer(tag) + rest, body + Closer(tag) + rest;
    assert s == Closer(tag) + after;
  }

  lemma OpenerIs(s: string, tag: string)
    requires Closer(tag) <= s && forall c :: c in tag ==> IsDollarTagPart(c)
    ensures DollarOpener(s) == |tag| + 2 && s[1..|tag| + 1] == tag
  {
    assert s[..|tag| + 2] == Closer(tag);
    forall k | 0 <= k < |tag| ensures s[1..][k] == tag[k] && tag[k] in tag { assert s[k + 1] == Closer(tag)[k + 1]; }
    assert s[|tag| + 1] == Closer(tag)[|tag| + 1] == '$';
    SpanIs(s[1..], IsDollarTagPart, |tag|);
    hide Span, IsDollarTagPart;
  }

  lemma DollarFirst(d: Dialect, s: string)
    requires d.dollarQuote && UsualQuotes(d) && s != "" && s[0] == '$' && DollarOpener(s) > 0
    ensures First(d, s, Normal) == DollarLexeme(s, DollarOpener(s), s[1..DollarOpener(s) - 1])
  {
    hide DollarOpener, DollarLexeme;
  }

  /** Where a text first stands. */
  lemma {:induction false} IndexIs(s: string, closer: string, at: nat)
    requires at <= |s| && closer <= s[at..] && forall k :: 0 <= k < at ==> !(closer <= s[k..])
    ensures IndexOf(s, closer) == (at, true)
  {
    assert s[0..] == s;
    if at > 0 {
      forall k | 0 <= k < at - 1 ensures !(closer <= s[1..][k..]) { assert s[1..][k..] == s[k + 1..]; }
      assert s[1..][at - 1..] == s[at..];
      IndexIs(s[1..], closer, at - 1);
    }
  }

  // ----- comments

  /** Two dashes, or what else begins a comment of a line, make one of all of it. */
  lemma LineCommentReads(d: Dialect, text: string)
    ensures First(d, "--" + text, Normal) == Lexeme(Comment, |text| + 2, Normal)
    ensures d.hashComment ==> First(d, "#" + text, Normal) == Lexeme(Comment, |text| + 1, Normal)
    ensures d.slashComment ==> First(d, "//" + text, Normal) == Lexeme(Comment, |text| + 2, Normal)
  {
    hide CommentLexeme;
  }

  /** Nothing in it closes a comment or, where they nest, opens one. */
  predicate Quiet(d: Dialect, text: string) { forall k :: 0 <= k < |text| ==> QuietAt(d, text, k) }

  predicate QuietAt(d: Dialect, text: string, k: nat)
    requires k < |text|
  {
    && !(text[k] == '*' && k + 1 < |text| && text[k + 1] == '/')
    && (d.nestedComments ==> !(text[k] == '/' && (k + 1 == |text| || text[k + 1] == '*')))
  }

  lemma {:induction false} QuietCloses(d: Dialect, text: string, rest: string)
    requires Quiet(d, text)
    ensures CommentEnd(d, text + "*/" + rest, 1) == (|text| + 2, 0, true)
  {
    hide CommentEnd;
    var s := text + "*/" + rest;
    CommentEndUnfolds(d, s, 1);
    if text != "" {
      assert s[1..] == text[1..] + "*/" + rest;
      if |text| == 1 { assert s[1] == '*'; } else { assert s[1] == text[1]; }
      QuietLess(d, text);
      QuietCloses(d, text[1..], rest);
    }
  }

  lemma QuietLess(d: Dialect, text: string)
    requires Quiet(d, text) && text != ""
    ensures Quiet(d, text[1..]) && QuietAt(d, text, 0)
  {
    forall k | 0 <= k < |text[1..]| ensures QuietAt(d, text[1..], k) { assert QuietAt(d, text, k + 1); }
  }

  lemma CommentFirst(d: Dialect, s: string)
    requires |s| > 1 && s[0] == '/' && s[1] == '*' && UsualQuotes(d)
    ensures var r := CommentEnd(d, s[2..], 1); First(d, s, Normal) == Lexeme(Comment, 2 + r.0, if r.2 then Normal else InComment(r.1))
  {
    hide CommentEnd;
  }

  /** A comment is one lexeme, from its opener to its closer. */
  lemma CommentReads(d: Dialect, text: string, rest: string)
    requires UsualQuotes(d) && Quiet(d, text)
    ensures First(d, "/*" + text + "*/" + rest, Normal) == Lexeme(Comment, |text| + 4, Normal)
  {
    var s := "/*" + text + "*/" + rest;
    assert s[2..] == text + "*/" + rest;
    hide First, CommentEnd;
    CommentFirst(d, s);
    QuietCloses(d, text, rest);
  }

  // ----- words and numbers

  /** What follows a word cannot be more of it. */
  predicate Past(rest: string, p: char -> bool) { rest == "" || !p(rest[0]) }

  predicate IsWord(w: string) { w != "" && IsIdentStart(w[0]) && forall k :: 0 <= k < |w| ==> IsIdentPart(w[k]) }

  predicate Blank(s: string) { forall k :: 0 <= k < |s| ==> s[k] == ' ' || s[k] == '\t' }

  /** A bracket opens past some white space. */
  predicate BracketNext(rest: string) { exists k :: 0 <= k < |rest| && rest[k] == '(' && Blank(rest[..k]) }

  /** A word is read whole; it is a keyword, a type or else, where a bracket opens
      after it and some white space, a function if it can be one, and a name if not. */
  lemma WordReads(d: Dialect, w: string, rest: string)
    requires UsualQuotes(d) && IsWord(w) && Past(rest, IsIdentPart)
    ensures var x := First(d, w + rest, Normal);
      && x.len == |w| && x.next == Normal
      && (x.kind == Keyword <==> d.isKeyword(w))
      && (x.kind == Type <==> !d.isKeyword(w) && d.isType(w))
      && (x.kind == Function <==> !d.isKeyword(w) && !d.isType(w) && d.isFunction(w) && BracketNext(rest))
      && (x.kind == Keyword || x.kind == Type || x.kind == Function || x.kind == Identifier)
  {
    var s := w + rest;
    assert s[0] == w[0];
    SpanIs(s, IsIdentPart, |w|);
    assert s[..|w|] == w && s[|w|..] == rest;
    CalledIs(rest);
    hide Span, IsCalled;
    WordFirst(d, s);
  }

  lemma WordFirst(d: Dialect, s: string)
    requires UsualQuotes(d) && s != "" && IsIdentStart(s[0])
    ensures var n := Span(s, IsIdentPart); First(d, s, Normal) == Lexeme(WordKind(d, s[..n], s[n..]), n, Normal)
  {
    hide WordKind;
  }

  lemma CalledIs(rest: string)
    ensures IsCalled(rest) <==> BracketNext(rest)
  {
    var j := Span(rest, IsSpaceOrTab);
    if IsCalled(rest) {
      forall k | 0 <= k < |rest[..j]| ensures rest[..j][k] == ' ' || rest[..j][k] == '\t' { assert IsSpaceOrTab(rest[k]); }
      assert rest[j] == '(' && Blank(rest[..j]);
    }
    if k :| 0 <= k < |rest| && rest[k] == '(' && Blank(rest[..k]) {
      forall i | 0 <= i < k ensures IsSpaceOrTab(rest[i]) { assert rest[..k][i] == rest[i]; }
      SpanIs(rest, IsSpaceOrTab, k);
    }
  }

  /** Digits with points and underscores among them, the first or second a digit. */
  predicate IsMantissa(m: string) {
    && m != "" && (forall k :: 0 <= k < |m| ==> IsNumberPart(m[k]))
    && (IsDigit(m[0]) || (m[0] == '.' && |m| > 1 && IsDigit(m[1])))
  }

  predicate AreDigits(s: string) { s != "" && forall k :: 0 <= k < |s| ==> IsDigit(s[k]) }

  predicate IsExponent(x: string) { x == "e" || x == "E" || x == "e+" || x == "E+" || x == "e-" || x == "E-" }

  lemma NumberFirst(d: Dialect, s: string)
    requires UsualQuotes(d) && s != "" && (IsDigit(s[0]) || (s[0] == '.' && |s| > 1 && IsDigit(s[1])))
    ensures First(d, s, Normal) == Lexeme(Number, NumberLen(s), Normal)
  {
    hide NumberLen;
  }

  /** A number without an exponent. */
  lemma NumberReads(d: Dialect, m: string, rest: string)
    requires UsualQuotes(d) && IsMantissa(m) && Past(rest, IsNumberPart) && (rest != "" ==> rest[0] != 'e' && rest[0] != 'E')
    ensures First(d, m + rest, Normal) == Lexeme(Number, |m|, Normal)
  {
    var s := m + rest;
    SpanIs(s, IsNumberPart, |m|);
    NumberFirst(d, s);
  }

  /** And with one: its sign and all its digits. */
  lemma ExponentReads(d: Dialect, m: string, x: string, digits: string, rest: string)
    requires UsualQuotes(d) && IsMantissa(m) && IsExponent(x) && AreDigits(digits) && Past(rest, IsDigit)
    ensures First(d, m + x + digits + rest, Normal) == Lexeme(Number, |m| + |x| + |digits|, Normal)
  {
    ExponentLen(m, x, digits, rest);
    var s := m + x + digits + rest;
    assert s[0] == m[0] && (|m| > 1 ==> s[1] == m[1]);
    hide NumberLen, First;
    NumberFirst(d, s);
  }

  lemma ExponentLen(m: string, x: string, digits: string, rest: string)
    requires IsMantissa(m) && IsExponent(x) && AreDigits(digits) && Past(rest, IsDigit)
    ensures NumberLen(m + x + digits + rest) == |m| + |x| + |digits|
  {
    var s := m + x + digits + rest;
    var j := |m| + |x|;
    assert s[|m|] == x[0] && (|x| == 2 ==> s[|m| + 1] == x[1]) && s[j] == digits[0];
    assert forall k :: 0 <= k < |m| ==> s[k] == m[k];
    SpanIs(s, IsNumberPart, |m|);
    assert s[j..] == digits + rest;
    SpanIs(s[j..], IsDigit, |digits|);
    hide Span;
  }

  /** A letter e that no digits follow is not of the number. */
  lemma NoExponent(d: Dialect, m: string, x: string, rest: string)
    requires UsualQuotes(d) && IsMantissa(m) && IsExponent(x) && Past(rest, IsDigit)
    requires |x| == 1 ==> Past(rest, c => c == '+' || c == '-')
    ensures First(d, m + x + rest, Normal) == Lexeme(Number, |m|, Normal)
  {
    var s := m + x + rest;
    assert s[|m|] == x[0] && (|x| == 2 ==> s[|m| + 1] == x[1]) && (rest != "" ==> s[|m| + |x|] == rest[0]);
    assert forall k :: 0 <= k < |m| ==> s[k] == m[k];
    SpanIs(s, IsNumberPart, |m|);
    hide Span;
    NumberFirst(d, s);
  }

  /** A parameter by name. */
  lemma NamedReads(d: Dialect, w: string, rest: string)
    requires UsualQuotes(d) && IsWord(w) && Past(rest, IsIdentPart)
    ensures First(d, ":" + w + rest, Normal) == Lexeme(Parameter, |w| + 1, Normal)
  {
    var s := ":" + w + rest;
    assert s[1..] == w + rest && s[1] == w[0];
    SpanIs(s[1..], IsIdentPart, |w|);
    hide Span;
  }

  /** By its number. */
  lemma NumberedReads(d: Dialect, digits: string, rest: string)
    requires UsualQuotes(d) && AreDigits(digits) && Past(rest, IsIdentPart)
    ensures First(d, "$" + digits + rest, Normal) == Lexeme(Parameter, |digits| + 1, Normal)
  {
    var s := "$" + digits + rest;
    assert s[1..] == digits + rest && s[1] == digits[0];
    SpanIs(s[1..], IsDigit, |digits|);
    SpanIs(s[1..], IsDollarTagPart, |digits|);
    hide Span;
    assert DollarOpener(s) == 0;
  }

  /** Or by its place alone; and punctuation is one character at a time. */
  lemma OneReads(d: Dialect, c: char, rest: string)
    requires UsualQuotes(d)
    ensures First(d, "?" + rest, Normal) == Lexeme(Parameter, 1, Normal)
    ensures (c == '(' || c == ')' || c == ',' || c == ';') ==> First(d, [c] + rest, Normal) == Lexeme(Punctuation, 1, Normal)
  {
    hide Span;
  }

  /** Its first two characters begin neither a comment of this dialect nor, as a
      colon and a letter do, a parameter. */
  predicate OnlyOperator(d: Dialect, s: string) {
    |s| > 1 ==>
      && !(s[0] == '-' && s[1] == '-') && !(s[0] == '/' && s[1] == '*') && !(d.slashComment && s[0] == '/' && s[1] == '/')
      && !(s[0] == ':' && IsIdentStart(s[1]))
  }

  lemma OperatorFirst(d: Dialect, s: string)
    requires UsualQuotes(d) && s != "" && IsOperator(s[0]) && OnlyOperator(d, s)
    ensures First(d, s, Normal) == Lexeme(Operator, Span(s, IsOperator), Normal)
  {
    hide Span, CommentLexeme, StringLexeme, DollarLexeme;
  }

  /** An operator is as many of its characters as stand together. */
  lemma OperatorReads(d: Dialect, op: string, rest: string)
    requires UsualQuotes(d) && op != "" && (forall k :: 0 <= k < |op| ==> IsOperator(op[k])) && Past(rest, IsOperator)
    requires OnlyOperator(d, op + rest)
    ensures First(d, op + rest, Normal) == Lexeme(Operator, |op|, Normal)
  {
    hide First;
    assert (op + rest)[0] == op[0];
    SpanIs(op + rest, IsOperator, |op|);
    OperatorFirst(d, op + rest);
  }

  /** So one that stands directly before a comment takes its opener in, and what
      was to be a comment is read as code. */
  lemma CommentTakenIn(d: Dialect, text: string)
    requires UsualQuotes(d) && Past(text, IsOperator)
    ensures First(d, "+--" + text, Normal) == Lexeme(Operator, 3, Normal)
    ensures First(d, "+/*" + text, Normal) == Lexeme(Operator, 3, Normal)
  {
    hide First;
    OperatorReads(d, "+--", text);
    OperatorReads(d, "+/*", text);
  }
}
