/** A whole text's tokens, as the formatter takes them (internal/sqlfmt/tokens.go). */
module SqlTokens {
  import opened SqlLex
  import opened SqlText

  /** What the Go library knows of letters and white space. */
  datatype Unicode = Unicode(
    blank: string -> bool,               // nothing is left of it when trimmed
    lower: string -> string, upper: string -> string, trim: string -> string,
    equalFold: (string, string) -> bool)

  /** A token and its offsets in the whole text; `spaced` marks a bracket that
      must stand off from what precedes it. */
  datatype Tok = Tok(kind: TokenKind, text: string, spaced: bool, from: nat, to: nat)

  // ----- a text into tokens

  /** The tokens of what is left of a line, blank ones dropped. */
  function LineToks(u: Unicode, d: Dialect, s: string, st: State, base: nat): seq<Tok> {
    if s == [] then []
    else
      var x := First(d, s, st);
      var rest := LineToks(u, d, s[x.len..], x.next, base + x.len);
      if u.blank(s[..x.len]) then rest
      else [Tok(x.kind, s[..x.len], false, base, base + x.len)] + rest
  }

  /** The tokens of a text that begins, at base, in this state. */
  function TextToks(u: Unicode, d: Dialect, text: string, st: State, base: nat): seq<Tok>
    decreases |text|
  {
    var line := FirstLine(text);
    LineToks(u, d, line, st, base)
    + if |line| == |text| then []
      else TextToks(u, d, text[|line| + 1..], EndState(d, line, st), base + |line| + 1)
  }

  /** What a text leaves open. */
  function TextEnd(d: Dialect, text: string, st: State): State
    decreases |text|
  {
    var line := FirstLine(text);
    var next := EndState(d, line, st);
    if |line| == |text| then next else TextEnd(d, text[|line| + 1..], next)
  }

  function Lex(u: Unicode, d: Dialect, text: string): seq<Tok> { TextToks(u, d, text, Normal, 0) }

  predicate Within(tokens: seq<Token>, n: nat) {
    forall k :: 0 <= k < |tokens| ==> tokens[k].start <= tokens[k].end <= n
  }

  function TextOf(line: string, t: Token): string {
    if t.start <= t.end <= |line| then line[t.start..t.end] else ""
  }

  function Kept(u: Unicode, line: string, tokens: seq<Token>, base: nat): seq<Tok> {
    if tokens == [] then [] else KeptOne(u, line, tokens[0], base) + Kept(u, line, tokens[1..], base)
  }

  function KeptOne(u: Unicode, line: string, t: Token, base: nat): seq<Tok> {
    var text := TextOf(line, t);
    if u.blank(text) then [] else [Tok(t.kind, text, false, base + t.start, base + t.end)]
  }

  lemma Assoc<T>(a: seq<T>, b: seq<T>, c: seq<T>)
    ensures (a + b) + c == a + (b + c)
  {}

  /** The lexer's own tokens, kept where they are not blank, are the line's. */
  lemma {:induction false} KeptLine(u: Unicode, d: Dialect, line: string, at: nat, st: State, base: nat)
    requires at <= |line|
    ensures var tokens := Placed(Pieces(d, line[at..], st), at);
      Within(tokens, |line|) && Kept(u, line, tokens, base) == LineToks(u, d, line[at..], st, base + at)
    decreases |line| - at
  {
    hide First, Pieces, Placed, Kept, LineToks;
    var s := line[at..];
    UnfoldOnce(d, s, st, at);
    LineUnfolds(u, d, s, st, base + at);
    if s == [] {
      KeptNone(u, line, base);
    } else {
      var x := First(d, s, st);
      assert s[x.len..] == line[at + x.len..] && s[..x.len] == line[at..at + x.len];
      KeptLine(u, d, line, at + x.len, x.next, base);
      KeptFirst(u, line, Token(x.kind, at, at + x.len), Placed(Pieces(d, line[at + x.len..], x.next), at + x.len), base);
    }
  }

  lemma LineUnfolds(u: Unicode, d: Dialect, s: string, st: State, base: nat)
    ensures s == [] ==> LineToks(u, d, s, st, base) == []
    ensures s != [] ==>
      var x := First(d, s, st);
      LineToks(u, d, s, st, base)
        == (if u.blank(s[..x.len]) then [] else [Tok(x.kind, s[..x.len], false, base, base + x.len)])
           + LineToks(u, d, s[x.len..], x.next, base + x.len)
  {
    hide First;
  }

  lemma KeptNone(u: Unicode, line: string, base: nat)
    ensures Kept(u, line, [], base) == []
  {}

  lemma KeptFirst(u: Unicode, line: string, t: Token, rest: seq<Token>, base: nat)
    ensures Kept(u, line, [t] + rest, base) == KeptOne(u, line, t, base) + Kept(u, line, rest, base)
  {
    assert ([t] + rest)[1..] == rest;
  }

  /** The text before base is read: out holds its tokens, and the rest will follow. */
  ghost predicate ReadTo(u: Unicode, d: Dialect, text: string, base: nat, st: State, out: seq<Tok>) {
    && base <= |text|
    && Lex(u, d, text) == out + TextToks(u, d, text[base..], st, base)
    && TextEnd(d, text, Normal) == TextEnd(d, text[base..], st)
  }

  lemma ReadLine(u: Unicode, d: Dialect, text: string, base: nat, st: State, out: seq<Tok>)
    requires ReadTo(u, d, text, base, st, out)
    ensures var line := FirstLine(text[base..]);
      var next, kept := EndState(d, line, st), LineToks(u, d, line, st, base);
      if base + |line| == |text| then Lex(u, d, text) == out + kept && TextEnd(d, text, Normal) == next
      else ReadTo(u, d, text, base + |line| + 1, next, out + kept)
  {
    hide LineToks, EndState, FirstLine;
    var line := FirstLine(text[base..]);
    if base + |line| < |text| {
      assert text[base..][|line| + 1..] == text[base + |line| + 1..];
      Assoc(out, LineToks(u, d, line, st, base),
        TextToks(u, d, text[base + |line| + 1..], EndState(d, line, st), base + |line| + 1));
    } else {
      assert LineToks(u, d, line, st, base) + [] == LineToks(u, d, line, st, base);
    }
  }

  /** Goes through the lines of a text, giving their tokens and the state the last
      of them ends in. */
  method LexOn(u: Unicode, d: Dialect, text: string) returns (out: seq<Tok>, end: State)
    ensures out == Lex(u, d, text) && end == TextEnd(d, text, Normal)
  {
    hide ReadTo, Lex, TextEnd, Pieces, Placed, LineToks, EndState;
    var lx := new Lexer(d);
    var base := 0;
    out, end := [], Normal;
    ReadNothing(u, d, text);
    while true
      invariant fresh(lx) && lx.d == d && base <= |text|
      invariant ReadTo(u, d, text, base, end, out)
      decreases |text| - base
    {
      ReadLine(u, d, text, base, end, out);
      var line := FirstLine(text[base..]);
      assert line[0..] == line;
      KeptLine(u, d, line, 0, end, base);
      var toks;
      toks, end := lx.LexLine(line, end);
      var kept := KeepLine(u, line, toks, base);
      out := out + kept;
      if base + |line| == |text| { return; }
      base := base + |line| + 1;
    }
  }

  lemma ReadNothing(u: Unicode, d: Dialect, text: string)
    ensures ReadTo(u, d, text, 0, Normal, [])
  {
    assert text[0..] == text;
  }

  method KeepOne(u: Unicode, line: string, t: Token, base: nat) returns (out: seq<Tok>)
    requires t.start <= t.end <= |line|
    ensures out == KeptOne(u, line, t, base)
  {
    var text := line[t.start..t.end];
    if u.blank(text) { return []; }
    return [Tok(t.kind, text, false, base + t.start, base + t.end)];
  }

  method KeepLine(u: Unicode, line: string, tokens: seq<Token>, base: nat) returns (out: seq<Tok>)
    requires Within(tokens, |line|)
    ensures out == Kept(u, line, tokens, base)
  {
    hide KeptOne;
    out := [];
    for i := 0 to |tokens|
      invariant out + Kept(u, line, tokens[i..], base) == Kept(u, line, tokens, base)
    {
      var t := tokens[i];
      assert tokens[i..][1..] == tokens[i + 1..];
      Assoc(out, KeptOne(u, line, t, base), Kept(u, line, tokens[i + 1..], base));
      var one := KeepOne(u, line, t, base);
      out := out + one;
    }
  }

  // ----- saying the same thing

  /** Kinds of token that may be written in either case. */
  predicate CaseFree(k: TokenKind) { k == Keyword || k == Type || k == Function }

  predicate SameTok(u: Unicode, a: Tok, b: Tok) {
    a.kind == b.kind && (a.text == b.text || (CaseFree(a.kind) && u.equalFold(a.text, b.text)))
  }

  predicate Same(u: Unicode, a: seq<Tok>, b: seq<Tok>) {
    |a| == |b| && forall i :: 0 <= i < |a| ==> SameTok(u, a[i], b[i])
  }

  method IsSame(u: Unicode, a: seq<Tok>, b: seq<Tok>) returns (same: bool)
    ensures same <==> Same(u, a, b)
    ensures same <==> |a| == |b| && forall i :: 0 <= i < |a| ==>
      && a[i].kind == b[i].kind
      && (a[i].text != b[i].text ==> a[i].kind in [Keyword, Type, Function] && u.equalFold(a[i].text, b[i].text))
  {
    if |a| != |b| { return false; }
    for i := 0 to |a|
      invariant forall k :: 0 <= k < i ==> SameTok(u, a[k], b[k])
    {
      if a[i].kind != b[i].kind { return false; }
      if a[i].text == b[i].text { continue; }
      if !CaseFree(a[i].kind) || !u.equalFold(a[i].text, b[i].text) { return false; }
    }
    return true;
  }
}
