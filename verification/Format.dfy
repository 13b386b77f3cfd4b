/** Laying a script out statement by statement, and checking that each still
    says what it said (internal/sqlfmt/format.go). */
module SqlFormat {
  import opened SqlLex
  import opened SqlText
  import opened SqlTokens
  import opened SqlCut
  import opened SqlLayout

  /** What is left unsaid, filled in. */
  function With(opt: Options): Options {
    opt.(indent := if opt.indent == "" then "    " else opt.indent, width := if opt.width <= 0 then 80 else opt.width)
  }

  /** A bracket that holds a table's columns rather than a call's arguments. */
  predicate IsColumnList(u: Unicode, toks: seq<Tok>, i: nat)
    requires i < |toks|
  {
    i >= 2 && toks[i].text == "(" && Callable(u, toks[i - 1]) && Word(u, toks[i - 2], TABLES)
  }

  function Marked(u: Unicode, toks: seq<Tok>): (r: seq<Tok>)
    ensures |r| == |toks|
  {
    seq(|toks|, i requires 0 <= i < |toks| => if IsColumnList(u, toks, i) then toks[i].(spaced := true) else toks[i])
  }

  method MarkColumnLists(u: Unicode, toks: seq<Tok>) returns (out: seq<Tok>)
    ensures out == Marked(u, toks)
  {
    hide Callable, Word;
    out := toks;
    if |toks| < 2 { return; }
    for i := 2 to |toks|
      invariant |out| == |toks|
      invariant forall k :: 0 <= k < |toks| ==> out[k] == if k < i then Marked(u, toks)[k] else toks[k]
    {
      if toks[i].text != "(" || !Callable(u, toks[i - 1]) { continue; }
      if Word(u, toks[i - 2], TABLES) {
        out := out[i := toks[i].(spaced := true)];
      }
    }
  }

  // ----- one statement

  /** The layout of one statement, and whether reading it gives the statement again. */
  function One(u: Unicode, d: Dialect, stmt: seq<Tok>, opt: Options): (string, bool) {
    if exists t :: t in stmt && t.kind == Error then ("", false)
    else
      var out := Rendered(u, StatementLines(u, stmt, opt), opt);
      (out, Same(u, stmt, Lex(u, d, out)))
  }

  method LayOut(u: Unicode, d: Dialect, stmt: seq<Tok>, opt: Options) returns (out: string, ok: bool)
    ensures (out, ok) == One(u, d, stmt, opt)
  {
    hide Rendered, StatementLines, Lex, Same;
    for i := 0 to |stmt|
      invariant forall k :: 0 <= k < i ==> stmt[k].kind != Error
    {
      if stmt[i].kind == Error {
        assert stmt[i] in stmt;
        return "", false;
      }
    }
    out := WriteOne(u, stmt, opt);
    var again, _ := LexOn(u, d, out);
    ok := IsSame(u, stmt, again);
  }

  function Slice(text: string, from: nat, to: nat): string {
    if from <= to <= |text| then text[from..to] else ""
  }

  /** Exactly the bytes a statement was written in. */
  function AsWritten(text: string, stmt: seq<Tok>): string {
    if stmt == [] then "" else Slice(text, stmt[0].from, stmt[|stmt| - 1].to)
  }

  /** Whether the original bytes are kept: the layout would read otherwise, or this
      is the last statement and the text stops inside something. */
  predicate Left(u: Unicode, d: Dialect, stmt: seq<Tok>, last: bool, end: State, opt: Options) {
    !One(u, d, stmt, opt).1 || (last && !end.Normal?)
  }

  function StatementText(u: Unicode, d: Dialect, text: string, stmt: seq<Tok>, last: bool, end: State, opt: Options): string {
    if Left(u, d, stmt, last, end, opt) then AsWritten(text, stmt) + "\n" else One(u, d, stmt, opt).0
  }

  // ----- a script

  /** The statements from k on, a blank line between each and the next. */
  function Script(u: Unicode, d: Dialect, text: string, stmts: seq<seq<Tok>>, k: nat, end: State, opt: Options): string
    requires k < |stmts|
    decreases |stmts| - k
  {
    StatementText(u, d, text, stmts[k], k == |stmts| - 1, end, opt)
    + if k == |stmts| - 1 then "" else "\n" + Script(u, d, text, stmts, k + 1, end, opt)
  }

  function Formatted(u: Unicode, d: Dialect, text: string, opt: Options): string {
    var toks := Lex(u, d, text);
    if toks == [] then text
    else
      assert Concat(Statements(Marked(u, toks))) != [];
      Script(u, d, text, Statements(Marked(u, toks)), 0, TextEnd(d, text, Normal), With(opt))
  }

  function CountLeft(u: Unicode, d: Dialect, stmts: seq<seq<Tok>>, k: nat, end: State, opt: Options): nat
    requires k <= |stmts|
    decreases |stmts| - k
  {
    if k == |stmts| then 0
    else (if Left(u, d, stmts[k], k == |stmts| - 1, end, opt) then 1 else 0) + CountLeft(u, d, stmts, k + 1, end, opt)
  }

  /** Lays a script out, and says how many of its statements were left as written. */
  method Format(u: Unicode, d: Dialect, text: string, opts: Options) returns (b: string, left: nat)
    ensures b == Formatted(u, d, text, opts)
    ensures left == CountLeft(u, d, Statements(Marked(u, Lex(u, d, text))), 0, TextEnd(d, text, Normal), With(opts))
  {
    hide Lex, TextEnd, One, Script, Marked;
    var opt := With(opts);
    var toks, end := LexOn(u, d, text);
    if |toks| == 0 {
      NoStatements(u, toks);
      return text, 0;
    }
    toks := MarkColumnLists(u, toks);
    var stmts := CutAfter(toks, ";");
    b, left := "", 0;
    for i := 0 to |stmts|
      invariant i == 0 <==> b == ""
      invariant Whole(u, d, text, stmts, i, end, opt, b)
      invariant left + CountLeft(u, d, stmts, i, end, opt) == CountLeft(u, d, stmts, 0, end, opt)
    {
      hide StatementText, CountLeft, Whole, AsWritten;
      assert stmts[i] in stmts;
      WholeStep(u, d, text, stmts, i, end, opt, b);
      CountStep(u, d, stmts, i, end, opt);
      if b != "" { b := b + "\n"; }
      var piece, kept := WriteStatement(u, d, text, stmts[i], i == |stmts| - 1, end, opt);
      b := b + piece;
      left := left + kept;
    }
  }

  /** One statement's part of the output, and whether it was left as written. */
  method WriteStatement(u: Unicode, d: Dialect, text: string, stmt: seq<Tok>, last: bool, end: State, opt: Options)
      returns (piece: string, kept: nat)
    requires stmt != []
    ensures piece == StatementText(u, d, text, stmt, last, end, opt) != ""
    ensures kept == if Left(u, d, stmt, last, end, opt) then 1 else 0
  {
    hide One;
    var out, ok := LayOut(u, d, stmt, opt);
    if !ok || (last && !end.Normal?) {
      return Slice(text, stmt[0].from, stmt[|stmt| - 1].to) + "\n", 1;
    }
    LaidOutText(u, d, stmt, opt);
    return out, 0;
  }

  /** What is written so far, and what is still to be. */
  ghost predicate Whole(u: Unicode, d: Dialect, text: string, stmts: seq<seq<Tok>>, i: nat, end: State, opt: Options, b: string)
    requires i <= |stmts| && stmts != []
  {
    Script(u, d, text, stmts, 0, end, opt)
      == b + if i == |stmts| then "" else (if b != "" then "\n" else "") + Script(u, d, text, stmts, i, end, opt)
  }

  lemma WholeStep(u: Unicode, d: Dialect, text: string, stmts: seq<seq<Tok>>, i: nat, end: State, opt: Options, b: string)
    requires i < |stmts| && Whole(u, d, text, stmts, i, end, opt, b)
    ensures var piece := StatementText(u, d, text, stmts[i], i == |stmts| - 1, end, opt);
      piece != "" ==> Whole(u, d, text, stmts, i + 1, end, opt, (if b != "" then b + "\n" else b) + piece)
  {
    hide StatementText, Script;
    ScriptUnfolds(u, d, text, stmts, i, end, opt);
  }

  lemma CountStep(u: Unicode, d: Dialect, stmts: seq<seq<Tok>>, k: nat, end: State, opt: Options)
    requires k < |stmts|
    ensures CountLeft(u, d, stmts, k, end, opt)
         == (if Left(u, d, stmts[k], k == |stmts| - 1, end, opt) then 1 else 0) + CountLeft(u, d, stmts, k + 1, end, opt)
  {
    hide Left;
  }

  lemma ScriptUnfolds(u: Unicode, d: Dialect, text: string, stmts: seq<seq<Tok>>, k: nat, end: State, opt: Options)
    requires k < |stmts|
    ensures Script(u, d, text, stmts, k, end, opt)
         == StatementText(u, d, text, stmts[k], k == |stmts| - 1, end, opt)
            + if k == |stmts| - 1 then "" else "\n" + Script(u, d, text, stmts, k + 1, end, opt)
  {
    hide StatementText;
  }

  lemma NoStatements(u: Unicode, toks: seq<Tok>)
    requires toks == []
    ensures Statements(Marked(u, toks)) == []
  {}

  /** A statement that came back the same was written as something, in whole lines. */
  lemma LaidOutText(u: Unicode, d: Dialect, stmt: seq<Tok>, opt: Options)
    requires stmt != [] && One(u, d, stmt, opt).1
    ensures var out := One(u, d, stmt, opt).0; out != "" && out[|out| - 1] == '\n'
  {
    hide StatementLines, TextToks;
    var lines := StatementLines(u, stmt, opt);
    if lines == [] {
      Nothing(u, d, Normal, 0);
    } else {
      EndsInNewline(u, lines, opt);
    }
  }

  lemma {:induction false} EndsInNewline(u: Unicode, lines: seq<Line>, opt: Options)
    requires lines != []
    ensures var out := Rendered(u, lines, opt); out != "" && out[|out| - 1] == '\n'
  {
    if |lines| > 1 { EndsInNewline(u, lines[1..], opt); }
  }

  // ----- where a statement stands among the tokens

  function Offset(parts: seq<seq<Tok>>, k: nat): nat
    requires k <= |parts|
  {
    if k == 0 then 0 else |parts[0]| + Offset(parts[1..], k - 1)
  }

  /** Statement k is the run of tokens at its offset, ended by a semicolon
      unless it is the last, which ends the tokens. */
  ghost predicate StandsAt(toks: seq<Tok>, start: nat, parts: seq<seq<Tok>>, k: nat, separator: string)
    requires k < |parts|
  {
    var a := start + Offset(parts, k);
    var b := a + |parts[k]|;
    && a < b <= |toks| && parts[k] == toks[a..b]
    && (k + 1 == |parts| ==> b == |toks|)
    && (k + 1 < |parts| ==> Ends(toks, b - 1, separator) && start + Offset(parts, k + 1) == b)
    && (k > 0 ==> a > 0 && Ends(toks, a - 1, separator))
  }

  lemma {:induction false} PieceStands(toks: seq<Tok>, separator: string, start: nat, i: nat, k: nat)
    requires start <= i <= |toks| && k < |PiecesAfter(toks, separator, start, i)|
    ensures StandsAt(toks, start, PiecesAfter(toks, separator, start, i), k, separator)
    decreases |toks| - i
  {
    hide Ends, Concat;
    var parts := PiecesAfter(toks, separator, start, i);
    if i < |toks| && Ends(toks, i, separator) {
      var rest := PiecesAfter(toks, separator, i + 1, i + 1);
      if rest == [] { NothingLeft(toks, separator, i + 1); }
      if rest != [] { PieceStands(toks, separator, i + 1, i + 1, if k == 0 then 0 else k - 1); }
      StandsLater(toks, start, i, rest, k, separator);
    } else if i < |toks| {
      PieceStands(toks, separator, start, i + 1, k);
    }
  }

  lemma NothingLeft(toks: seq<Tok>, separator: string, start: nat)
    requires start <= |toks| && PiecesAfter(toks, separator, start, start) == []
    ensures start == |toks|
  {
    assert Concat(PiecesAfter(toks, separator, start, start)) == toks[start..];
  }

  lemma OffsetNext(p: seq<Tok>, rest: seq<seq<Tok>>, k: nat)
    requires k <= |rest|
    ensures Offset([p] + rest, k + 1) == |p| + Offset(rest, k)
  {
    assert ([p] + rest)[1..] == rest;
  }

  lemma StandsLater(toks: seq<Tok>, start: nat, i: nat, rest: seq<seq<Tok>>, k: nat, separator: string)
    requires start <= i < |toks| && k <= |rest| && Ends(toks, i, separator)
    requires rest == [] ==> i + 1 == |toks|
    requires rest != [] ==> StandsAt(toks, i + 1, rest, if k == 0 then 0 else k - 1, separator)
    ensures StandsAt(toks, start, [toks[start..i + 1]] + rest, k, separator)
  {
    hide Offset, Ends;
    var p := toks[start..i + 1];
    assert Offset([p] + rest, 0) == 0 && Offset(rest, 0) == 0 by { OffsetZero([p] + rest); OffsetZero(rest); }
    if k == 0 {
      OffsetNext(p, rest, 0);
    } else {
      assert ([p] + rest)[k] == rest[k - 1];
      OffsetNext(p, rest, k - 1);
      OffsetNext(p, rest, k);
    }
  }

  lemma OffsetZero(parts: seq<seq<Tok>>)
    ensures Offset(parts, 0) == 0
  {}

  // ----- nothing is said differently

  /** Wherever the script is cut in two, it is at a semicolon of its own: none that
      stands outside brackets is a whole line within a quote or a comment. */
  ghost predicate CutsOutside(toks: seq<Tok>) {
    forall i :: 0 <= i < |toks| - 1 && Ends(toks, i, ";") ==> toks[i].kind == Punctuation
  }

  lemma MarkedSays(u: Unicode, toks: seq<Tok>)
    ensures Said(Marked(u, toks)) == Said(toks)
    ensures forall k :: 0 <= k < |toks| ==> var m := Marked(u, toks)[k];
      m.from == toks[k].from && m.to == toks[k].to && m.kind == toks[k].kind && m.text == toks[k].text
  {
    hide IsColumnList;
  }

  lemma SameConcat(u: Unicode, a: seq<Tok>, b: seq<Tok>, a': seq<Tok>, b': seq<Tok>)
    requires Same(u, a, a') && Same(u, b, b')
    ensures Same(u, a + b, a' + b')
  {
    hide SameTok;
    forall i | 0 <= i < |a + b| ensures SameTok(u, (a + b)[i], (a' + b')[i]) {
      if i < |a| { assert SameTok(u, a[i], a'[i]); } else { assert SameTok(u, b[i - |a|], b'[i - |a|]); }
    }
  }

  lemma SaidSame(u: Unicode, a: seq<Tok>, b: seq<Tok>)
    requires Said(a) == Said(b)
    ensures Same(u, a, b)
  {
    assert |Said(a)| == |a| && |Said(b)| == |b|;
    assert forall i :: 0 <= i < |a| ==> Said(a)[i] == Said(b)[i];
    assert forall i :: 0 <= i < |a| ==> a[i].kind == b[i].kind && a[i].text == b[i].text;
  }

  /** A statement as it was written reads as the tokens it was. */
  lemma WrittenSays(u: Unicode, d: Dialect, text: string, a: nat, b: nat)
    requires KnowsBlank(u) && CutsOutside(Lex(u, d, text))
    requires var toks := Lex(u, d, text);
      && a < b <= |toks|
      && (a > 0 ==> Ends(toks, a - 1, ";")) && (b < |toks| ==> Ends(toks, b - 1, ";"))
    ensures var toks := Lex(u, d, text);
      TextToks(u, d, Slice(text, toks[a].from, toks[b - 1].to), Normal, toks[a].from) == toks[a..b]
  {
    hide TextToks, KnowsBlank;
    var toks := TextToks(u, d, text, Normal, 0);
    hide Ends;
    ReadFrom(u, d, text, Normal, 0, a);
    var from := toks[a].from;
    var rest := text[from..];
    assert toks[a..][b - 1 - a] == toks[b - 1];
    assert CutAt(toks[a..], b - 1 - a);
    ReadUpTo(u, d, rest, Normal, from, b - 1 - a);
    assert rest[..toks[b - 1].to - from] == text[from..toks[b - 1].to];
    assert toks[a..][..b - a] == toks[a..b];
  }

  /** A newline at the end of a text adds no token. */
  lemma TrailingNewline(u: Unicode, d: Dialect, q: string)
    ensures Lex(u, d, q + "\n") == Lex(u, d, q)
  {
    hide TextToks, TextEnd;
    JoinToks(u, d, q, "", Normal, 0);
    Nothing(u, d, TextEnd(d, q, Normal), |q| + 1);
    assert q + "\n" + "" == q + "\n";
    assert TextToks(u, d, q, Normal, 0) + [] == TextToks(u, d, q, Normal, 0);
  }

  /** A statement laid out reads, but for its last newline, as something the same. */
  lemma LaidOutSays(u: Unicode, d: Dialect, stmt: seq<Tok>, opt: Options) returns (q: string)
    requires stmt != [] && One(u, d, stmt, opt).1
    ensures One(u, d, stmt, opt).0 == q + "\n" && Same(u, stmt, Lex(u, d, q))
  {
    hide Rendered, StatementLines, Lex, Same;
    LaidOutText(u, d, stmt, opt);
    var out := One(u, d, stmt, opt).0;
    q := out[..|out| - 1];
    assert out == q + "\n";
    TrailingNewline(u, d, q);
  }

  /** What is written for the statement at a says what its tokens say, and, when
      a semicolon ends it, leaves what follows outside any region. */
  lemma StatementSays(u: Unicode, d: Dialect, text: string, a: nat, b: nat, last: bool, opt: Options) returns (q: string)
    requires KnowsBlank(u) && CutsOutside(Lex(u, d, text))
    requires var toks := Lex(u, d, text);
      && a < b <= |toks| && (last <==> b == |toks|)
      && (a > 0 ==> Ends(toks, a - 1, ";")) && (b < |toks| ==> Ends(toks, b - 1, ";"))
    ensures var toks := Lex(u, d, text);
      && StatementText(u, d, text, Marked(u, toks)[a..b], last, TextEnd(d, text, Normal), opt) == q + "\n"
      && Same(u, toks[a..b], Lex(u, d, q))
    ensures !last ==> TextEnd(d, q, Normal).Normal?
  {
    hide TextEnd, Lex, One, Left, KnowsBlank, Marked, Same, Ends;
    var toks := Lex(u, d, text);
    var stmt := Marked(u, toks)[a..b];
    if Left(u, d, stmt, last, TextEnd(d, text, Normal), opt) {
      q := AsWritten(text, stmt);
      LeftSays(u, d, text, a, b);
    } else {
      LeftOtherwise(u, d, stmt, last, TextEnd(d, text, Normal), opt);
      q := LaidOutSays(u, d, stmt, opt);
      MarkedSays(u, toks);
      SaidPart(Marked(u, toks), toks, a, b);
      SameSaid(u, stmt, Lex(u, d, q), toks[a..b], Lex(u, d, q));
    }
    if !last {
      SameEnd(u, toks[a..b], Lex(u, d, q));
      assert toks[a..b][b - a - 1] == toks[b - 1];
      EndsNormalLex(u, d, q);
    }
  }

  lemma LeftOtherwise(u: Unicode, d: Dialect, stmt: seq<Tok>, last: bool, end: State, opt: Options)
    requires !Left(u, d, stmt, last, end, opt)
    ensures One(u, d, stmt, opt).1
  {
    hide One;
  }

  lemma EndsNormalLex(u: Unicode, d: Dialect, q: string)
    requires KnowsBlank(u) && Lex(u, d, q) != [] && Lex(u, d, q)[|Lex(u, d, q)| - 1].kind == Punctuation
    ensures TextEnd(d, q, Normal).Normal?
  {
    hide TextToks, TextEnd;
    EndsNormal(u, d, q, Normal, 0);
  }

  lemma LeftSays(u: Unicode, d: Dialect, text: string, a: nat, b: nat)
    requires KnowsBlank(u) && CutsOutside(Lex(u, d, text))
    requires var toks := Lex(u, d, text);
      && a < b <= |toks|
      && (a > 0 ==> Ends(toks, a - 1, ";")) && (b < |toks| ==> Ends(toks, b - 1, ";"))
    ensures var toks := Lex(u, d, text);
      Same(u, toks[a..b], Lex(u, d, AsWritten(text, Marked(u, toks)[a..b])))
  {
    hide TextToks, KnowsBlank, Marked, Ends;
    var toks := Lex(u, d, text);
    MarkedSays(u, toks);
    var q := AsWritten(text, Marked(u, toks)[a..b]);
    WrittenSays(u, d, text, a, b);
    SaidAnywhere(u, d, q, Normal, toks[a].from, 0);
    SaidSame(u, toks[a..b], TextToks(u, d, q, Normal, 0));
  }

  lemma SaidPart(a: seq<Tok>, b: seq<Tok>, i: nat, j: nat)
    requires Said(a) == Said(b) && i <= j <= |a|
    ensures |a| == |b| && Said(a[i..j]) == Said(b[i..j])
  {
    assert |Said(a)| == |a| && |Said(b)| == |b|;
    assert Said(a[i..j]) == Said(a)[i..j] && Said(b[i..j]) == Said(b)[i..j];
  }

  lemma SameEnd(u: Unicode, a: seq<Tok>, b: seq<Tok>)
    requires Same(u, a, b) && a != []
    ensures |a| == |b| && b[|b| - 1].kind == a[|a| - 1].kind
  {
    assert SameTok(u, a[|a| - 1], b[|b| - 1]);
  }

  /** The tokens a statement is. */
  lemma StatementPlace(u: Unicode, toks: seq<Tok>, k: nat) returns (a: nat, b: nat)
    requires k < |Statements(Marked(u, toks))|
    ensures var stmts := Statements(Marked(u, toks));
      && a == Offset(stmts, k) && a < b <= |toks| && stmts[k] == Marked(u, toks)[a..b]
      && (a > 0 ==> Ends(toks, a - 1, ";")) && (b < |toks| ==> Ends(toks, b - 1, ";"))
      && (k == |stmts| - 1 <==> b == |toks|)
      && (k < |stmts| - 1 ==> Offset(stmts, k + 1) == b)
  {
    hide Marked, PiecesAfter, Offset, Ends;
    var marked := Marked(u, toks);
    var stmts := Statements(marked);
    PieceStands(marked, ";", 0, 0, k);
    if k + 1 < |stmts| { PieceStands(marked, ";", 0, 0, k + 1); }
    OffsetZero(stmts);
    a := Offset(stmts, k);
    b := a + |stmts[k]|;
    if a > 0 { MarkedEnds(u, toks, a - 1); }
    MarkedEnds(u, toks, b - 1);
  }

  /** Marking the brackets of columns moves no cut. */
  lemma MarkedEnds(u: Unicode, toks: seq<Tok>, i: nat)
    requires i < |toks|
    ensures Ends(Marked(u, toks), i, ";") <==> Ends(toks, i, ";")
  {
    hide IsColumnList;
    MarkedDepth(u, toks, i);
  }

  lemma {:induction false} MarkedDepth(u: Unicode, toks: seq<Tok>, i: nat)
    requires i <= |toks|
    ensures DepthAt(Marked(u, toks), i) == DepthAt(toks, i)
  {
    hide IsColumnList;
    if i > 0 { MarkedDepth(u, toks, i - 1); }
  }

  /** From statement k on, the output says what the tokens from it on say. */
  lemma {:induction false} ScriptSays(u: Unicode, d: Dialect, text: string, k: nat, opt: Options)
    requires KnowsBlank(u) && CutsOutside(Lex(u, d, text))
    requires k < |Statements(Marked(u, Lex(u, d, text)))|
    ensures var toks := Lex(u, d, text); var stmts := Statements(Marked(u, toks));
      && Offset(stmts, k) <= |toks|
      && Same(u, toks[Offset(stmts, k)..], Lex(u, d, Script(u, d, text, stmts, k, TextEnd(d, text, Normal), opt)))
    decreases |Statements(Marked(u, Lex(u, d, text)))| - k
  {
    hide Lex, TextEnd, Script, StatementText, Marked, Same, KnowsBlank, CutsOutside, Offset, PiecesAfter, Ends;
    var toks, end := Lex(u, d, text), TextEnd(d, text, Normal);
    var stmts := Statements(Marked(u, toks));
    var a, b := StatementPlace(u, toks, k);
    var last := k == |stmts| - 1;
    var q := StatementSays(u, d, text, a, b, last, opt);
    ScriptUnfolds(u, d, text, stmts, k, end, opt);
    if last {
      assert q + "\n" + "" == q + "\n" && toks[a..] == toks[a..b];
      TrailingNewline(u, d, q);
    } else {
      ScriptSays(u, d, text, k + 1, opt);
      assert toks[a..b] + toks[b..] == toks[a..];
      BlankLineBetween(u, d, toks[a..b], q, toks[b..], Script(u, d, text, stmts, k + 1, end, opt));
    }
  }

  /** Two texts with a blank line between say what each says, the first having
      ended outside any region. */
  lemma BlankLineBetween(u: Unicode, d: Dialect, a: seq<Tok>, q: string, b: seq<Tok>, more: string)
    requires Same(u, a, Lex(u, d, q)) && Same(u, b, Lex(u, d, more)) && TextEnd(d, q, Normal).Normal?
    ensures Same(u, a + b, Lex(u, d, q + "\n" + ("\n" + more)))
  {
    hide TextToks, TextEnd, Same;
    JoinToks(u, d, q, "\n" + more, Normal, 0);
    PeelNewline(u, d, "\n" + more, Normal, |q| + 1);
    assert ("\n" + more)[1..] == more;
    SaidAnywhere(u, d, more, Normal, 0, |q| + 2);
    SameSaid(u, b, TextToks(u, d, more, Normal, 0), b, TextToks(u, d, more, Normal, |q| + 2));
    SameConcat(u, a, b, TextToks(u, d, q, Normal, 0), TextToks(u, d, more, Normal, |q| + 2));
  }

  /** Formatting never changes what a script says: its tokens come out the same,
      in order, only SQL's own words in another case. */
  lemma FormatSays(u: Unicode, d: Dialect, text: string, opt: Options)
    requires KnowsBlank(u) && CutsOutside(Lex(u, d, text))
    ensures Same(u, Lex(u, d, text), Lex(u, d, Formatted(u, d, text, opt)))
    ensures var a, b := Lex(u, d, text), Lex(u, d, Formatted(u, d, text, opt));
      |a| == |b| && forall i :: 0 <= i < |a| ==>
        && a[i].kind == b[i].kind
        && (a[i].text != b[i].text ==> a[i].kind in [Keyword, Type, Function] && u.equalFold(a[i].text, b[i].text))
  {
    hide Lex, Script, Marked, KnowsBlank, CutsOutside, Formatted;
    FormattedSame(u, d, text, opt);
  }

  lemma FormattedSame(u: Unicode, d: Dialect, text: string, opt: Options)
    requires KnowsBlank(u) && CutsOutside(Lex(u, d, text))
    ensures Same(u, Lex(u, d, text), Lex(u, d, Formatted(u, d, text, opt)))
  {
    hide Lex, Script, Marked, KnowsBlank, CutsOutside;
    var toks := Lex(u, d, text);
    if toks == [] {
      SaidSame(u, toks, toks);
    } else {
      assert Concat(Statements(Marked(u, toks))) != [];
      ScriptSays(u, d, text, 0, With(opt));
      assert toks[0..] == toks;
    }
  }

  // ----- why a semicolon must be one

  const OPENER := "/*"
  const SEMICOLON := ";"
  const INNER := "/**/"
  const CLOSER := "--*/"

  /** A comment of four lines, the second a lone semicolon. */
  const SPLIT_COMMENT := OPENER + "\n" + (SEMICOLON + "\n" + (INNER + "\n" + CLOSER))

  function LineTok(kind: TokenKind, text: string, from: nat): Tok { Tok(kind, text, false, from, from + |text|) }
  function CommentTok(text: string, from: nat): Tok { LineTok(Comment, text, from) }
  function StringTok(text: string, from: nat): Tok { LineTok(String, text, from) }

  /** A line that is one lexeme is one token. */
  lemma OneLexeme(u: Unicode, d: Dialect, line: string, kind: TokenKind, st: State, next: State, base: nat)
    requires line != [] && '\n' !in line && !u.blank(line)
    requires First(d, line, st) == Lexeme(kind, |line|, next)
    ensures TextToks(u, d, line, st, base) == [LineTok(kind, line, base)] && TextEnd(d, line, st) == next
  {
    hide First;
    FirstLineIs(line, line);
    assert line[..|line|] == line && line[|line|..] == "";
    LineUnfolds(u, d, line, st, base);
    LineUnfolds(u, d, "", next, base + |line|);
    EndUnfolds(d, line, st);
  }

  const JOINED := "/**/ --*/"
  const GLUED := "/*;"

  /** A line that opens a comment. */
  lemma OpensComment(d: Dialect, s: string)
    requires |s| > 1 && s[0] == '/' && s[1] == '*'
    ensures First(d, s, Normal) == CommentLexeme(d, s, 2, 1)
  {
    hide CommentLexeme, NextPlain;
  }

  lemma DashLine(d: Dialect, s: string)
    requires |s| > 1 && s[0] == '-' && s[1] == '-'
    ensures First(d, s, Normal) == Lexeme(Comment, |s|, Normal)
  {
    hide CommentLexeme, NextPlain;
  }

  lemma InsideLine(d: Dialect, s: string, depth: uint8)
    ensures s != [] ==> First(d, s, InComment(depth)) == CommentLexeme(d, s, 0, depth)
  {
    hide CommentLexeme, Next;
  }

  lemma OpenLines(d: Dialect)
    ensures First(d, OPENER, Normal) == Lexeme(Comment, 2, InComment(1))
    ensures First(d, GLUED, Normal) == Lexeme(Comment, 3, InComment(1))
    ensures First(d, JOINED, Normal) == Lexeme(Comment, 4, Normal)
  {
    hide First;
    OpensComment(d, OPENER);
    OpensComment(d, GLUED);
    OpensComment(d, JOINED);
    assert OPENER[2..] == "" && GLUED[2..] == ";" && JOINED[2..] == "*/" + " --*/";
    EndOf(d, "", 1);
    EndOf(d, ";", 1);
    EndOfCloser(d, " --*/", 1);
  }

  lemma InsideLines(d: Dialect)
    requires d.nestedComments
    ensures First(d, SEMICOLON, InComment(1)) == Lexeme(Comment, 1, InComment(1))
    ensures First(d, INNER, InComment(1)) == Lexeme(Comment, 4, InComment(1))
    ensures First(d, CLOSER, InComment(1)) == Lexeme(Comment, 4, Normal)
  {
    hide First, CommentEnd;
    InsideLine(d, SEMICOLON, 1);
    InsideLine(d, INNER, 1);
    InsideLine(d, CLOSER, 1);
    assert SEMICOLON[0..] == SEMICOLON && INNER[0..] == INNER && CLOSER[0..] == CLOSER;
    EndOf(d, SEMICOLON, 1);
    CommentEndUnfolds(d, INNER, 1);
    assert INNER[2..] == "*/" + "";
    EndOfCloser(d, "", 2);
    EndOf(d, "", 1);
    TwoDashes(d, 1);
  }

  lemma JoinedInside(d: Dialect)
    requires d.nestedComments
    ensures First(d, JOINED, InComment(1)) == Lexeme(Comment, 9, Normal)
  {
    hide First, CommentEnd;
    InsideLine(d, JOINED, 1);
    assert JOINED[0..] == JOINED && JOINED[2..] == "*/" + " --*/";
    CommentEndUnfolds(d, JOINED, 1);
    EndOfCloser(d, " --*/", 2);
    CommentEndUnfolds(d, " --*/", 1);
    assert " --*/"[1..] == CLOSER;
    TwoDashes(d, 1);
  }

  lemma EndOf(d: Dialect, s: string, depth: uint8)
    requires |s| <= 1
    ensures CommentEnd(d, s, depth) == (|s|, depth, false)
  {}

  lemma EndOfCloser(d: Dialect, rest: string, depth: uint8)
    ensures var r := CommentEnd(d, "*/" + rest, depth);
      if depth == 1 then r == (2, 0, true)
      else depth > 1 ==> var r' := CommentEnd(d, rest, depth - 1); r == (2 + r'.0, r'.1, r'.2)
  {
    assert ("*/" + rest)[2..] == rest;
    CommentEndUnfolds(d, "*/" + rest, depth);
  }

  lemma TwoDashes(d: Dialect, depth: uint8)
    requires depth == 1
    ensures CommentEnd(d, CLOSER, depth) == (4, 0, true)
  {
    assert CLOSER[1..] == "-*/" && "-*/"[1..] == "*/";
    CommentEndUnfolds(d, CLOSER, 1);
    CommentEndUnfolds(d, "-*/", 1);
    EndOfCloser(d, "", 1);
    assert "*/" + "" == "*/";
  }

  lemma NotBlank(u: Unicode, s: string)
    requires KnowsBlank(u) && s != [] && !IsSpaceLike(s[0])
    ensures !u.blank(s)
  {}

  /** The whole comment reads as its four lines. */
  lemma SplitReads(u: Unicode, d: Dialect)
    requires KnowsBlank(u) && d.nestedComments
    ensures Lex(u, d, SPLIT_COMMENT)
         == [CommentTok(OPENER, 0), CommentTok(SEMICOLON, 3), CommentTok(INNER, 5), CommentTok(CLOSER, 10)]
    ensures TextEnd(d, SPLIT_COMMENT, Normal) == Normal
  {
    hide First, TextToks, TextEnd, KnowsBlank;
    OpenLines(d);
    InsideLines(d);
    NotBlank(u, OPENER);
    NotBlank(u, SEMICOLON);
    NotBlank(u, INNER);
    NotBlank(u, CLOSER);
    OneLexeme(u, d, OPENER, Comment, Normal, InComment(1), 0);
    OneLexeme(u, d, SEMICOLON, Comment, InComment(1), InComment(1), 3);
    OneLexeme(u, d, INNER, Comment, InComment(1), InComment(1), 5);
    OneLexeme(u, d, CLOSER, Comment, InComment(1), Normal, 10);
    JoinToks(u, d, INNER, CLOSER, InComment(1), 5);
    JoinToks(u, d, SEMICOLON, INNER + "\n" + CLOSER, InComment(1), 3);
    JoinToks(u, d, OPENER, SEMICOLON + "\n" + (INNER + "\n" + CLOSER), Normal, 0);
  }

  /** Two comments, the second one a line comment: laid out, they share a line. */
  lemma CommentPairLines(u: Unicode, x: Tok, y: Tok, opt: Options)
    requires x.kind == y.kind == Comment && !IsLineComment(x) && IsLineComment(y)
    requires x.text != "(" && x.text != ")" && x.text != "," && y.text != "(" && y.text != ")" && y.text != ","
    ensures StatementLines(u, [x, y], opt) == [Run(0, [x, y])]
  {
    hide Inline, LineText, Fits;
    var stmt := [x, y];
    assert stmt[1] in stmt && HasLineComment(stmt);
    assert NextTop(u, stmt, 0) == NextTop(u, stmt, 1) == NextTop(u, stmt, 2) == 2;
    assert ClausesFrom(u, stmt, 2) == [];
    assert stmt[0..0] == [] && stmt[0..2] == stmt;
    var c := Clause([], stmt);
    assert ClausesOf(u, stmt) == [c];
    assert [c][1..] == [];
    PairClause(u, x, y, opt);
    assert ClausesLines(u, [c], 0, opt, 2) == ClauseLines(u, c, 0, opt) + ClausesLines(u, [], 0, opt, 2);
  }

  lemma PairClause(u: Unicode, x: Tok, y: Tok, opt: Options)
    requires x.kind == y.kind == Comment && !IsLineComment(x) && IsLineComment(y)
    requires x.text != "(" && x.text != ")" && x.text != "," && y.text != "(" && y.text != ")" && y.text != ","
    ensures ClauseLines(u, Clause([], [x, y]), 0, opt) == [Run(0, [x, y])]
  {
    hide LineText, Fits, Matching;
    var stmt := [x, y];
    assert stmt[1] in stmt && HasLineComment(stmt);
    assert stmt[0..] == stmt && stmt[0..2] == stmt;
    assert PiecesAfter(stmt, ",", 0, 2) == [stmt] && PiecesAfter(stmt, ",", 0, 1) == [stmt] && Items(stmt) == [stmt];
    assert PiecesBefore(stmt, Conjunction(u), 0, 2) == [stmt] && PiecesBefore(stmt, Conjunction(u), 0, 1) == [stmt];
    assert Split(stmt, Conjunction(u)) == [stmt];
    assert CaseFrom(u, stmt, 1) == 2 && CaseFrom(u, stmt, 0) == 2;
    assert OpenFrom(stmt, 1) == 2 && OpenFrom(stmt, 0) == 2;
    assert LeafLines(stmt, 2, 2, 0) == [] && LeafLines(stmt, 0, 1, 0) == [Run(0, stmt)];
    var one: seq<seq<Tok>> := [stmt];
    assert one[1..] == [];
    assert ItemLines(u, stmt, 0, opt) == [Run(0, stmt)];
    assert PartsLines(u, [stmt], 0, opt, 2) == [Run(0, stmt)] + PartsLines(u, [], 0, opt, 2);
  }

  lemma PairInline(u: Unicode, x: Tok, y: Tok, opt: Options)
    requires !CaseFree(x.kind) && !CaseFree(y.kind)
    ensures Inline(u, [x, y], opt) == x.text + (if SpaceBetween(u, x, y) then " " else "") + y.text
    ensures Inline(u, [], opt) == ""
  {
    hide SpaceBetween;
    assert [x, y][..1] == [x] && [x][..0] == [];
    assert Inline(u, [x], opt) == x.text;
  }

  lemma PairText(u: Unicode, x: Tok, y: Tok, opt: Options)
    requires x.kind == y.kind == Comment
    ensures Rendered(u, [Run(0, [x, y])], opt)
         == x.text + (if SpaceBetween(u, x, y) then " " else "") + y.text + "\n"
  {
    PairInline(u, x, y, opt);
    hide SpaceBetween, Inline, Rendered;
    RenderedOne(u, Run(0, [x, y]), opt);
    assert Pad(opt, 0) == "" && "" + Inline(u, [x, y], opt) == Inline(u, [x, y], opt);
  }

  /** The opener and the semicolon, laid out on one line, are one comment: not the same. */
  lemma FirstIsLeft(u: Unicode, d: Dialect, opt: Options)
    requires KnowsBlank(u) && d.nestedComments
    ensures !One(u, d, [CommentTok(OPENER, 0), CommentTok(SEMICOLON, 3)], opt).1
  {
    hide First, TextToks, TextEnd, KnowsBlank, Rendered, StatementLines;
    var x, y := CommentTok(OPENER, 0), CommentTok(SEMICOLON, 3);
    CommentPairLines(u, x, y, opt);
    PairText(u, x, y, opt);
    assert x.text + "" + y.text + "\n" == GLUED + "\n";
    TrailingNewline(u, d, GLUED);
    OpenLines(d);
    NotBlank(u, GLUED);
    OneLexeme(u, d, GLUED, Comment, Normal, InComment(1), 0);
  }

  /** The other two lines, on one line and outside a comment, are two comments. */
  lemma JoinedReads(u: Unicode, d: Dialect)
    requires KnowsBlank(u) && u.blank(" ") && d.nestedComments
    ensures Lex(u, d, JOINED) == [CommentTok(INNER, 0), CommentTok(CLOSER, 5)]
  {
    hide First, FirstLine, TextToks, TextEnd, KnowsBlank;
    FirstLineIs(JOINED, JOINED);
    OpenLines(d);
    NotBlank(u, INNER);
    assert JOINED[..4] == INNER && JOINED[4..] == " --*/";
    Peel(u, d, JOINED, Normal, 0);
    SpacedDashes(u, d);
  }

  lemma SpacedDashes(u: Unicode, d: Dialect)
    requires KnowsBlank(u) && u.blank(" ")
    ensures TextToks(u, d, " --*/", Normal, 4) == [CommentTok(CLOSER, 5)]
  {
    hide First, FirstLine, TextToks, TextEnd, KnowsBlank;
    FirstLineIs(" --*/", " --*/");
    SpaceFirst(d);
    assert " --*/"[..1] == " " && " --*/"[1..] == CLOSER;
    Peel(u, d, " --*/", Normal, 4);
    DashLine(d, CLOSER);
    NotBlank(u, CLOSER);
    OneLexeme(u, d, CLOSER, Comment, Normal, Normal, 5);
  }

  lemma SpaceFirst(d: Dialect)
    ensures First(d, " --*/", Normal) == Lexeme(Text, 1, Normal)
  {
    hide NextPlain;
    assert Span(" --*/"[1..], IsBlankByte) == 0;
  }

  lemma SecondIsLaidOut(u: Unicode, d: Dialect, opt: Options)
    requires KnowsBlank(u) && u.blank(" ") && d.nestedComments
    ensures One(u, d, [CommentTok(INNER, 5), CommentTok(CLOSER, 10)], opt) == (JOINED + "\n", true)
  {
    hide TextToks, TextEnd, KnowsBlank, Rendered, StatementLines;
    var x, y := CommentTok(INNER, 5), CommentTok(CLOSER, 10);
    assert "/*"[0] != CLOSER[0];
    CommentPairLines(u, x, y, opt);
    PairText(u, x, y, opt);
    assert x.text + " " + y.text + "\n" == JOINED + "\n";
    TrailingNewline(u, d, JOINED);
    JoinedReads(u, d);
    assert Same(u, [x, y], [CommentTok(INNER, 0), CommentTok(CLOSER, 5)]);
  }

  lemma SplitStatements(u: Unicode, d: Dialect)
    requires KnowsBlank(u) && d.nestedComments
    ensures Statements(Marked(u, Lex(u, d, SPLIT_COMMENT)))
         == [[CommentTok(OPENER, 0), CommentTok(SEMICOLON, 3)], [CommentTok(INNER, 5), CommentTok(CLOSER, 10)]]
  {
    hide First, TextToks, KnowsBlank, Callable, Word;
    SplitReads(u, d);
    var toks := Lex(u, d, SPLIT_COMMENT);
    assert Marked(u, toks) == toks;
    assert DepthAt(toks, 1) == 0 && DepthAt(toks, 2) == 0 && DepthAt(toks, 3) == 0;
    assert Ends(toks, 1, ";") && !Ends(toks, 0, ";") && !Ends(toks, 2, ";") && !Ends(toks, 3, ";");
    assert PiecesAfter(toks, ";", 2, 4) == [toks[2..]] && PiecesAfter(toks, ";", 2, 3) == [toks[2..]]
        && PiecesAfter(toks, ";", 2, 2) == [toks[2..]];
    assert PiecesAfter(toks, ";", 0, 1) == [toks[0..2]] + [toks[2..]];
    assert toks[0..2] == [CommentTok(OPENER, 0), CommentTok(SEMICOLON, 3)];
    assert toks[2..] == [CommentTok(INNER, 5), CommentTok(CLOSER, 10)];
  }

  lemma SplitFormatted(u: Unicode, d: Dialect, opt: Options)
    requires KnowsBlank(u) && u.blank(" ") && d.nestedComments
    ensures Formatted(u, d, SPLIT_COMMENT, opt)
         == OPENER + "\n" + (SEMICOLON + "\n" + ("\n" + (JOINED + "\n")))
  {
    hide First, TextToks, TextEnd, KnowsBlank, One, Marked;
    SplitReads(u, d);
    SplitStatements(u, d);
    FirstIsLeft(u, d, With(opt));
    SecondIsLaidOut(u, d, With(opt));
    var stmts := Statements(Marked(u, Lex(u, d, SPLIT_COMMENT)));
    ScriptUnfolds(u, d, SPLIT_COMMENT, stmts, 0, Normal, With(opt));
    ScriptUnfolds(u, d, SPLIT_COMMENT, stmts, 1, Normal, With(opt));
    assert SPLIT_COMMENT[0..4] == OPENER + "\n" + SEMICOLON;
    assert Script(u, d, SPLIT_COMMENT, stmts, 1, Normal, With(opt)) == JOINED + "\n";
  }

  /** The condition is needed: where comments nest, a comment with a lone
      semicolon on one of its lines comes out as three comment tokens, not four. */
  lemma FormatCanSayOtherwise(u: Unicode, d: Dialect, opt: Options)
    requires KnowsBlank(u) && u.blank(" ") && d.nestedComments
    ensures !Same(u, Lex(u, d, SPLIT_COMMENT), Lex(u, d, Formatted(u, d, SPLIT_COMMENT, opt)))
  {
    hide First, TextToks, TextEnd, KnowsBlank, Formatted;
    SplitReads(u, d);
    SplitFormatted(u, d, opt);
    OpenLines(d);
    InsideLines(d);
    JoinedInside(d);
    NotBlank(u, OPENER);
    NotBlank(u, SEMICOLON);
    NotBlank(u, JOINED);
    OneLexeme(u, d, OPENER, Comment, Normal, InComment(1), 0);
    OneLexeme(u, d, SEMICOLON, Comment, InComment(1), InComment(1), 3);
    var tail := "\n" + (JOINED + "\n");
    JoinToks(u, d, OPENER, SEMICOLON + "\n" + tail, Normal, 0);
    JoinToks(u, d, SEMICOLON, tail, InComment(1), 3);
    PeelNewline(u, d, tail, InComment(1), 5);
    assert tail[1..] == JOINED + "\n" + "";
    JoinToks(u, d, JOINED, "", InComment(1), 6);
    OneLexeme(u, d, JOINED, Comment, InComment(1), Normal, 6);
    Nothing(u, d, Normal, 16);
  }

  // ----- and where strings have two kinds of quotes

  const TICK := "'"
  const TICKS := "''"
  const QUOTES := "\"\""
  const PAIR := "\"\" ''"

  /** A string of four lines, the second a lone semicolon. */
  const SPLIT_STRING := TICK + "\n" + (SEMICOLON + "\n" + (QUOTES + "\n" + TICKS))

  /** A space at the front is trimmed off, as white space is. */
  ghost predicate TrimsFront(u: Unicode) {
    forall s :: s != "" && !IsSpaceLike(s[0]) && !IsSpaceLike(s[|s| - 1]) ==> u.trim(" " + s) == s
  }

  lemma TickLines(d: Dialect)
    ensures First(d, TICK, Normal) == Lexeme(String, 1, InString('\''))
    ensures First(d, TICKS, Normal) == Lexeme(String, 2, Normal)
    ensures First(d, TICK + SEMICOLON, Normal) == Lexeme(String, 2, InString('\''))
    ensures First(d, SEMICOLON, InString('\'')) == Lexeme(String, 1, InString('\''))
    ensures First(d, TICKS, InString('\'')) == Lexeme(String, 2, Normal)
  {
    hide StringEnd;
    assert TICK[1..] == "" && TICKS[1..] == TICK && (TICK + SEMICOLON)[1..] == SEMICOLON && SEMICOLON[0..] == SEMICOLON;
    StringEndNothing(d);
    StringEndUnfolds(d, SEMICOLON, '\'');
    StringEndUnfolds(d, TICK, '\'');
    assert SEMICOLON[1..] == "";
  }

  lemma StringEndNothing(d: Dialect)
    ensures forall quote :: StringEnd(d, "", quote) == (0, false)
  {}

  lemma QuoteLines(d: Dialect)
    requires d.doubleQuotedStrings
    ensures First(d, QUOTES, InString('\'')) == Lexeme(String, 2, InString('\''))
    ensures First(d, PAIR, InString('\'')) == Lexeme(String, 5, InString('\''))
    ensures First(d, PAIR, Normal) == Lexeme(String, 2, Normal)
  {
    hide StringEnd;
    StringEndNothing(d);
    assert QUOTES[0..] == QUOTES && QUOTES[1..] == "\"" && "\""[1..] == "";
    StringEndUnfolds(d, QUOTES, '\'');
    StringEndUnfolds(d, "\"", '\'');
    assert PAIR[0..] == PAIR && PAIR[1..] == "\" ''" && "\" ''"[1..] == " ''" && " ''"[1..] == TICKS && TICKS[2..] == "";
    StringEndUnfolds(d, PAIR, '\'');
    StringEndUnfolds(d, "\" ''", '\'');
    StringEndUnfolds(d, " ''", '\'');
    StringEndUnfolds(d, TICKS, '\'');
    StringEndUnfolds(d, "\" ''", '"');
  }

  /** The whole string reads as its four lines. */
  lemma StringReads(u: Unicode, d: Dialect)
    requires KnowsBlank(u) && d.doubleQuotedStrings
    ensures Lex(u, d, SPLIT_STRING) == [StringTok(TICK, 0), StringTok(SEMICOLON, 2), StringTok(QUOTES, 4), StringTok(TICKS, 7)]
    ensures TextEnd(d, SPLIT_STRING, Normal) == Normal
  {
    hide First, TextToks, TextEnd, KnowsBlank;
    var q := InString('\'');
    TickLines(d);
    QuoteLines(d);
    NotBlank(u, TICK);
    NotBlank(u, SEMICOLON);
    NotBlank(u, QUOTES);
    NotBlank(u, TICKS);
    OneLexeme(u, d, TICK, String, Normal, q, 0);
    OneLexeme(u, d, SEMICOLON, String, q, q, 2);
    OneLexeme(u, d, QUOTES, String, q, q, 4);
    OneLexeme(u, d, TICKS, String, q, Normal, 7);
    JoinToks(u, d, QUOTES, TICKS, q, 4);
    JoinToks(u, d, SEMICOLON, QUOTES + "\n" + TICKS, q, 2);
    JoinToks(u, d, TICK, SEMICOLON + "\n" + (QUOTES + "\n" + TICKS), Normal, 0);
  }

  /** Two strings share a line when they are laid out, whatever the width. */
  lemma StringPairText(u: Unicode, x: Tok, y: Tok, opt: Options)
    requires x.kind == y.kind == String && TrimsFront(u)
    requires x.text != "(" && x.text != ")" && x.text != "," && y.text != "(" && y.text != ")" && y.text != ","
    requires x.text != "" && y.text != "" && !IsSpaceLike(x.text[0]) && !IsSpaceLike(y.text[|y.text| - 1])
    ensures Rendered(u, StatementLines(u, [x, y], opt), opt)
         == x.text + (if SpaceBetween(u, x, y) then " " else "") + y.text + "\n"
  {
    hide SpaceBetween, Rendered, StatementLines, Inline, LineText, TrimsFront, IsSpaceLike;
    var text := Inline(u, [x, y], opt);
    PairInline(u, x, y, opt);
    StringPairLines(u, x, y, opt);
    RenderedOne(u, Run(0, [x, y]), opt);
    RenderedOne(u, Joined(0, [], [x, y]), opt);
    assert text[0] == x.text[0] && text[|text| - 1] == y.text[|y.text| - 1];
    PadNothing(u, [x, y], opt);
  }

  /** At no depth a line is its tokens, whether or not a clause's words could stand first. */
  lemma PadNothing(u: Unicode, toks: seq<Tok>, opt: Options)
    requires TrimsFront(u)
    requires var text := Inline(u, toks, opt); text != "" && !IsSpaceLike(text[0]) && !IsSpaceLike(text[|text| - 1])
    ensures OneLine(u, Run(0, toks), opt) == OneLine(u, Joined(0, [], toks), opt) == Inline(u, toks, opt) + "\n"
  {
    InlineNothing(u, opt);
    hide IsSpaceLike, Inline;
    Trimmed(u, Inline(u, toks, opt));
    hide TrimsFront;
    assert Pad(opt, 0) == "";
  }

  lemma InlineNothing(u: Unicode, opt: Options)
    ensures Inline(u, [], opt) == ""
  {}

  lemma Trimmed(u: Unicode, text: string)
    requires TrimsFront(u) && text != "" && !IsSpaceLike(text[0]) && !IsSpaceLike(text[|text| - 1])
    ensures u.trim("" + " " + text) == text && "" + text == text
  {
    hide IsSpaceLike;
    assert "" + " " + text == " " + text;
  }

  lemma StringPairLines(u: Unicode, x: Tok, y: Tok, opt: Options)
    requires x.kind == y.kind == String
    requires x.text != "(" && x.text != ")" && x.text != "," && y.text != "(" && y.text != ")" && y.text != ","
    ensures var lines := StatementLines(u, [x, y], opt); lines == [Run(0, [x, y])] || lines == [Joined(0, [], [x, y])]
  {
    hide Inline, LineText, Fits;
    var stmt := [x, y];
    assert NextTop(u, stmt, 0) == NextTop(u, stmt, 1) == NextTop(u, stmt, 2) == 2;
    assert ClausesFrom(u, stmt, 2) == [];
    assert stmt[0..0] == [] && stmt[0..2] == stmt;
    var c := Clause([], stmt);
    assert ClausesOf(u, stmt) == [c];
    assert [c][1..] == [];
    StringPairClause(u, x, y, opt);
    assert ClausesLines(u, [c], 0, opt, 2) == ClauseLines(u, c, 0, opt) + ClausesLines(u, [], 0, opt, 2);
  }

  lemma StringPairClause(u: Unicode, x: Tok, y: Tok, opt: Options)
    requires x.kind == y.kind == String
    requires x.text != "(" && x.text != ")" && x.text != "," && y.text != "(" && y.text != ")" && y.text != ","
    ensures var lines := ClauseLines(u, Clause([], [x, y]), 0, opt); lines == [Run(0, [x, y])] || lines == [Joined(0, [], [x, y])]
  {
    hide LineText, Fits, Matching, Flat;
    var stmt := [x, y];
    assert stmt[0..] == stmt && stmt[0..2] == stmt;
    assert PiecesAfter(stmt, ",", 0, 2) == [stmt] && PiecesAfter(stmt, ",", 0, 1) == [stmt] && Items(stmt) == [stmt];
    assert PiecesBefore(stmt, Conjunction(u), 0, 2) == [stmt] && PiecesBefore(stmt, Conjunction(u), 0, 1) == [stmt];
    assert Split(stmt, Conjunction(u)) == [stmt];
    assert CaseFrom(u, stmt, 1) == 2 && CaseFrom(u, stmt, 0) == 2;
    assert OpenFrom(stmt, 1) == 2 && OpenFrom(stmt, 0) == 2;
    assert LeafLines(stmt, 0, 2, 0) == [Run(0, stmt)] && LeafLines(stmt, 0, 1, 0) == [Run(0, stmt)];
    var one: seq<seq<Tok>> := [stmt];
    assert one[1..] == [];
    assert ItemLines(u, stmt, 0, opt) == [Run(0, stmt)];
    assert PartsLines(u, [stmt], 0, opt, 2) == [Run(0, stmt)] + PartsLines(u, [], 0, opt, 2);
  }

  /** The first half, laid out, is one string on one line: not the same. */
  lemma TickIsLeft(u: Unicode, d: Dialect, opt: Options)
    requires KnowsBlank(u) && TrimsFront(u)
    ensures !One(u, d, [StringTok(TICK, 0), StringTok(SEMICOLON, 2)], opt).1
  {
    hide First, TextToks, TextEnd, KnowsBlank, TrimsFront, Rendered, StatementLines;
    var x, y := StringTok(TICK, 0), StringTok(SEMICOLON, 2);
    assert TICK[0] != '(' && TICK[0] != ')' && TICK[0] != ',';
    StringPairText(u, x, y, opt);
    assert x.text + "" + y.text + "\n" == TICK + SEMICOLON + "\n";
    TrailingNewline(u, d, TICK + SEMICOLON);
    TickLines(d);
    NotBlank(u, TICK + SEMICOLON);
    OneLexeme(u, d, TICK + SEMICOLON, String, Normal, InString('\''), 0);
  }

  /** The second, outside a string, is two of them. */
  lemma PairReads(u: Unicode, d: Dialect)
    requires KnowsBlank(u) && u.blank(" ") && d.doubleQuotedStrings
    ensures Lex(u, d, PAIR) == [StringTok(QUOTES, 0), StringTok(TICKS, 3)]
  {
    hide First, FirstLine, TextToks, TextEnd, KnowsBlank;
    FirstLineIs(PAIR, PAIR);
    QuoteLines(d);
    TickLines(d);
    NotBlank(u, QUOTES);
    NotBlank(u, TICKS);
    assert PAIR[..2] == QUOTES && PAIR[2..] == " ''";
    Peel(u, d, PAIR, Normal, 0);
    FirstLineIs(" ''", " ''");
    SpaceTicks(d);
    assert " ''"[..1] == " " && " ''"[1..] == TICKS;
    Peel(u, d, " ''", Normal, 2);
    OneLexeme(u, d, TICKS, String, Normal, Normal, 3);
  }

  lemma SpaceTicks(d: Dialect)
    ensures First(d, " ''", Normal) == Lexeme(Text, 1, Normal)
  {
    hide NextPlain;
    assert Span(" ''"[1..], IsBlankByte) == 0;
  }

  lemma PairIsLaidOut(u: Unicode, d: Dialect, opt: Options)
    requires KnowsBlank(u) && u.blank(" ") && TrimsFront(u) && d.doubleQuotedStrings
    ensures One(u, d, [StringTok(QUOTES, 4), StringTok(TICKS, 7)], opt) == (PAIR + "\n", true)
  {
    hide TextToks, TextEnd, KnowsBlank, TrimsFront, Rendered, StatementLines;
    var x, y := StringTok(QUOTES, 4), StringTok(TICKS, 7);
    assert QUOTES[0] == '"' && TICKS[0] == '\'' && |QUOTES| == |TICKS| == 2;
    StringPairText(u, x, y, opt);
    assert x.text + " " + y.text + "\n" == PAIR + "\n";
    TrailingNewline(u, d, PAIR);
    PairReads(u, d);
    assert Same(u, [x, y], [StringTok(QUOTES, 0), StringTok(TICKS, 3)]);
  }

  lemma StringStatements(u: Unicode, d: Dialect)
    requires KnowsBlank(u) && d.doubleQuotedStrings
    ensures Statements(Marked(u, Lex(u, d, SPLIT_STRING)))
         == [[StringTok(TICK, 0), StringTok(SEMICOLON, 2)], [StringTok(QUOTES, 4), StringTok(TICKS, 7)]]
  {
    hide First, TextToks, KnowsBlank, Callable, Word;
    StringReads(u, d);
    var toks := Lex(u, d, SPLIT_STRING);
    assert TICK[0] != '(' && TICK[0] != ';' && QUOTES[0] != '(' && TICKS[0] != '(';
    assert Marked(u, toks) == toks;
    assert DepthAt(toks, 1) == 0 && DepthAt(toks, 2) == 0 && DepthAt(toks, 3) == 0;
    assert Ends(toks, 1, ";") && !Ends(toks, 0, ";") && !Ends(toks, 2, ";") && !Ends(toks, 3, ";");
    assert PiecesAfter(toks, ";", 2, 4) == [toks[2..]] && PiecesAfter(toks, ";", 2, 3) == [toks[2..]]
        && PiecesAfter(toks, ";", 2, 2) == [toks[2..]];
    assert PiecesAfter(toks, ";", 0, 1) == [toks[0..2]] + [toks[2..]];
    assert toks[0..2] == [StringTok(TICK, 0), StringTok(SEMICOLON, 2)];
    assert toks[2..] == [StringTok(QUOTES, 4), StringTok(TICKS, 7)];
  }

  lemma StringFormatted(u: Unicode, d: Dialect, opt: Options)
    requires KnowsBlank(u) && u.blank(" ") && TrimsFront(u) && d.doubleQuotedStrings
    ensures Formatted(u, d, SPLIT_STRING, opt) == TICK + "\n" + (SEMICOLON + "\n" + ("\n" + (PAIR + "\n")))
  {
    hide First, TextToks, TextEnd, KnowsBlank, TrimsFront, One, Marked;
    StringReads(u, d);
    StringStatements(u, d);
    TickIsLeft(u, d, With(opt));
    PairIsLaidOut(u, d, With(opt));
    var stmts := Statements(Marked(u, Lex(u, d, SPLIT_STRING)));
    ScriptUnfolds(u, d, SPLIT_STRING, stmts, 0, Normal, With(opt));
    ScriptUnfolds(u, d, SPLIT_STRING, stmts, 1, Normal, With(opt));
    assert SPLIT_STRING[0..3] == TICK + "\n" + SEMICOLON;
    assert Script(u, d, SPLIT_STRING, stmts, 1, Normal, With(opt)) == PAIR + "\n";
  }

  /** Where either quote makes a string, the same comes of a string: the still open
      one reads the line its second half was laid out on as one token. */
  lemma StringCanSayOtherwise(u: Unicode, d: Dialect, opt: Options)
    requires KnowsBlank(u) && u.blank(" ") && TrimsFront(u) && d.doubleQuotedStrings
    ensures !Same(u, Lex(u, d, SPLIT_STRING), Lex(u, d, Formatted(u, d, SPLIT_STRING, opt)))
  {
    hide First, TextToks, TextEnd, KnowsBlank, TrimsFront, Formatted;
    var q := InString('\'');
    StringReads(u, d);
    StringFormatted(u, d, opt);
    TickLines(d);
    QuoteLines(d);
    NotBlank(u, TICK);
    NotBlank(u, SEMICOLON);
    NotBlank(u, PAIR);
    OneLexeme(u, d, TICK, String, Normal, q, 0);
    OneLexeme(u, d, SEMICOLON, String, q, q, 2);
    var tail := "\n" + (PAIR + "\n");
    JoinToks(u, d, TICK, SEMICOLON + "\n" + tail, Normal, 0);
    JoinToks(u, d, SEMICOLON, tail, q, 2);
    PeelNewline(u, d, tail, q, 4);
    assert tail[1..] == PAIR + "\n" + "";
    JoinToks(u, d, PAIR, "", q, 5);
    OneLexeme(u, d, PAIR, String, q, q, 5);
    Nothing(u, d, q, 11);
  }
}
