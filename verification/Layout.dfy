/** The lines a statement is laid out in (internal/sqlfmt/layout.go), and the text
    of one line (internal/sqlfmt/inline.go). */
module SqlLayout {
  import opened SqlLex
  import opened SqlTokens

  /** What a layout is asked for. */
  datatype Options = Options(indent: string, upper: bool, width: int)

  // ----- words

  predicate Word(u: Unicode, t: Tok, words: set<string>) {
    t.kind == Keyword && u.lower(t.text) in words
  }

  const CLAUSES: set<string> := {"select", "from", "where", "group", "having", "order", "limit", "offset", "fetch",
    "window", "union", "intersect", "except", "values", "set", "returning", "insert", "update", "delete", "with", "join"}
  const FOLLOWERS: set<string> := {"by", "into", "from", "all", "distinct", "outer"}
  const LEAD_INS: set<string> := {"inner", "left", "right", "full", "cross", "natural", "lateral"}
  const CONJUNCTIONS: set<string> := {"and", "or"}
  const UNARY: set<string> := {"not", "exists", "any", "all", "some", "as"}
  const TABLES: set<string> := {"into", "table", "references"}
  const CALL_KEYWORDS: set<string> := {"left", "right", "char", "position", "substring", "trim", "extract", "cast",
    "overlay", "treat", "grouping", "row", "nullif", "coalesce", "greatest", "least"}
  const ARMS: set<string> := {"when", "else"}

  /** WHEN or ELSE. */
  function Arm(u: Unicode): Tok -> bool { t => Word(u, t, ARMS) }

  /** AND or OR. */
  function Conjunction(u: Unicode): Tok -> bool { t => Word(u, t, CONJUNCTIONS) }

  /** JOIN is reached from j by way of words that may stand before it. */
  predicate JoinFollows(u: Unicode, toks: seq<Tok>, j: nat, last: nat)
    decreases last - j
  {
    if j >= |toks| || j > last then false
    else if toks[j].kind != Keyword then false
    else if u.lower(toks[j].text) == "join" then true
    else if u.lower(toks[j].text) !in FOLLOWERS && u.lower(toks[j].text) !in LEAD_INS then false
    else JoinFollows(u, toks, j + 1, last)
  }

  /** This is where a clause starts, a join counting as one. */
  predicate IsClause(u: Unicode, toks: seq<Tok>, i: nat)
    requires i < |toks|
  {
    && toks[i].kind == Keyword
    && if u.lower(toks[i].text) in LEAD_INS then JoinFollows(u, toks, i + 1, i + 3)
       else
         && u.lower(toks[i].text) in CLAUSES
         && !(i > 0 && Word(u, toks[i - 1], UNARY))
         && !(i > 0 && u.lower(toks[i].text) in FOLLOWERS && toks[i - 1].kind == Keyword)
  }

  /** A word that still belongs to the name of the clause being read. */
  predicate ExtendsHead(u: Unicode, stmt: seq<Tok>, i: nat)
    requires i < |stmt|
  {
    stmt[i].kind == Keyword &&
    var w := u.lower(stmt[i].text);
    w in FOLLOWERS || w == "join" || (w in LEAD_INS && JoinFollows(u, stmt, i + 1, i + 3))
  }

  predicate IsLineComment(t: Tok) { t.kind == Comment && !("/*" <= t.text) }

  predicate HasLineComment(toks: seq<Tok>) { exists t :: t in toks && IsLineComment(t) }

  // ----- the text of one line

  predicate Callable(u: Unicode, t: Tok) {
    if t.kind == Function || t.kind == Identifier || t.kind == QuotedIdent || t.kind == Type then true
    else if t.kind == Keyword then u.lower(t.text) in CALL_KEYWORDS
    else t.text == ")" || t.text == "]"
  }

  predicate SpaceBetween(u: Unicode, a: Tok, b: Tok) {
    if b.text == "," || b.text == ";" || b.text == ")" || b.text == "." || b.text == "::" then false
    else if b.text == "(" then b.spaced || !Callable(u, a)
    else !(a.text == "(" || a.text == "." || a.text == "::")
  }

  function Cased(u: Unicode, t: Tok, opt: Options): string {
    if CaseFree(t.kind) && opt.upper then u.upper(t.text) else t.text
  }

  function Inline(u: Unicode, toks: seq<Tok>, opt: Options): string {
    if toks == [] then ""
    else
      var n := |toks| - 1;
      Inline(u, toks[..n], opt)
      + (if n > 0 && SpaceBetween(u, toks[n - 1], toks[n]) then " " else "")
      + Cased(u, toks[n], opt)
  }

  method WriteInline(u: Unicode, toks: seq<Tok>, opt: Options) returns (b: string)
    ensures b == Inline(u, toks, opt)
  {
    hide SpaceBetween, Cased;
    b := "";
    for i := 0 to |toks|
      invariant b == Inline(u, toks[..i], opt)
    {
      var was := toks[..i + 1];
      assert was[..i] == toks[..i];
      if i > 0 && SpaceBetween(u, toks[i - 1], toks[i]) { b := b + " "; }
      b := b + Cased(u, toks[i], opt);
    }
    assert toks[..|toks|] == toks;
  }

  // ----- cutting a run of tokens up

  function Concat<T>(parts: seq<seq<T>>): seq<T> {
    if parts == [] then [] else parts[0] + Concat(parts[1..])
  }

  function Bracket(t: Tok): int { if t.text == "(" then 1 else if t.text == ")" then -1 else 0 }

  /** How deep in brackets the tokens before i leave off. */
  function DepthAt(toks: seq<Tok>, i: nat): int
    requires i <= |toks|
  {
    if i == 0 then 0 else DepthAt(toks, i - 1) + Bracket(toks[i - 1])
  }

  /** A place where toks is cut after its token: a separator outside any bracket. */
  predicate Ends(toks: seq<Tok>, i: nat, separator: string)
    requires i < |toks|
  {
    toks[i].text == separator && DepthAt(toks, i) == 0
  }

  /** A place where toks is cut before its token. */
  predicate Starts(toks: seq<Tok>, i: nat, at: Tok -> bool)
    requires i < |toks|
  {
    at(toks[i]) && DepthAt(toks, i + 1) == 0
  }

  /** The pieces of toks from start on, i being as far as it has been read: each
      keeps the separator that ends it. */
  function PiecesAfter(toks: seq<Tok>, separator: string, start: nat, i: nat): (parts: seq<seq<Tok>>)
    requires start <= i <= |toks|
    ensures Concat(parts) == toks[start..]
    ensures forall p :: p in parts ==> p != []
    decreases |toks| - i
  {
    if i == |toks| then (if start < i then [toks[start..]] else [])
    else if Ends(toks, i, separator) then
      var rest := PiecesAfter(toks, separator, i + 1, i + 1);
      assert toks[start..i + 1] + toks[i + 1..] == toks[start..];
      assert ([toks[start..i + 1]] + rest)[1..] == rest;
      [toks[start..i + 1]] + rest
    else PiecesAfter(toks, separator, start, i + 1)
  }

  /** The pieces of toks from start on, each but the first beginning where at says. */
  function PiecesBefore(toks: seq<Tok>, at: Tok -> bool, start: nat, i: nat): (parts: seq<seq<Tok>>)
    requires start <= i <= |toks|
    ensures Concat(parts) == toks[start..]
    ensures forall p :: p in parts ==> p != []
    decreases |toks| - i
  {
    if i == |toks| then (if start < i then [toks[start..]] else [])
    else if i > start && Starts(toks, i, at) then
      var rest := PiecesBefore(toks, at, i, i + 1);
      assert toks[start..i] + toks[i..] == toks[start..];
      assert ([toks[start..i]] + rest)[1..] == rest;
      [toks[start..i]] + rest
    else PiecesBefore(toks, at, start, i + 1)
  }

  /** A script cut into statements; each keeps its semicolon. */
  function Statements(toks: seq<Tok>): seq<seq<Tok>> { PiecesAfter(toks, ";", 0, 0) }

  /** A body's items, each with the comma that ends it. */
  function Items(body: seq<Tok>): seq<seq<Tok>> { PiecesAfter(body, ",", 0, 0) }

  function Split(toks: seq<Tok>, at: Tok -> bool): (parts: seq<seq<Tok>>)
    ensures Concat(parts) == toks && forall p :: p in parts ==> p != []
  {
    PiecesBefore(toks, at, 0, 0)
  }

  method CutAfter(toks: seq<Tok>, separator: string) returns (out: seq<seq<Tok>>)
    requires separator != "(" && separator != ")"
    ensures out == PiecesAfter(toks, separator, 0, 0)
    ensures Concat(out) == toks && forall p :: p in out ==> p != []
  {
    out := [];
    var start, depth := 0, 0;
    for i := 0 to |toks|
      invariant start <= i && depth == DepthAt(toks, i)
      invariant out + PiecesAfter(toks, separator, start, i) == PiecesAfter(toks, separator, 0, 0)
    {
      if toks[i].text == "(" {
        depth := depth + 1;
      } else if toks[i].text == ")" {
        depth := depth - 1;
      }
      if toks[i].text == separator && depth == 0 {
        Assoc(out, [toks[start..i + 1]], PiecesAfter(toks, separator, i + 1, i + 1));
        out := out + [toks[start..i + 1]];
        start := i + 1;
      }
    }
    if start < |toks| { out := out + [toks[start..]]; }
  }

  method CutBefore(toks: seq<Tok>, at: Tok -> bool) returns (out: seq<seq<Tok>>)
    ensures out == Split(toks, at)
    ensures Concat(out) == toks && forall p :: p in out ==> p != []
  {
    out := [];
    var start, depth := 0, 0;
    for i := 0 to |toks|
      invariant start <= i && depth == DepthAt(toks, i)
      invariant out + PiecesBefore(toks, at, start, i) == PiecesBefore(toks, at, 0, 0)
    {
      if toks[i].text == "(" {
        depth := depth + 1;
      } else if toks[i].text == ")" {
        depth := depth - 1;
      }
      if i > start && depth == 0 && at(toks[i]) {
        Assoc(out, [toks[start..i]], PiecesBefore(toks, at, i, i + 1));
        out := out + [toks[start..i]];
        start := i;
      }
    }
    if start < |toks| { out := out + [toks[start..]]; }
  }

  // ----- finding what to open out

  /** Where the bracket whose depth is counted closes, or |toks| when it does not. */
  function MatchingFrom(toks: seq<Tok>, j: nat, depth: int): (k: nat)
    requires j <= |toks|
    ensures j <= k <= |toks| && (k < |toks| ==> toks[k].text == ")")
    decreases |toks| - j
  {
    if j == |toks| then j
    else
      var depth' := depth + Bracket(toks[j]);
      if toks[j].text == ")" && depth' == 0 then j else MatchingFrom(toks, j + 1, depth')
  }

  /** The partner of the bracket at i, |toks| if it has none. */
  function Matching(toks: seq<Tok>, i: nat): (k: nat)
    requires i < |toks|
    ensures i <= k <= |toks| && (k < |toks| && toks[i].text == "(" ==> i < k)
  {
    MatchingFrom(toks, i, 0)
  }

  method FindMatching(toks: seq<Tok>, i: nat) returns (k: nat)
    requires i < |toks|
    ensures k == Matching(toks, i)
  {
    var depth := 0;
    for j := i to |toks|
      invariant MatchingFrom(toks, j, depth) == Matching(toks, i)
    {
      if toks[j].text == "(" {
        depth := depth + 1;
      } else if toks[j].text == ")" {
        depth := depth - 1;
        if depth == 0 { return j; }
      }
    }
    return |toks|;
  }

  /** The first CASE at depth nought, |toks| if there is none. */
  function CaseFrom(u: Unicode, toks: seq<Tok>, i: nat): (k: nat)
    requires i <= |toks|
    ensures i <= k <= |toks|
    ensures k < |toks| ==> Word(u, toks[k], {"case"})
    decreases |toks| - i
  {
    if i == |toks| || (DepthAt(toks, i + 1) == 0 && Word(u, toks[i], {"case"})) then i else CaseFrom(u, toks, i + 1)
  }

  method FindCase(u: Unicode, toks: seq<Tok>) returns (k: nat)
    ensures k == CaseFrom(u, toks, 0)
  {
    var depth := 0;
    for i := 0 to |toks|
      invariant depth == DepthAt(toks, i) && CaseFrom(u, toks, i) == CaseFrom(u, toks, 0)
    {
      if toks[i].text == "(" {
        depth := depth + 1;
      } else if toks[i].text == ")" {
        depth := depth - 1;
      }
      if depth == 0 && toks[i].kind == Keyword && u.lower(toks[i].text) == "case" { return i; }
    }
    return |toks|;
  }

  /** Where the CASE whose depth is counted ends, or |toks|. */
  function EndFrom(u: Unicode, toks: seq<Tok>, j: nat, depth: int): (k: nat)
    requires j <= |toks|
    ensures j <= k <= |toks|
    ensures k < |toks| ==> Word(u, toks[k], {"end"})
    decreases |toks| - j
  {
    if j == |toks| then j
    else if Word(u, toks[j], {"case"}) then EndFrom(u, toks, j + 1, depth + 1)
    else if Word(u, toks[j], {"end"}) then
      if depth == 1 then j else EndFrom(u, toks, j + 1, depth - 1)
    else EndFrom(u, toks, j + 1, depth)
  }

  method FindEnd(u: Unicode, toks: seq<Tok>, i: nat) returns (k: nat)
    requires i <= |toks|
    ensures k == EndFrom(u, toks, i, 0)
  {
    var depth := 0;
    for j := i to |toks|
      invariant EndFrom(u, toks, j, depth) == EndFrom(u, toks, i, 0)
    {
      if toks[j].kind != Keyword { continue; }
      if u.lower(toks[j].text) == "case" {
        depth := depth + 1;
      } else if u.lower(toks[j].text) == "end" {
        depth := depth - 1;
        if depth == 0 { return j; }
      }
    }
    return |toks|;
  }

  /** The first bracket that is closed and not empty, |toks| if there is none. */
  function OpenFrom(toks: seq<Tok>, i: nat): (k: nat)
    requires i <= |toks|
    ensures i <= k <= |toks|
    ensures k < |toks| ==> toks[k].text == "(" && k + 1 < Matching(toks, k) < |toks|
    decreases |toks| - i
  {
    if i == |toks| then i
    else if toks[i].text == "(" && i + 1 < Matching(toks, i) < |toks| then i
    else OpenFrom(toks, i + 1)
  }

  method FindOpen(toks: seq<Tok>) returns (k: nat)
    ensures k == OpenFrom(toks, 0)
  {
    for i := 0 to |toks|
      invariant OpenFrom(toks, i) == OpenFrom(toks, 0)
    {
      if toks[i].text != "(" { continue; }
      var j := FindMatching(toks, i);
      if j < |toks| && j > i + 1 { return i; }
    }
    return |toks|;
  }

  /** A clause starts here and within brackets, so that this is a subquery. */
  predicate BreaksAt(u: Unicode, body: seq<Tok>, i: nat)
    requires i < |body|
  {
    body[i].text != "(" && body[i].text != ")" && DepthAt(body, i) > 0 && IsClause(u, body, i)
  }

  predicate HasBreak(u: Unicode, body: seq<Tok>) {
    exists i :: 0 <= i < |body| && BreaksAt(u, body, i)
  }

  method FindBreak(u: Unicode, body: seq<Tok>) returns (has: bool)
    ensures has == HasBreak(u, body)
  {
    hide IsClause;
    var depth := 0;
    for i := 0 to |body|
      invariant depth == DepthAt(body, i)
      invariant forall k :: 0 <= k < i ==> !BreaksAt(u, body, k)
    {
      if body[i].text == "(" {
        depth := depth + 1;
      } else if body[i].text == ")" {
        depth := depth - 1;
      } else if depth > 0 && IsClause(u, body, i) {
        assert BreaksAt(u, body, i);
        return true;
      }
    }
    return false;
  }

  // ----- a statement's clauses

  /** The words that name a clause, and its contents. */
  datatype Clause = Clause(head: seq<Tok>, body: seq<Tok>)

  /** A clause starts here, at depth nought. */
  predicate Top(u: Unicode, stmt: seq<Tok>, i: nat)
    requires i < |stmt|
  {
    stmt[i].text != "(" && stmt[i].text != ")" && DepthAt(stmt, i) == 0 && IsClause(u, stmt, i)
  }

  function NextTop(u: Unicode, stmt: seq<Tok>, i: nat): (j: nat)
    requires i <= |stmt|
    ensures i <= j <= |stmt|
    ensures i < |stmt| && !Top(u, stmt, i) ==> i < j
    decreases |stmt| - i
  {
    if i == |stmt| || Top(u, stmt, i) then i else NextTop(u, stmt, i + 1)
  }

  function HeadEnd(u: Unicode, stmt: seq<Tok>, i: nat): (j: nat)
    requires i <= |stmt|
    ensures i <= j <= |stmt|
    decreases |stmt| - i
  {
    if i < |stmt| && ExtendsHead(u, stmt, i) then HeadEnd(u, stmt, i + 1) else i
  }

  lemma Glue<T>(s: seq<T>, i: nat, h: nat, j: nat)
    requires i <= h <= j <= |s|
    ensures s[i..h] + s[h..j] + s[j..] == s[i..]
  {}

  function ClauseToks(cs: seq<Clause>): seq<Tok> {
    if cs == [] then [] else cs[0].head + cs[0].body + ClauseToks(cs[1..])
  }

  function ClausesFrom(u: Unicode, stmt: seq<Tok>, i: nat): (cs: seq<Clause>)
    requires i <= |stmt|
    ensures ClauseToks(cs) == stmt[i..]
    decreases |stmt| - i
  {
    hide Top;
    if i == |stmt| then []
    else
      var h := if Top(u, stmt, i) then HeadEnd(u, stmt, i + 1) else i;
      var j := NextTop(u, stmt, h);
      var rest := ClausesFrom(u, stmt, j);
      var cs := [Clause(stmt[i..h], stmt[h..j])] + rest;
      assert cs[1..] == rest;
      Glue(stmt, i, h, j);
      cs
  }

  function ClausesOf(u: Unicode, stmt: seq<Tok>): (cs: seq<Clause>)
    ensures ClauseToks(cs) == stmt
    ensures forall c :: c in cs ==> |c.head + c.body| <= |stmt|
  {
    ClauseSizes(ClausesFrom(u, stmt, 0));
    ClausesFrom(u, stmt, 0)
  }

  lemma ClauseSizes(cs: seq<Clause>)
    ensures forall c :: c in cs ==> |c.head + c.body| <= |ClauseToks(cs)|
  {
    if cs != [] {
      ClauseSizes(cs[1..]);
      assert forall c :: c in cs ==> c == cs[0] || c in cs[1..];
    }
  }

  method TopLevel(u: Unicode, stmt: seq<Tok>) returns (tops: seq<bool>)
    ensures |tops| == |stmt| && forall i :: 0 <= i < |stmt| ==> tops[i] == Top(u, stmt, i)
  {
    hide IsClause;
    var out := new bool[|stmt|](_ => false);
    var depth := 0;
    for i := 0 to |stmt|
      invariant depth == DepthAt(stmt, i)
      invariant forall k :: 0 <= k < |stmt| ==> out[k] == (k < i && Top(u, stmt, k))
    {
      if stmt[i].text == "(" {
        depth := depth + 1;
      } else if stmt[i].text == ")" {
        depth := depth - 1;
      } else {
        out[i] := depth == 0 && IsClause(u, stmt, i);
      }
    }
    tops := out[..];
  }

  lemma ClausesUnfold(u: Unicode, stmt: seq<Tok>, i: nat)
    requires i < |stmt|
    ensures
      var h := if Top(u, stmt, i) then HeadEnd(u, stmt, i + 1) else i;
      var j := NextTop(u, stmt, h);
      i < j && ClausesFrom(u, stmt, i) == [Clause(stmt[i..h], stmt[h..j])] + ClausesFrom(u, stmt, j)
  {
    hide Top;
  }

  method CutClauses(u: Unicode, stmt: seq<Tok>) returns (out: seq<Clause>)
    ensures out == ClausesOf(u, stmt)
  {
    hide Top, ExtendsHead, ClausesFrom;
    var tops := TopLevel(u, stmt);
    out := [];
    var i := 0;
    while i < |stmt|
      invariant i <= |stmt|
      invariant out + ClausesFrom(u, stmt, i) == ClausesFrom(u, stmt, 0)
      decreases |stmt| - i
    {
      ClausesUnfold(u, stmt, i);
      var h := i;
      if tops[i] {
        h := i + 1;
        while h < |stmt| && ExtendsHead(u, stmt, h)
          invariant i < h <= |stmt| && HeadEnd(u, stmt, h) == HeadEnd(u, stmt, i + 1)
        {
          h := h + 1;
        }
      }
      var j := h;
      while j < |stmt| && !tops[j]
        invariant h <= j <= |stmt| && NextTop(u, stmt, j) == NextTop(u, stmt, h)
      {
        j := j + 1;
      }
      Assoc(out, [Clause(stmt[i..h], stmt[h..j])], ClausesFrom(u, stmt, j));
      out := out + [Clause(stmt[i..h], stmt[h..j])];
      i := j;
    }
    NoClauses(u, stmt);
  }

  lemma NoClauses(u: Unicode, stmt: seq<Tok>)
    ensures ClausesFrom(u, stmt, |stmt|) == []
  {}

  // ----- the lines of a statement

  /** One line: a depth, and the tokens on it. A clause along one line is its
      head and its body joined; a bracket opened out is trimmed. */
  datatype Line = Run(depth: nat, toks: seq<Tok>) | Joined(depth: nat, head: seq<Tok>, body: seq<Tok>) | Opened(depth: nat, toks: seq<Tok>)

  function LineText(u: Unicode, line: Line, opt: Options): string {
    match line
    case Run(_, toks) => Inline(u, toks, opt)
    case Joined(_, head, body) => u.trim(Inline(u, head, opt) + " " + Inline(u, body, opt))
    case Opened(_, toks) => u.trim(Inline(u, toks, opt))
  }

  function Pad(opt: Options, depth: nat): string {
    if depth == 0 then "" else Pad(opt, depth - 1) + opt.indent
  }

  function OneLine(u: Unicode, line: Line, opt: Options): string {
    Pad(opt, line.depth) + LineText(u, line, opt) + "\n"
  }

  function Rendered(u: Unicode, lines: seq<Line>, opt: Options): string {
    if lines == [] then ""
    else OneLine(u, lines[0], opt) + Rendered(u, lines[1..], opt)
  }

  predicate Fits(opt: Options, depth: nat, text: string) {
    |Pad(opt, depth)| + |text| <= opt.width
  }

  /** Nothing in these tokens asks to go down the page. */
  predicate Flat(u: Unicode, toks: seq<Tok>) { !HasLineComment(toks) && !HasBreak(u, toks) }

  lemma PartSizes<T>(parts: seq<seq<T>>)
    ensures forall p :: p in parts ==> |p| <= |Concat(parts)|
    ensures |parts| > 1 && (forall p :: p in parts ==> p != []) ==> forall p :: p in parts ==> |p| < |Concat(parts)|
  {
    if parts != [] {
      PartSizes(parts[1..]);
      if |parts| > 1 {
        assert parts[1] in parts[1..] && parts[1] in parts && parts[0] in parts;
      }
      assert forall p :: p in parts ==> p == parts[0] || p in parts[1..];
    }
  }

  function ClauseLines(u: Unicode, c: Clause, depth: nat, opt: Options): seq<Line>
    decreases |c.head| + |c.body|, 5
  {
    if c.body == [] then [Run(depth, c.head)]
    else if Fits(opt, depth, LineText(u, Joined(depth, c.head, c.body), opt)) && Flat(u, c.body) then
      [Joined(depth, c.head, c.body)]
    else if Inline(u, c.head, opt) != "" then [Run(depth, c.head)] + ItemsLines(u, c.body, depth + 1, opt)
    else ItemsLines(u, c.body, depth, opt)
  }

  function ItemsLines(u: Unicode, body: seq<Tok>, depth: nat, opt: Options): seq<Line>
    decreases |body|, 4
  {
    PartSizes(Items(body));
    PartsLines(u, Items(body), depth, opt, |body|)
  }

  function PartsLines(u: Unicode, parts: seq<seq<Tok>>, depth: nat, opt: Options, bound: nat): seq<Line>
    requires forall p :: p in parts ==> |p| <= bound
    decreases bound, 3, |parts|
  {
    if parts == [] then []
    else ItemLines(u, parts[0], depth, opt) + PartsLines(u, parts[1..], depth, opt, bound)
  }

  /** An item is one line if that is short enough, and several if not. */
  function ItemLines(u: Unicode, item: seq<Tok>, depth: nat, opt: Options): seq<Line>
    decreases |item|, 2
  {
    if Fits(opt, depth, Inline(u, item, opt)) && Flat(u, item) then [Run(depth, item)]
    else GroupLines(u, item, depth, opt)
  }

  /** Several lines of an item: parted by its conjunctions if it has any, else
      opened at its CASE, else at a bracket, else written as a leaf. */
  function GroupLines(u: Unicode, item: seq<Tok>, depth: nat, opt: Options): seq<Line>
    decreases |item|, 1
  {
    var parts := Split(item, Conjunction(u));
    if |parts| > 1 then
      PartSizes(parts);
      PartsLines(u, parts, depth, opt, |item| - 1)
    else if CaseFrom(u, item, 0) < |item| then CaseLines(u, item, CaseFrom(u, item, 0), depth, opt)
    else if OpenFrom(item, 0) == |item| then LeafLines(item, 0, 0, depth)
    else BracketLines(u, item, OpenFrom(item, 0), depth, opt)
  }

  /** A bracket opened out: up to it, what is inside, and from where it closes. */
  function BracketLines(u: Unicode, item: seq<Tok>, open: nat, depth: nat, opt: Options): seq<Line>
    requires open < |item| && open + 1 < Matching(item, open) < |item|
    decreases |item|, 0
  {
    var close := Matching(item, open);
    [Opened(depth, item[..open + 1])]
    + InnerLines(u, item[open + 1..close], depth + 1, opt)
    + [Run(depth, item[close..])]
  }

  /** What is inside a bracket opened out: the clauses of a subquery, or a list. */
  function InnerLines(u: Unicode, inner: seq<Tok>, depth: nat, opt: Options): seq<Line>
    decreases |inner|, 7
  {
    var cs := ClausesOf(u, inner);
    if |cs| > 1 || (|cs| == 1 && cs[0].head != []) then ClausesLines(u, cs, depth, opt, |inner|)
    else ItemsLines(u, inner, depth, opt)
  }

  function ClausesLines(u: Unicode, cs: seq<Clause>, depth: nat, opt: Options, bound: nat): seq<Line>
    requires forall c :: c in cs ==> |c.head + c.body| <= bound
    decreases bound, 6, |cs|
  {
    if cs == [] then []
    else
      assert cs[0] in cs;
      ClauseLines(u, cs[0], depth, opt) + ClausesLines(u, cs[1..], depth, opt, bound)
  }

  /** What stands before a CASE, and the CASE itself, each on a line. */
  function CaseOpening(item: seq<Tok>, open: nat, depth: nat): (lines: seq<Line>)
    requires open < |item|
    ensures Written(lines) == item[..open + 1]
  {
    if open > 0 then
      assert item[..open] + item[open..open + 1] == item[..open + 1];
      WrittenConcat([Run(depth, item[..open])], [Run(depth + 1, item[open..open + 1])]);
      [Run(depth, item[..open])] + [Run(depth + 1, item[open..open + 1])]
    else [Run(depth, item[open..open + 1])]
  }

  /** The lines of a CASE: an arm to each. */
  function CaseLines(u: Unicode, item: seq<Tok>, open: nat, depth: nat, opt: Options): seq<Line>
    requires open < |item| && Word(u, item[open], {"case"})
    decreases |item|, 0
  {
    var close := EndFrom(u, item, open, 0);
    if close == |item| then LeafLines(item, 0, 0, depth) else ArmsLines(u, item, open, close, depth, opt)
  }

  function ArmsLines(u: Unicode, item: seq<Tok>, open: nat, close: nat, depth: nat, opt: Options): seq<Line>
    requires open < close < |item|
    decreases |item| - 1, 9
  {
    var arms := Split(item[open + 1..close], Arm(u));
    PartSizes(arms);
    var inside := if open > 0 then depth + 1 else depth;
    CaseOpening(item, open, depth)
    + PartsLines(u, arms, inside + 1, opt, |item| - 1)
    + [Run(inside, item[close..])]
  }

  /** A leaf: one line, but for those a line comment ends early. */
  function LeafLines(toks: seq<Tok>, start: nat, i: nat, depth: nat): seq<Line>
    requires start <= i <= |toks|
    decreases |toks| - i
  {
    if i == |toks| then (if start < i then [Run(depth, toks[start..])] else [])
    else if IsLineComment(toks[i]) then [Run(depth, toks[start..i + 1])] + LeafLines(toks, i + 1, i + 1, depth)
    else LeafLines(toks, start, i + 1, depth)
  }

  function StatementLines(u: Unicode, stmt: seq<Tok>, opt: Options): seq<Line> {
    ClausesLines(u, ClausesOf(u, stmt), 0, opt, |stmt|)
  }

  // ----- every token is written, once, where it stood

  function Written(lines: seq<Line>): seq<Tok> {
    if lines == [] then []
    else (if lines[0].Joined? then lines[0].head + lines[0].body else lines[0].toks) + Written(lines[1..])
  }

  lemma {:induction false} WrittenConcat(a: seq<Line>, b: seq<Line>)
    ensures Written(a + b) == Written(a) + Written(b)
  {
    if a == [] {
      assert a + b == b;
    } else {
      assert (a + b)[1..] == a[1..] + b;
      WrittenConcat(a[1..], b);
    }
  }

  lemma WrittenRun(depth: nat, toks: seq<Tok>)
    ensures Written([Run(depth, toks)]) == toks && Written([Opened(depth, toks)]) == toks
  {}

  lemma WrittenAround(a: seq<Line>, b: seq<Line>, c: seq<Line>)
    ensures Written(a + b + c) == Written(a) + Written(b) + Written(c)
  {
    WrittenConcat(a + b, c);
    WrittenConcat(a, b);
  }

  /** No token is written as nothing: the lexer's have text, and upper case keeps it. */
  ghost predicate Spelled(u: Unicode, toks: seq<Tok>, opt: Options) {
    forall t :: t in toks ==> Cased(u, t, opt) != ""
  }

  lemma SpelledSlice(u: Unicode, toks: seq<Tok>, i: nat, j: nat, opt: Options)
    requires i <= j <= |toks| && Spelled(u, toks, opt)
    ensures Spelled(u, toks[i..j], opt)
  {}

  lemma InlineSpelled(u: Unicode, toks: seq<Tok>, opt: Options)
    requires toks != [] && Spelled(u, toks, opt)
    ensures Inline(u, toks, opt) != ""
  {
    assert toks[|toks| - 1] in toks;
  }

  lemma {:induction false} LeafKeeps(toks: seq<Tok>, start: nat, i: nat, depth: nat)
    requires start <= i <= |toks|
    ensures Written(LeafLines(toks, start, i, depth)) == toks[start..]
    decreases |toks| - i
  {
    if i < |toks| && IsLineComment(toks[i]) {
      LeafKeeps(toks, i + 1, i + 1, depth);
      WrittenConcat([Run(depth, toks[start..i + 1])], LeafLines(toks, i + 1, i + 1, depth));
      assert toks[start..i + 1] + toks[i + 1..] == toks[start..];
    } else if i < |toks| {
      LeafKeeps(toks, start, i + 1, depth);
    }
  }

  lemma {:induction false} ClauseKeeps(u: Unicode, c: Clause, depth: nat, opt: Options)
    requires Spelled(u, c.head + c.body, opt)
    ensures Written(ClauseLines(u, c, depth, opt)) == c.head + c.body
    decreases |c.head| + |c.body|, 5
  {
    hide ItemsLines, Fits, Flat, LineText, Inline, Spelled;
    assert c.head == (c.head + c.body)[..|c.head|] && c.body == (c.head + c.body)[|c.head|..];
    SpelledSlice(u, c.head + c.body, 0, |c.head|, opt);
    SpelledSlice(u, c.head + c.body, |c.head|, |c.head + c.body|, opt);
    if c.head != [] { InlineSpelled(u, c.head, opt); }
    if c.body != [] {
      ItemsKeep(u, c.body, depth, opt);
      ItemsKeep(u, c.body, depth + 1, opt);
      WrittenConcat([Run(depth, c.head)], ItemsLines(u, c.body, depth + 1, opt));
    }
  }

  lemma {:induction false} ItemsKeep(u: Unicode, body: seq<Tok>, depth: nat, opt: Options)
    requires Spelled(u, body, opt)
    ensures Written(ItemsLines(u, body, depth, opt)) == body
    decreases |body|, 4
  {
    PartSizes(Items(body));
    PartsKeep(u, Items(body), depth, opt, |body|);
  }

  lemma {:induction false} PartsKeep(u: Unicode, parts: seq<seq<Tok>>, depth: nat, opt: Options, bound: nat)
    requires (forall p :: p in parts ==> |p| <= bound) && Spelled(u, Concat(parts), opt)
    ensures Written(PartsLines(u, parts, depth, opt, bound)) == Concat(parts)
    decreases bound, 3, |parts|
  {
    if parts != [] {
      assert parts[0] in parts;
      ItemKeeps(u, parts[0], depth, opt);
      PartsKeep(u, parts[1..], depth, opt, bound);
      WrittenConcat(ItemLines(u, parts[0], depth, opt), PartsLines(u, parts[1..], depth, opt, bound));
    }
  }

  lemma {:induction false} ItemKeeps(u: Unicode, item: seq<Tok>, depth: nat, opt: Options)
    requires Spelled(u, item, opt)
    ensures Written(ItemLines(u, item, depth, opt)) == item
    decreases |item|, 2
  {
    GroupKeeps(u, item, depth, opt);
  }

  lemma {:induction false} GroupKeeps(u: Unicode, item: seq<Tok>, depth: nat, opt: Options)
    requires Spelled(u, item, opt)
    ensures Written(GroupLines(u, item, depth, opt)) == item
    decreases |item|, 1
  {
    hide PartsLines, LeafLines, BracketLines, CaseLines, Cased;
    var parts := Split(item, Conjunction(u));
    if |parts| > 1 {
      PartSizes(parts);
      PartsKeep(u, parts, depth, opt, |item| - 1);
    } else if CaseFrom(u, item, 0) < |item| {
      CaseKeeps(u, item, CaseFrom(u, item, 0), depth, opt);
    } else if OpenFrom(item, 0) == |item| {
      LeafKeeps(item, 0, 0, depth);
    } else {
      BracketKeeps(u, item, OpenFrom(item, 0), depth, opt);
    }
  }

  lemma {:induction false} BracketKeeps(u: Unicode, item: seq<Tok>, open: nat, depth: nat, opt: Options)
    requires open < |item| && open + 1 < Matching(item, open) < |item| && Spelled(u, item, opt)
    ensures Written(BracketLines(u, item, open, depth, opt)) == item
    decreases |item|, 0
  {
    hide InnerLines, Spelled, Matching, Written;
    var close := Matching(item, open);
    var inner := item[open + 1..close];
    SpelledSlice(u, item, open + 1, close, opt);
    InnerKeeps(u, inner, depth + 1, opt);
    WrittenRun(depth, item[..open + 1]);
    WrittenRun(depth, item[close..]);
    var first, last := [Opened(depth, item[..open + 1])], [Run(depth, item[close..])];
    WrittenAround(first, InnerLines(u, inner, depth + 1, opt), last);
    Glue(item, 0, open + 1, close);
  }

  lemma {:induction false} InnerKeeps(u: Unicode, inner: seq<Tok>, depth: nat, opt: Options)
    requires Spelled(u, inner, opt)
    ensures Written(InnerLines(u, inner, depth, opt)) == inner
    decreases |inner|, 7
  {
    var cs := ClausesOf(u, inner);
    ClausesKeep(u, cs, depth, opt, |inner|);
    ItemsKeep(u, inner, depth, opt);
  }

  lemma {:induction false} ClausesKeep(u: Unicode, cs: seq<Clause>, depth: nat, opt: Options, bound: nat)
    requires (forall c :: c in cs ==> |c.head + c.body| <= bound) && Spelled(u, ClauseToks(cs), opt)
    ensures Written(ClausesLines(u, cs, depth, opt, bound)) == ClauseToks(cs)
    decreases bound, 6, |cs|
  {
    if cs != [] {
      assert cs[0] in cs;
      ClauseKeeps(u, cs[0], depth, opt);
      ClausesKeep(u, cs[1..], depth, opt, bound);
      WrittenConcat(ClauseLines(u, cs[0], depth, opt), ClausesLines(u, cs[1..], depth, opt, bound));
    }
  }

  lemma {:induction false} CaseKeeps(u: Unicode, item: seq<Tok>, open: nat, depth: nat, opt: Options)
    requires open < |item| && Word(u, item[open], {"case"}) && Spelled(u, item, opt)
    ensures Written(CaseLines(u, item, open, depth, opt)) == item
    decreases |item|, 0
  {
    var close := EndFrom(u, item, open, 0);
    if close == |item| { LeafKeeps(item, 0, 0, depth); } else { ArmsKeep(u, item, open, close, depth, opt); }
  }

  lemma {:induction false} ArmsKeep(u: Unicode, item: seq<Tok>, open: nat, close: nat, depth: nat, opt: Options)
    requires open < close < |item| && Spelled(u, item, opt)
    ensures Written(ArmsLines(u, item, open, close, depth, opt)) == item
    decreases |item| - 1, 9
  {
    hide PartsLines, Spelled, CaseOpening, Split, Written;
    SpelledSlice(u, item, open + 1, close, opt);
    var arms := Split(item[open + 1..close], Arm(u));
    PartSizes(arms);
    var inside := if open > 0 then depth + 1 else depth;
    PartsKeep(u, arms, inside + 1, opt, |item| - 1);
    WrittenAround(CaseOpening(item, open, depth), PartsLines(u, arms, inside + 1, opt, |item| - 1),
      [Run(inside, item[close..])]);
    WrittenRun(inside, item[close..]);
    Glue(item, 0, open + 1, close);
  }

  /** Whatever the brackets and CASEs of a statement, balanced or not, the lines
      written hold its tokens, each once and in order. */
  lemma StatementKeeps(u: Unicode, stmt: seq<Tok>, opt: Options)
    requires Spelled(u, stmt, opt)
    ensures Written(StatementLines(u, stmt, opt)) == stmt
  {
    ClausesKeep(u, ClausesOf(u, stmt), 0, opt, |stmt|);
  }

  // ----- writing the lines

  lemma {:induction false} RenderedConcat(u: Unicode, a: seq<Line>, b: seq<Line>, opt: Options)
    ensures Rendered(u, a + b, opt) == Rendered(u, a, opt) + Rendered(u, b, opt)
  {
    hide OneLine;
    if a == [] {
      assert a + b == b;
    } else {
      assert (a + b)[1..] == a[1..] + b;
      RenderedConcat(u, a[1..], b, opt);
      Assoc(OneLine(u, a[0], opt), Rendered(u, a[1..], opt), Rendered(u, b, opt));
    }
  }

  lemma RenderedOne(u: Unicode, line: Line, opt: Options)
    ensures Rendered(u, [line], opt) == OneLine(u, line, opt)
  {
    hide OneLine;
    assert [line][1..] == [];
  }

  method FindLineComment(toks: seq<Tok>) returns (has: bool)
    ensures has == HasLineComment(toks)
  {
    for i := 0 to |toks|
      invariant forall k :: 0 <= k < i ==> !IsLineComment(toks[k])
    {
      if toks[i].kind == Comment && !("/*" <= toks[i].text) {
        assert toks[i] in toks && IsLineComment(toks[i]);
        return true;
      }
    }
    return false;
  }

  /** What the layout is written into. */
  class Builder {
    var text: string

    constructor ()
      ensures text == ""
    {
      text := "";
    }

    /** Writes one line, indent and all. */
    method WriteLine(u: Unicode, line: Line, opt: Options)
      modifies this
      ensures text == old(text) + Rendered(u, [line], opt)
    {
      hide OneLine, Rendered;
      RenderedOne(u, line, opt);
      text := text + OneLine(u, line, opt);
    }

    method WriteClause(u: Unicode, c: Clause, depth: nat, opt: Options)
      modifies this
      ensures text == old(text) + Rendered(u, ClauseLines(u, c, depth, opt), opt)
      decreases |c.head| + |c.body|, 5
    {
      hide Rendered, LineText, Inline, Fits, ItemsLines, HasBreak, HasLineComment;
      if |c.body| == 0 {
        WriteLine(u, Run(depth, c.head), opt);
        return;
      }
      var whole := Joined(depth, c.head, c.body);
      var comment := FindLineComment(c.body);
      var broken := FindBreak(u, c.body);
      if Fits(opt, depth, LineText(u, whole, opt)) && !comment && !broken {
        WriteLine(u, whole, opt);
        return;
      }
      var head := WriteInline(u, c.head, opt);
      if head != "" {
        RenderedConcat(u, [Run(depth, c.head)], ItemsLines(u, c.body, depth + 1, opt), opt);
        WriteLine(u, Run(depth, c.head), opt);
        WriteItems(u, c.body, depth + 1, opt);
      } else {
        WriteItems(u, c.body, depth, opt);
      }
    }

    /** Writes each item of a body in turn. */
    method WriteItems(u: Unicode, body: seq<Tok>, depth: nat, opt: Options)
      modifies this
      ensures text == old(text) + Rendered(u, ItemsLines(u, body, depth, opt), opt)
      decreases |body|, 4
    {
      hide Rendered;
      var items := CutAfter(body, ",");
      PartSizes(items);
      WriteParts(u, items, depth, opt, |body|);
    }

    method WriteParts(u: Unicode, parts: seq<seq<Tok>>, depth: nat, opt: Options, ghost bound: nat)
      requires forall p :: p in parts ==> |p| <= bound
      modifies this
      ensures text == old(text) + Rendered(u, PartsLines(u, parts, depth, opt, bound), opt)
      decreases bound, 3
    {
      hide ItemLines, Rendered;
      RenderedNone(u, opt);
      for i := 0 to |parts|
        invariant text + Rendered(u, PartsLines(u, parts[i..], depth, opt, bound), opt)
               == old(text) + Rendered(u, PartsLines(u, parts, depth, opt, bound), opt)
      {
        ghost var was := text;
        WriteItem(u, parts[i], depth, opt);
        assert parts[i..][1..] == parts[i + 1..];
        RenderedConcat(u, ItemLines(u, parts[i], depth, opt), PartsLines(u, parts[i + 1..], depth, opt, bound), opt);
        Assoc(was, Rendered(u, ItemLines(u, parts[i], depth, opt), opt),
          Rendered(u, PartsLines(u, parts[i + 1..], depth, opt, bound), opt));
      }
    }

    method WriteItem(u: Unicode, item: seq<Tok>, depth: nat, opt: Options)
      modifies this
      ensures text == old(text) + Rendered(u, ItemLines(u, item, depth, opt), opt)
      decreases |item|, 2
    {
      hide Rendered, Inline, Fits, GroupLines, HasBreak, HasLineComment;
      var along := WriteInline(u, item, opt);
      var comment := FindLineComment(item);
      var broken := FindBreak(u, item);
      if Fits(opt, depth, along) && !comment && !broken {
        WriteLine(u, Run(depth, item), opt);
        return;
      }
      WriteGroup(u, item, depth, opt);
    }

    /** Writes an item that is too long for one line. */
    method WriteGroup(u: Unicode, item: seq<Tok>, depth: nat, opt: Options)
      modifies this
      ensures text == old(text) + Rendered(u, GroupLines(u, item, depth, opt), opt)
      decreases |item|, 1
    {
      hide Rendered, CaseLines, BracketLines, LeafLines, PartsLines;
      var parts := CutBefore(item, Conjunction(u));
      if |parts| > 1 {
        PartSizes(parts);
        WriteParts(u, parts, depth, opt, |item| - 1);
        return;
      }
      var case_ := FindCase(u, item);
      if case_ < |item| {
        WriteCase(u, item, case_, depth, opt);
        return;
      }
      var open := FindOpen(item);
      if open == |item| {
        WriteLeaf(u, item, depth, opt);
        return;
      }
      WriteBracket(u, item, open, depth, opt);
    }

    method WriteBracket(u: Unicode, item: seq<Tok>, open: nat, depth: nat, opt: Options)
      requires open < |item| && open + 1 < Matching(item, open) < |item|
      modifies this
      ensures text == old(text) + Rendered(u, BracketLines(u, item, open, depth, opt), opt)
      decreases |item|, 0
    {
      hide Rendered, InnerLines, Matching;
      var close := FindMatching(item, open);
      ghost var first, last := [Opened(depth, item[..open + 1])], [Run(depth, item[close..])];
      ghost var inside := InnerLines(u, item[open + 1..close], depth + 1, opt);
      RenderedConcat(u, first + inside, last, opt);
      RenderedConcat(u, first, inside, opt);
      WriteLine(u, Opened(depth, item[..open + 1]), opt);
      WriteInner(u, item[open + 1..close], depth + 1, opt);
      WriteLine(u, Run(depth, item[close..]), opt);
    }

    method WriteInner(u: Unicode, inner: seq<Tok>, depth: nat, opt: Options)
      modifies this
      ensures text == old(text) + Rendered(u, InnerLines(u, inner, depth, opt), opt)
      decreases |inner|, 7
    {
      hide Rendered, ClausesLines, ItemsLines;
      var cs := CutClauses(u, inner);
      if |cs| > 1 || (|cs| == 1 && cs[0].head != []) {
        WriteClauses(u, cs, depth, opt, |inner|);
      } else {
        WriteItems(u, inner, depth, opt);
      }
    }

    method WriteClauses(u: Unicode, cs: seq<Clause>, depth: nat, opt: Options, ghost bound: nat)
      requires forall c :: c in cs ==> |c.head + c.body| <= bound
      modifies this
      ensures text == old(text) + Rendered(u, ClausesLines(u, cs, depth, opt, bound), opt)
      decreases bound, 6
    {
      hide ClauseLines, Rendered;
      RenderedNone(u, opt);
      for i := 0 to |cs|
        invariant text + Rendered(u, ClausesLines(u, cs[i..], depth, opt, bound), opt)
               == old(text) + Rendered(u, ClausesLines(u, cs, depth, opt, bound), opt)
      {
        ghost var was := text;
        assert cs[i] in cs;
        WriteClause(u, cs[i], depth, opt);
        assert cs[i..][1..] == cs[i + 1..];
        RenderedConcat(u, ClauseLines(u, cs[i], depth, opt), ClausesLines(u, cs[i + 1..], depth, opt, bound), opt);
        Assoc(was, Rendered(u, ClauseLines(u, cs[i], depth, opt), opt),
          Rendered(u, ClausesLines(u, cs[i + 1..], depth, opt, bound), opt));
      }
    }

    method WriteCaseOpening(u: Unicode, item: seq<Tok>, open: nat, depth: nat, opt: Options) returns (inside: nat)
      requires open < |item|
      modifies this
      ensures text == old(text) + Rendered(u, CaseOpening(item, open, depth), opt)
      ensures inside == if open > 0 then depth + 1 else depth
    {
      hide Rendered;
      inside := depth;
      if open > 0 {
        RenderedConcat(u, [Run(depth, item[..open])], [Run(depth + 1, item[open..open + 1])], opt);
        WriteLine(u, Run(depth, item[..open]), opt);
        inside := depth + 1;
      }
      WriteLine(u, Run(inside, item[open..open + 1]), opt);
    }

    method WriteCase(u: Unicode, item: seq<Tok>, open: nat, depth: nat, opt: Options)
      requires open < |item| && Word(u, item[open], {"case"})
      modifies this
      ensures text == old(text) + Rendered(u, CaseLines(u, item, open, depth, opt), opt)
      decreases |item|, 0
    {
      hide Rendered, LeafLines, ArmsLines;
      var close := FindEnd(u, item, open);
      if close == |item| {
        WriteLeaf(u, item, depth, opt);
        return;
      }
      WriteArms(u, item, open, close, depth, opt);
    }

    method WriteArms(u: Unicode, item: seq<Tok>, open: nat, close: nat, depth: nat, opt: Options)
      requires open < close < |item|
      modifies this
      ensures text == old(text) + Rendered(u, ArmsLines(u, item, open, close, depth, opt), opt)
      decreases |item| - 1, 9
    {
      hide Rendered, PartsLines, CaseOpening, Split;
      ghost var opening := CaseOpening(item, open, depth);
      var inside := WriteCaseOpening(u, item, open, depth, opt);
      var arms := CutBefore(item[open + 1..close], Arm(u));
      PartSizes(arms);
      ghost var lines, last := PartsLines(u, arms, inside + 1, opt, |item| - 1), [Run(inside, item[close..])];
      RenderedConcat(u, opening + lines, last, opt);
      RenderedConcat(u, opening, lines, opt);
      WriteParts(u, arms, inside + 1, opt, |item| - 1);
      WriteLine(u, Run(inside, item[close..]), opt);
    }

    method WriteLeaf(u: Unicode, toks: seq<Tok>, depth: nat, opt: Options)
      modifies this
      ensures text == old(text) + Rendered(u, LeafLines(toks, 0, 0, depth), opt)
    {
      hide Rendered;
      RenderedNone(u, opt);
      var start := 0;
      for i := 0 to |toks|
        invariant start <= i
        invariant text + Rendered(u, LeafLines(toks, start, i, depth), opt)
               == old(text) + Rendered(u, LeafLines(toks, 0, 0, depth), opt)
      {
        if IsLineComment(toks[i]) {
          RenderedConcat(u, [Run(depth, toks[start..i + 1])], LeafLines(toks, i + 1, i + 1, depth), opt);
          Assoc(text, Rendered(u, [Run(depth, toks[start..i + 1])], opt), Rendered(u, LeafLines(toks, i + 1, i + 1, depth), opt));
          WriteLine(u, Run(depth, toks[start..i + 1]), opt);
          start := i + 1;
        }
      }
      if start < |toks| { WriteLine(u, Run(depth, toks[start..]), opt); }
    }
  }

  lemma RenderedNone(u: Unicode, opt: Options)
    ensures Rendered(u, [], opt) == ""
  {}

  /** Lays one statement out. */
  method WriteOne(u: Unicode, stmt: seq<Tok>, opt: Options) returns (out: string)
    ensures out == Rendered(u, StatementLines(u, stmt, opt), opt)
  {
    var b := new Builder();
    var cs := CutClauses(u, stmt);
    b.WriteClauses(u, cs, 0, opt, |stmt|);
    out := b.text;
  }
}
