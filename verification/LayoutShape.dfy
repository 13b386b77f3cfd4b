/** The shape of a laid out statement (internal/sqlfmt/layout.go): where it is cut,
    what begins a line, how deep, and how wide. */
module SqlShape {
  import opened SqlLex
  import opened SqlTokens
  import opened SqlLayout

  // ----- depth

  /** The places before the i-th where this stands. */
  function Standing(toks: seq<Tok>, i: nat, text: string): set<nat>
    requires i <= |toks|
  {
    set k: nat | k < i && toks[k].text == text
  }

  lemma OneMore(toks: seq<Tok>, i: nat, text: string)
    requires i < |toks|
    ensures |Standing(toks, i + 1, text)| == |Standing(toks, i, text)| + if toks[i].text == text then 1 else 0
  {
    assert Standing(toks, i + 1, text) == Standing(toks, i, text) + if toks[i].text == text then {i} else {};
  }

  /** How deep a place is: the brackets opened before it less those closed. */
  lemma {:induction false} DepthCounts(toks: seq<Tok>, i: nat)
    requires i <= |toks|
    ensures DepthAt(toks, i) == |Standing(toks, i, "(")| - |Standing(toks, i, ")")|
    decreases i
  {
    if i > 0 {
      DepthCounts(toks, i - 1);
      OneMore(toks, i - 1, "(");
      OneMore(toks, i - 1, ")");
      hide Standing;
    }
  }

  lemma {:induction false} DepthFrom(toks: seq<Tok>, from: nat, to: nat, i: nat)
    requires from + i <= to <= |toks|
    ensures DepthAt(toks, from + i) == DepthAt(toks, from) + DepthAt(toks[from..to], i)
    decreases i
  {
    if i > 0 { DepthFrom(toks, from, to, i - 1); }
  }

  // ----- where a list of tokens is cut

  /** A separator outside any bracket ends the piece. */
  predicate EndsWith(p: seq<Tok>, separator: string) {
    p != [] && p[|p| - 1].text == separator && DepthAt(p, |p| - 1) == 0
  }

  /** And none stands before its end. */
  predicate NoneWithin(p: seq<Tok>, separator: string) {
    forall k :: 0 <= k < |p| - 1 ==> !(p[k].text == separator && DepthAt(p, k) == 0)
  }

  /** Cut after each separator that is outside any bracket and nowhere else. */
  predicate CutAtEnds(parts: seq<seq<Tok>>, separator: string) {
    && (forall j :: 0 <= j < |parts| - 1 ==> EndsWith(parts[j], separator))
    && forall j :: 0 <= j < |parts| ==> NoneWithin(parts[j], separator)
  }

  lemma PieceWithin(toks: seq<Tok>, separator: string, from: nat, to: nat)
    requires from < to <= |toks| && DepthAt(toks, from) == 0
    requires forall k :: from <= k < to - 1 ==> !(toks[k].text == separator && DepthAt(toks, k) == 0)
    ensures NoneWithin(toks[from..to], separator)
    ensures toks[to - 1].text == separator && DepthAt(toks, to - 1) == 0 ==> EndsWith(toks[from..to], separator)
  {
    var p := toks[from..to];
    forall k | 0 <= k < |p| - 1 ensures !(p[k].text == separator && DepthAt(p, k) == 0) { DepthFrom(toks, from, to, k); }
    DepthFrom(toks, from, to, |p| - 1);
  }

  lemma OneEnded(p: seq<Tok>, rest: seq<seq<Tok>>, separator: string)
    requires EndsWith(p, separator) && NoneWithin(p, separator) && CutAtEnds(rest, separator)
    ensures CutAtEnds([p] + rest, separator)
  {
    hide EndsWith, NoneWithin;
    var parts := [p] + rest;
    forall j | 0 < j < |parts| ensures parts[j] == rest[j - 1] { }
  }

  lemma {:induction false} PiecesCut(toks: seq<Tok>, separator: string, start: nat, i: nat)
    requires separator != "(" && separator != ")" && start <= i <= |toks| && DepthAt(toks, start) == 0
    requires forall k :: start <= k < i ==> !(toks[k].text == separator && DepthAt(toks, k) == 0)
    ensures CutAtEnds(PiecesAfter(toks, separator, start, i), separator)
    decreases |toks| - i
  {
    if i == |toks| {
      if start < i { PieceWithin(toks, separator, start, i); assert toks[start..] == toks[start..i]; }
    } else if toks[i].text == separator && DepthAt(toks, i) == 0 {
      PieceWithin(toks, separator, start, i + 1);
      assert DepthAt(toks, i + 1) == 0;
      PiecesCut(toks, separator, i + 1, i + 1);
      var rest := PiecesAfter(toks, separator, i + 1, i + 1);
      assert PiecesAfter(toks, separator, start, i) == [toks[start..i + 1]] + rest;
      hide PiecesAfter, EndsWith, NoneWithin, DepthAt, CutAtEnds;
      OneEnded(toks[start..i + 1], rest, separator);
    } else {
      PiecesCut(toks, separator, start, i + 1);
    }
  }

  /** A script is cut into statements after its semicolons, and a body into items
      after its commas, but for what is in brackets. */
  lemma CutWhereItSays(toks: seq<Tok>)
    ensures CutAtEnds(Statements(toks), ";") && Concat(Statements(toks)) == toks
    ensures CutAtEnds(Items(toks), ",") && Concat(Items(toks)) == toks
  {
    PiecesCut(toks, ";", 0, 0);
    PiecesCut(toks, ",", 0, 0);
  }

  /** Cut before each token that is to begin a piece, outside any bracket, and
      nowhere else. */
  predicate CutAtStarts(parts: seq<seq<Tok>>, at: Tok -> bool) {
    && (forall j :: 0 < j < |parts| ==> parts[j] != [] && at(parts[j][0]) && Bracket(parts[j][0]) == 0)
    && forall j, k :: 0 <= j < |parts| && 0 < k < |parts[j]| ==> !(at(parts[j][k]) && DepthAt(parts[j], k + 1) == 0)
  }

  lemma StartWithin(toks: seq<Tok>, at: Tok -> bool, from: nat, to: nat)
    requires from < to <= |toks| && DepthAt(toks, from) == 0
    requires forall k :: from < k < to ==> !(at(toks[k]) && DepthAt(toks, k + 1) == 0)
    ensures var p := toks[from..to]; forall k :: 0 < k < |p| ==> !(at(p[k]) && DepthAt(p, k + 1) == 0)
  {
    var p := toks[from..to];
    forall k | 0 < k < |p| ensures !(at(p[k]) && DepthAt(p, k + 1) == 0) { DepthFrom(toks, from, to, k + 1); }
  }

  lemma OneBefore(p: seq<Tok>, rest: seq<seq<Tok>>, at: Tok -> bool)
    requires CutAtStarts(rest, at) && (rest != [] ==> rest[0] != [] && at(rest[0][0]) && Bracket(rest[0][0]) == 0)
    requires forall k :: 0 < k < |p| ==> !(at(p[k]) && DepthAt(p, k + 1) == 0)
    ensures CutAtStarts([p] + rest, at)
  {
    hide DepthAt, Bracket;
    var parts := [p] + rest;
    forall j | 0 < j < |parts| ensures parts[j] != [] && at(parts[j][0]) && Bracket(parts[j][0]) == 0 { assert parts[j] == rest[j - 1]; }
    forall j, k | 0 <= j < |parts| && 0 < k < |parts[j]| ensures !(at(parts[j][k]) && DepthAt(parts[j], k + 1) == 0) {
      if j > 0 { assert parts[j] == rest[j - 1]; }
    }
  }

  lemma {:induction false} StartsCut(toks: seq<Tok>, at: Tok -> bool, start: nat, i: nat)
    requires start <= i <= |toks| && DepthAt(toks, start) == 0
    requires forall t :: t in toks && at(t) ==> Bracket(t) == 0
    requires forall k :: start < k < i ==> !(at(toks[k]) && DepthAt(toks, k + 1) == 0)
    ensures CutAtStarts(PiecesBefore(toks, at, start, i), at)
    ensures var parts := PiecesBefore(toks, at, start, i); parts != [] ==> start < |toks| && parts[0] != [] && parts[0][0] == toks[start]
    decreases |toks| - i
  {
    if i == |toks| {
      if start < i { StartWithin(toks, at, start, i); assert toks[start..] == toks[start..i]; }
    } else if i > start && at(toks[i]) && DepthAt(toks, i + 1) == 0 {
      StartWithin(toks, at, start, i);
      assert DepthAt(toks, i) == 0;
      assert toks[i] in toks;
      StartsCut(toks, at, i, i + 1);
      var rest := PiecesBefore(toks, at, i, i + 1);
      assert PiecesBefore(toks, at, start, i) == [toks[start..i]] + rest;
      hide PiecesBefore, DepthAt, Bracket;
      OneBefore(toks[start..i], rest, at);
    } else {
      StartsCut(toks, at, start, i + 1);
    }
  }

  /** A condition is cut before each AND and OR, and a CASE before each WHEN and
      ELSE, but for what is in brackets. */
  lemma CutBeforeWords(u: Unicode, toks: seq<Tok>)
    requires forall t :: t in toks && t.kind == Keyword ==> Bracket(t) == 0
    ensures CutAtStarts(Split(toks, Conjunction(u)), Conjunction(u)) && CutAtStarts(Split(toks, Arm(u)), Arm(u))
  {
    StartsCut(toks, Conjunction(u), 0, 0);
    StartsCut(toks, Arm(u), 0, 0);
  }

  // ----- the clauses

  /** A clause from i whose name ends at h and which ends at j: one begins wherever
      it may at depth nought, takes in the words that belong to its name, and goes
      on to where the next begins. */
  predicate ClauseAt(u: Unicode, stmt: seq<Tok>, i: nat, h: nat, j: nat)
    requires i < |stmt|
  {
    && i <= h <= j <= |stmt| && i < j && (h > i <==> Top(u, stmt, i))
    && (h > i ==> (forall q :: i < q < h ==> ExtendsHead(u, stmt, q)) && (h < |stmt| ==> !ExtendsHead(u, stmt, h)))
    && (forall q :: h <= q < j ==> !Top(u, stmt, q))
    && (j < |stmt| ==> Top(u, stmt, j))
  }

  /** The statement from here on is these clauses. */
  predicate CutInClauses(u: Unicode, stmt: seq<Tok>, i: nat, cs: seq<Clause>)
    decreases |cs|
  {
    if cs == [] then i == |stmt|
    else
      var h := i + |cs[0].head|;
      var j := h + |cs[0].body|;
      && i < |stmt| && ClauseAt(u, stmt, i, h, j)
      && cs[0].head == stmt[i..h] && cs[0].body == stmt[h..j]
      && CutInClauses(u, stmt, j, cs[1..])
  }

  lemma {:induction false} NextTopIs(u: Unicode, stmt: seq<Tok>, i: nat)
    requires i <= |stmt|
    ensures var j := NextTop(u, stmt, i); (forall q :: i <= q < j ==> !Top(u, stmt, q)) && (j < |stmt| ==> Top(u, stmt, j))
    decreases |stmt| - i
  {
    hide Top;
    if i < |stmt| && !Top(u, stmt, i) { NextTopIs(u, stmt, i + 1); }
  }

  lemma {:induction false} HeadEndIs(u: Unicode, stmt: seq<Tok>, i: nat)
    requires i <= |stmt|
    ensures var j := HeadEnd(u, stmt, i);
      (forall q :: i <= q < j ==> ExtendsHead(u, stmt, q)) && (j < |stmt| ==> !ExtendsHead(u, stmt, j))
    decreases |stmt| - i
  {
    hide ExtendsHead;
    if i < |stmt| && ExtendsHead(u, stmt, i) { HeadEndIs(u, stmt, i + 1); }
  }

  lemma ClauseIs(u: Unicode, stmt: seq<Tok>, i: nat)
    requires i < |stmt|
    ensures var h := if Top(u, stmt, i) then HeadEnd(u, stmt, i + 1) else i; ClauseAt(u, stmt, i, h, NextTop(u, stmt, h))
  {
    hide Top, ExtendsHead;
    HeadEndIs(u, stmt, i + 1);
    NextTopIs(u, stmt, if Top(u, stmt, i) then HeadEnd(u, stmt, i + 1) else i);
    hide HeadEnd;
  }

  lemma {:induction false} ClausesCutFrom(u: Unicode, stmt: seq<Tok>, i: nat)
    requires i <= |stmt|
    ensures CutInClauses(u, stmt, i, ClausesFrom(u, stmt, i))
    decreases |stmt| - i
  {
    hide Top, ExtendsHead, ClauseAt;
    if i < |stmt| {
      var h := if Top(u, stmt, i) then HeadEnd(u, stmt, i + 1) else i;
      var j := NextTop(u, stmt, h);
      ClauseIs(u, stmt, i);
      assert i < j by { assert h > i || NextTop(u, stmt, i) > i; }
      ClausesCutFrom(u, stmt, j);
      var cs, rest := ClausesFrom(u, stmt, i), ClausesFrom(u, stmt, j);
      assert cs == [Clause(stmt[i..h], stmt[h..j])] + rest;
      hide ClausesFrom, NextTop, HeadEnd;
      assert cs[1..] == rest && |cs[0].head| == h - i && |cs[0].body| == j - h;
    }
  }

  /** A statement is cut at its clause words, joins counting as such, and nowhere else. */
  lemma CutAtClauses(u: Unicode, stmt: seq<Tok>)
    ensures CutInClauses(u, stmt, 0, ClausesOf(u, stmt))
  {
    ClausesCutFrom(u, stmt, 0);
  }

  // ----- how deep and how wide

  /** The line is at this depth or deeper; and one that holds a clause whole keeps
      to the width, and nothing in it asks to go down the page. */
  predicate Sits(u: Unicode, l: Line, depth: nat, opt: Options) {
    && l.depth >= depth
    && (l.Joined? ==>
          |Pad(opt, l.depth)| + |LineText(u, l, opt)| <= opt.width
          && !HasLineComment(l.body) && !HasBreak(u, l.body))
  }

  predicate AllSit(u: Unicode, lines: seq<Line>, depth: nat, opt: Options) { forall l :: l in lines ==> Sits(u, l, depth, opt) }

  /** A clause that fits is one line, its name and then its body. One that does not is
      its name on a line, with the body beneath it, deeper. */
  lemma ClauseShape(u: Unicode, c: Clause, depth: nat, opt: Options)
    requires c.body != [] && Inline(u, c.head, opt) != ""
    ensures var lines, text := ClauseLines(u, c, depth, opt), LineText(u, Joined(depth, c.head, c.body), opt);
      if |Pad(opt, depth)| + |text| <= opt.width && !HasLineComment(c.body) && !HasBreak(u, c.body) then
        lines == [Joined(depth, c.head, c.body)]
      else
        lines != [] && lines[0] == Run(depth, c.head) && AllSit(u, lines[1..], depth + 1, opt)
  {
    hide ItemsLines, LineText, HasLineComment, HasBreak, Inline, Sits;
    ItemsSit(u, c.body, depth + 1, opt);
    assert ([Run(depth, c.head)] + ItemsLines(u, c.body, depth + 1, opt))[1..] == ItemsLines(u, c.body, depth + 1, opt);
  }

  lemma SitBoth(u: Unicode, a: seq<Line>, b: seq<Line>, depth: nat, opt: Options)
    requires AllSit(u, a, depth, opt) && AllSit(u, b, depth, opt)
    ensures AllSit(u, a + b, depth, opt)
  {
  }

  lemma SitShallower(u: Unicode, lines: seq<Line>, depth: nat, opt: Options)
    requires AllSit(u, lines, depth + 1, opt)
    ensures AllSit(u, lines, depth, opt)
  {
  }

  lemma RunSits(u: Unicode, toks: seq<Tok>, depth: nat, opt: Options)
    ensures AllSit(u, [Run(depth, toks)], depth, opt) && AllSit(u, [Opened(depth, toks)], depth, opt)
  {
  }

  lemma {:induction false} LeafSits(u: Unicode, toks: seq<Tok>, start: nat, i: nat, depth: nat, opt: Options)
    requires start <= i <= |toks|
    ensures AllSit(u, LeafLines(toks, start, i, depth), depth, opt)
    decreases |toks| - i
  {
    if i < |toks| {
      LeafSits(u, toks, if IsLineComment(toks[i]) then i + 1 else start, i + 1, depth, opt);
      RunSits(u, toks[start..i + 1], depth, opt);
    }
  }

  lemma {:induction false} ClauseSits(u: Unicode, c: Clause, depth: nat, opt: Options)
    ensures AllSit(u, ClauseLines(u, c, depth, opt), depth, opt)
    decreases |c.head| + |c.body|, 5
  {
    RunSits(u, c.head, depth, opt);
    hide ItemsLines, LineText, HasLineComment, HasBreak, Inline;
    if c.body != [] {
      ItemsSit(u, c.body, depth, opt);
      ItemsSit(u, c.body, depth + 1, opt);
      SitShallower(u, ItemsLines(u, c.body, depth + 1, opt), depth, opt);
      SitBoth(u, [Run(depth, c.head)], ItemsLines(u, c.body, depth + 1, opt), depth, opt);
    }
  }

  lemma {:induction false} ItemsSit(u: Unicode, body: seq<Tok>, depth: nat, opt: Options)
    ensures AllSit(u, ItemsLines(u, body, depth, opt), depth, opt)
    decreases |body|, 4
  {
    PartSizes(Items(body));
    PartsSit(u, Items(body), depth, opt, |body|);
  }

  lemma {:induction false} PartsSit(u: Unicode, parts: seq<seq<Tok>>, depth: nat, opt: Options, bound: nat)
    requires forall p :: p in parts ==> |p| <= bound
    ensures AllSit(u, PartsLines(u, parts, depth, opt, bound), depth, opt)
    decreases bound, 3, |parts|
  {
    if parts != [] {
      assert parts[0] in parts;
      ItemSits(u, parts[0], depth, opt);
      PartsSit(u, parts[1..], depth, opt, bound);
      hide ItemLines, Sits;
      SitBoth(u, ItemLines(u, parts[0], depth, opt), PartsLines(u, parts[1..], depth, opt, bound), depth, opt);
    }
  }

  lemma {:induction false} ItemSits(u: Unicode, item: seq<Tok>, depth: nat, opt: Options)
    ensures AllSit(u, ItemLines(u, item, depth, opt), depth, opt)
    decreases |item|, 2
  {
    RunSits(u, item, depth, opt);
    hide Sits, Fits, Flat, Inline;
    GroupSits(u, item, depth, opt);
  }

  lemma {:induction false} GroupSits(u: Unicode, item: seq<Tok>, depth: nat, opt: Options)
    ensures AllSit(u, GroupLines(u, item, depth, opt), depth, opt)
    decreases |item|, 1
  {
    hide PartsLines, LeafLines, BracketLines, CaseLines, Sits;
    var parts := Split(item, Conjunction(u));
    if |parts| > 1 {
      PartSizes(parts);
      PartsSit(u, parts, depth, opt, |item| - 1);
    } else if CaseFrom(u, item, 0) < |item| {
      CaseSits(u, item, CaseFrom(u, item, 0), depth, opt);
    } else if OpenFrom(item, 0) == |item| {
      LeafSits(u, item, 0, 0, depth, opt);
    } else {
      BracketSits(u, item, OpenFrom(item, 0), depth, opt);
    }
  }

  lemma {:induction false} BracketSits(u: Unicode, item: seq<Tok>, open: nat, depth: nat, opt: Options)
    requires open < |item| && open + 1 < Matching(item, open) < |item|
    ensures AllSit(u, BracketLines(u, item, open, depth, opt), depth, opt)
    decreases |item|, 0
  {
    hide InnerLines, Matching, Sits;
    var close := Matching(item, open);
    var inner := item[open + 1..close];
    InnerSits(u, inner, depth + 1, opt);
    SitShallower(u, InnerLines(u, inner, depth + 1, opt), depth, opt);
    RunSits(u, item[..open + 1], depth, opt);
    RunSits(u, item[close..], depth, opt);
    SitBoth(u, [Opened(depth, item[..open + 1])], InnerLines(u, inner, depth + 1, opt), depth, opt);
    SitBoth(u, [Opened(depth, item[..open + 1])] + InnerLines(u, inner, depth + 1, opt), [Run(depth, item[close..])], depth, opt);
  }

  lemma {:induction false} InnerSits(u: Unicode, inner: seq<Tok>, depth: nat, opt: Options)
    ensures AllSit(u, InnerLines(u, inner, depth, opt), depth, opt)
    decreases |inner|, 7
  {
    hide Sits;
    ClausesSit(u, ClausesOf(u, inner), depth, opt, |inner|);
    ItemsSit(u, inner, depth, opt);
  }

  lemma {:induction false} ClausesSit(u: Unicode, cs: seq<Clause>, depth: nat, opt: Options, bound: nat)
    requires forall c :: c in cs ==> |c.head + c.body| <= bound
    ensures AllSit(u, ClausesLines(u, cs, depth, opt, bound), depth, opt)
    decreases bound, 6, |cs|
  {
    if cs != [] {
      assert cs[0] in cs;
      ClauseSits(u, cs[0], depth, opt);
      ClausesSit(u, cs[1..], depth, opt, bound);
      hide ClauseLines, Sits;
      SitBoth(u, ClauseLines(u, cs[0], depth, opt), ClausesLines(u, cs[1..], depth, opt, bound), depth, opt);
    }
  }

  lemma {:induction false} CaseSits(u: Unicode, item: seq<Tok>, open: nat, depth: nat, opt: Options)
    requires open < |item| && Word(u, item[open], {"case"})
    ensures AllSit(u, CaseLines(u, item, open, depth, opt), depth, opt)
    decreases |item|, 0
  {
    hide LeafLines, ArmsLines, Sits;
    var close := EndFrom(u, item, open, 0);
    if close == |item| { LeafSits(u, item, 0, 0, depth, opt); } else { ArmsSit(u, item, open, close, depth, opt); }
  }

  lemma OpeningSits(u: Unicode, item: seq<Tok>, open: nat, depth: nat, opt: Options)
    requires open < |item|
    ensures AllSit(u, CaseOpening(item, open, depth), depth, opt)
  {
    RunSits(u, item[..open], depth, opt);
    RunSits(u, item[open..open + 1], depth, opt);
    RunSits(u, item[open..open + 1], depth + 1, opt);
    SitShallower(u, [Run(depth + 1, item[open..open + 1])], depth, opt);
    hide Sits, AllSit;
    if open > 0 { SitBoth(u, [Run(depth, item[..open])], [Run(depth + 1, item[open..open + 1])], depth, opt); }
  }

  lemma {:induction false} ArmsSit(u: Unicode, item: seq<Tok>, open: nat, close: nat, depth: nat, opt: Options)
    requires open < close < |item|
    ensures AllSit(u, ArmsLines(u, item, open, close, depth, opt), depth, opt)
    decreases |item| - 1, 9
  {
    hide PartsLines, Split, Sits, AllSit, CaseOpening;
    var arms := Split(item[open + 1..close], Arm(u));
    PartSizes(arms);
    var inside := if open > 0 then depth + 1 else depth;
    PartsSit(u, arms, inside + 1, opt, |item| - 1);
    var first, mid, last := CaseOpening(item, open, depth), PartsLines(u, arms, inside + 1, opt, |item| - 1), [Run(inside, item[close..])];
    SitShallower(u, mid, inside, opt);
    RunSits(u, item[close..], inside, opt);
    if open > 0 {
      SitShallower(u, mid, depth, opt);
      SitShallower(u, last, depth, opt);
    }
    OpeningSits(u, item, open, depth, opt);
    SitBoth(u, first, mid, depth, opt);
    SitBoth(u, first + mid, last, depth, opt);
  }

  /** Every line that holds a whole clause keeps to the width, wherever in the
      statement it is. */
  lemma WholeClausesFit(u: Unicode, stmt: seq<Tok>, opt: Options)
    ensures forall l :: l in StatementLines(u, stmt, opt) && l.Joined? ==> |Pad(opt, l.depth)| + |LineText(u, l, opt)| <= opt.width
  {
    ClausesSit(u, ClausesOf(u, stmt), 0, opt, |stmt|);
  }

  // ----- statements written out

  /** Where every clause fits, a statement is its clauses, one to a line down the left. */
  lemma ShortStatement(u: Unicode, stmt: seq<Tok>, opt: Options)
    requires forall c :: c in ClausesOf(u, stmt) ==>
      c.body != [] && |LineText(u, Joined(0, c.head, c.body), opt)| <= opt.width && !HasLineComment(c.body) && !HasBreak(u, c.body)
    ensures var cs, lines := ClausesOf(u, stmt), StatementLines(u, stmt, opt);
      |lines| == |cs| && forall k :: 0 <= k < |cs| ==> lines[k] == Joined(0, cs[k].head, cs[k].body)
  {
    ShortClauses(u, ClausesOf(u, stmt), opt, |stmt|);
  }

  lemma {:induction false} ShortClauses(u: Unicode, cs: seq<Clause>, opt: Options, bound: nat)
    requires forall c :: c in cs ==> |c.head + c.body| <= bound
    requires forall c :: c in cs ==>
      c.body != [] && |LineText(u, Joined(0, c.head, c.body), opt)| <= opt.width && !HasLineComment(c.body) && !HasBreak(u, c.body)
    ensures var lines := ClausesLines(u, cs, 0, opt, bound);
      |lines| == |cs| && forall k :: 0 <= k < |cs| ==> lines[k] == Joined(0, cs[k].head, cs[k].body)
    decreases |cs|
  {
    hide LineText, HasLineComment, HasBreak, ItemsLines, Inline;
    if cs != [] {
      assert cs[0] in cs;
      ShortClauses(u, cs[1..], opt, bound);
      assert ClauseLines(u, cs[0], 0, opt) == [Joined(0, cs[0].head, cs[0].body)];
      hide ClauseLines;
    }
  }

  /** A token standing anywhere. */
  function T(kind: TokenKind, text: string): Tok { Tok(kind, text, false, 0, 0) }

  lemma Grown(u: Unicode, toks: seq<Tok>, t: Tok, opt: Options)
    ensures Inline(u, toks + [t], opt)
         == Inline(u, toks, opt) + (if toks != [] && SpaceBetween(u, toks[|toks| - 1], t) then " " else "") + Cased(u, t, opt)
  {
    assert (toks + [t])[..|toks|] == toks;
  }

  lemma OneToken(u: Unicode, t: Tok, opt: Options)
    ensures Inline(u, [t], opt) == Cased(u, t, opt)
  {
    Grown(u, [], t, opt);
    assert [] + [t] == [t];
  }

  lemma TwoTokens(u: Unicode, a: Tok, b: Tok, opt: Options)
    ensures Inline(u, [a, b], opt) == Cased(u, a, opt) + (if SpaceBetween(u, a, b) then " " else "") + Cased(u, b, opt)
  {
    OneToken(u, a, opt);
    Grown(u, [a], b, opt);
    assert [a] + [b] == [a, b];
  }

  /** A dot and a cast touch what is on either side, and a comma what is before it. */
  lemma DotsTouch(u: Unicode, opt: Options)
    requires !opt.upper
    ensures Inline(u, [T(Identifier, "t"), T(Punctuation, "."), T(Identifier, "x")], opt) == "t.x"
    ensures Inline(u, [T(Identifier, "x"), T(Operator, "::"), T(Type, "int")], opt) == "x::int"
    ensures Inline(u, [T(Identifier, "x"), T(Punctuation, ","), T(Identifier, "y")], opt) == "x, y"
  {
    hide Inline;
    ThreeTokens(u, T(Identifier, "t"), T(Punctuation, "."), T(Identifier, "x"), opt);
    ThreeTokens(u, T(Identifier, "x"), T(Operator, "::"), T(Type, "int"), opt);
    ThreeTokens(u, T(Identifier, "x"), T(Punctuation, ","), T(Identifier, "y"), opt);
  }

  lemma ThreeTokens(u: Unicode, a: Tok, b: Tok, c: Tok, opt: Options)
    ensures Inline(u, [a, b, c], opt)
         == Cased(u, a, opt) + (if SpaceBetween(u, a, b) then " " else "") + Cased(u, b, opt)
            + (if SpaceBetween(u, b, c) then " " else "") + Cased(u, c, opt)
  {
    hide Inline, Cased, SpaceBetween;
    TwoTokens(u, a, b, opt);
    Grown(u, [a, b], c, opt);
    assert [a, b] + [c] == [a, b, c];
  }

  /** A name and the bracket that calls it touch. */
  lemma CallsTouch(u: Unicode, opt: Options)
    requires !opt.upper
    ensures Inline(u, [T(Function, "f"), T(Punctuation, "("), T(Operator, "*")], opt) == "f(*"
    ensures Inline(u, [T(Punctuation, "("), T(Operator, "*"), T(Punctuation, ")")], opt) == "(*)"
  {
    hide Inline;
    ThreeTokens(u, T(Function, "f"), T(Punctuation, "("), T(Operator, "*"), opt);
    ThreeTokens(u, T(Punctuation, "("), T(Operator, "*"), T(Punctuation, ")"), opt);
  }

  /** A marked one stands off, and so does one after a word that is no call. */
  lemma OthersStandOff(u: Unicode, opt: Options, one: Tok, open: Tok)
    requires !opt.upper && one.kind in [Identifier, Keyword] && one.text == "w" && open.text == "("
    requires open.spaced || (one.kind == Keyword && u.lower("w") !in CALL_KEYWORDS)
    ensures Inline(u, [one, open, T(Identifier, "n")], opt) == "w (n"
  {
    hide Inline, CALL_KEYWORDS;
    ThreeTokens(u, one, open, T(Identifier, "n"), opt);
  }

  // `select a, b from t;`
  const SELECT := T(Keyword, "select")
  const FROM := T(Keyword, "from")
  const A := T(Identifier, "a")
  const B := T(Identifier, "b")
  const COMMA := T(Punctuation, ",")
  const TABLE := T(Identifier, "t")
  const END := T(Punctuation, ";")
  const CHOICE := [SELECT, A, COMMA, B, FROM, TABLE, END]

  /** What the example asks of case and of white space. */
  predicate Knows(u: Unicode) {
    && u.lower("select") == "select" && u.lower("from") == "from" && u.upper("select") == "SELECT" && u.upper("from") == "FROM"
    && u.trim("SELECT a, b") == "SELECT a, b" && u.trim("FROM t;") == "FROM t;"
  }

  lemma ChoiceTops(u: Unicode)
    requires Knows(u)
    ensures Top(u, CHOICE, 0) && !Top(u, CHOICE, 1) && !Top(u, CHOICE, 2) && !Top(u, CHOICE, 3)
    ensures Top(u, CHOICE, 4) && !Top(u, CHOICE, 5) && !Top(u, CHOICE, 6)
    ensures !ExtendsHead(u, CHOICE, 1) && !ExtendsHead(u, CHOICE, 5)
  {
    var s := CHOICE;
    assert DepthAt(s, 1) == 0 && DepthAt(s, 2) == 0 && DepthAt(s, 3) == 0 && DepthAt(s, 4) == 0;
    hide DepthAt;
  }

  lemma ChoiceCut(u: Unicode)
    requires Knows(u)
    ensures ClausesOf(u, CHOICE) == [Clause([SELECT], [A, COMMA, B]), Clause([FROM], [TABLE, END])]
  {
    hide Top, ExtendsHead, Knows;
    var s := CHOICE;
    ChoiceTops(u);
    assert NextTop(u, s, 7) == 7 && NextTop(u, s, 6) == 7 && NextTop(u, s, 5) == 7;
    assert NextTop(u, s, 4) == 4 && NextTop(u, s, 3) == 4 && NextTop(u, s, 2) == 4 && NextTop(u, s, 1) == 4;
    assert HeadEnd(u, s, 1) == 1 && HeadEnd(u, s, 5) == 5;
    hide NextTop, HeadEnd;
    var last := ClausesFrom(u, s, 4);
    assert last == [Clause(s[4..5], s[5..7])] by { assert ClausesFrom(u, s, 7) == []; }
    assert ClausesFrom(u, s, 0) == [Clause(s[0..1], s[1..4])] + last;
    hide ClausesFrom;
    assert s[0..1] == [SELECT] && s[1..4] == [A, COMMA, B] && s[4..5] == [FROM] && s[5..7] == [TABLE, END];
  }

  lemma ChoiceTexts(u: Unicode, opt: Options)
    requires Knows(u) && opt.upper
    ensures Inline(u, [SELECT], opt) == "SELECT" && Inline(u, [FROM], opt) == "FROM"
    ensures Inline(u, [A, COMMA], opt) == "a," && Inline(u, [B], opt) == "b"
    ensures Inline(u, [A, COMMA, B], opt) == "a, b" && Inline(u, [TABLE, END], opt) == "t;"
  {
    hide Inline;
    OneToken(u, SELECT, opt);
    OneToken(u, FROM, opt);
    OneToken(u, B, opt);
    TwoTokens(u, A, COMMA, opt);
    TwoTokens(u, TABLE, END, opt);
    Grown(u, [A, COMMA], B, opt);
    assert [A, COMMA] + [B] == [A, COMMA, B];
  }

  lemma PlainBody(u: Unicode, body: seq<Tok>)
    requires forall t :: t in body ==> t.kind != Comment && t.kind != Keyword
    ensures !HasLineComment(body) && !HasBreak(u, body)
  {
  }

  lemma ChoiceLines(u: Unicode, opt: Options)
    requires Knows(u) && opt.upper
    ensures LineText(u, Joined(0, [SELECT], [A, COMMA, B]), opt) == "SELECT a, b" && LineText(u, Joined(0, [FROM], [TABLE, END]), opt) == "FROM t;"
  {
    hide Inline;
    ChoiceTexts(u, opt);
    assert "SELECT" + " " + "a, b" == "SELECT a, b" && "FROM" + " " + "t;" == "FROM t;";
  }

  lemma AtLeft(u: Unicode, line: Line, opt: Options)
    requires line.depth == 0
    ensures OneLine(u, line, opt) == LineText(u, line, opt) + "\n"
  {
    hide LineText;
    assert "" + LineText(u, line, opt) == LineText(u, line, opt);
  }

  lemma TwoLines(u: Unicode, a: Line, b: Line, opt: Options)
    ensures Rendered(u, [a, b], opt) == OneLine(u, a, opt) + OneLine(u, b, opt)
  {
    hide OneLine;
    RenderedOne(u, b, opt);
    assert [a, b][1..] == [b];
  }

  /** Wide enough, it is a clause to a line. */
  lemma ChoiceWide(u: Unicode, opt: Options)
    requires Knows(u) && opt.upper && opt.width >= 11
    ensures Rendered(u, StatementLines(u, CHOICE, opt), opt) == "SELECT a, b" + "\n" + ("FROM t;" + "\n")
  {
    hide LineText, HasLineComment, HasBreak, Inline, Rendered, StatementLines, ClausesOf, Knows, OneLine;
    var x, y := Joined(0, [SELECT], [A, COMMA, B]), Joined(0, [FROM], [TABLE, END]);
    ChoiceCut(u);
    ChoiceLines(u, opt);
    PlainBody(u, [A, COMMA, B]);
    PlainBody(u, [TABLE, END]);
    ShortStatement(u, CHOICE, opt);
    assert StatementLines(u, CHOICE, opt) == [x, y];
    TwoLines(u, x, y, opt);
    AtLeft(u, x, opt);
    AtLeft(u, y, opt);
  }

  lemma ChoiceItems()
    ensures Items([A, COMMA, B]) == [[A, COMMA], [B]]
  {
    var s := [A, COMMA, B];
    assert Ends(s, 1, ",") && !Ends(s, 0, ",") && !Ends(s, 2, ",") by { assert DepthAt(s, 1) == 0; }
    hide Ends;
    assert PiecesAfter(s, ",", 2, 2) == [s[2..]] by { assert PiecesAfter(s, ",", 2, 3) == [s[2..]]; }
    assert PiecesAfter(s, ",", 0, 1) == [s[0..2]] + [s[2..]];
    assert s[0..2] == [A, COMMA] && s[2..] == [B];
  }

  lemma TwoParts(u: Unicode, a: seq<Tok>, b: seq<Tok>, depth: nat, opt: Options, bound: nat)
    requires |a| <= bound && |b| <= bound
    requires Fits(opt, depth, Inline(u, a, opt)) && Flat(u, a) && Fits(opt, depth, Inline(u, b, opt)) && Flat(u, b)
    ensures PartsLines(u, [a, b], depth, opt, bound) == [Run(depth, a), Run(depth, b)]
  {
    hide Fits, Flat, Inline;
    assert [a, b][1..] == [b] && [b][1..] == [];
    assert ItemLines(u, a, depth, opt) == [Run(depth, a)] && ItemLines(u, b, depth, opt) == [Run(depth, b)];
    hide ItemLines;
    assert PartsLines(u, [b], depth, opt, bound) == [Run(depth, b)] by { assert PartsLines(u, [], depth, opt, bound) == []; }
  }

  lemma OneIn(opt: Options)
    ensures Pad(opt, 0) == "" && Pad(opt, 1) == opt.indent
  {
    assert "" + opt.indent == opt.indent;
  }

  lemma NarrowBody(u: Unicode, opt: Options)
    requires Knows(u) && opt.upper && |opt.indent| == 4 && opt.width >= 6
    ensures ItemsLines(u, [A, COMMA, B], 1, opt) == [Run(1, [A, COMMA]), Run(1, [B])]
  {
    ChoiceTexts(u, opt);
    ChoiceItems();
    OneIn(opt);
    PlainBody(u, [A, COMMA]);
    PlainBody(u, [B]);
    assert Fits(opt, 1, Inline(u, [A, COMMA], opt)) && Fits(opt, 1, Inline(u, [B], opt));
    hide Inline, HasLineComment, HasBreak, Fits, Items, PartsLines;
    TwoParts(u, [A, COMMA], [B], 1, opt, 3);
  }

  /** The lines of the example where its first clause does not fit. */
  lemma ChoiceNarrow(u: Unicode, opt: Options)
    requires Knows(u) && opt.upper && |opt.indent| == 4 && 7 <= opt.width <= 10
    ensures StatementLines(u, CHOICE, opt) == [Run(0, [SELECT]), Run(1, [A, COMMA]), Run(1, [B]), Joined(0, [FROM], [TABLE, END])]
    ensures OneLine(u, Run(0, [SELECT]), opt) == "SELECT" + "\n" && OneLine(u, Run(1, [A, COMMA]), opt) == opt.indent + "a," + "\n"
    ensures OneLine(u, Run(1, [B]), opt) == opt.indent + "b" + "\n" && OneLine(u, Joined(0, [FROM], [TABLE, END]), opt) == "FROM t;" + "\n"
  {
    hide HasLineComment, HasBreak, Inline, ClausesOf, Knows, ItemsLines, ClausesLines, ClauseLines, LineText, OneLine, Pad;
    NarrowClauses(u, opt);
    NarrowTexts(u, opt);
    ChoiceCut(u);
    var c, d := Clause([SELECT], [A, COMMA, B]), Clause([FROM], [TABLE, END]);
    TwoClauses(u, c, d, opt, |CHOICE|);
  }

  lemma TwoClauses(u: Unicode, c: Clause, d: Clause, opt: Options, bound: nat)
    requires |c.head + c.body| <= bound && |d.head + d.body| <= bound
    ensures ClausesLines(u, [c, d], 0, opt, bound) == ClauseLines(u, c, 0, opt) + ClauseLines(u, d, 0, opt)
  {
    hide ClauseLines;
    assert [c, d][1..] == [d] && [d][1..] == [];
    assert ClausesLines(u, [d], 0, opt, bound) == ClauseLines(u, d, 0, opt) by { assert ClausesLines(u, [], 0, opt, bound) == []; }
  }

  lemma NarrowClauses(u: Unicode, opt: Options)
    requires Knows(u) && opt.upper && |opt.indent| == 4 && 7 <= opt.width <= 10
    ensures ClauseLines(u, Clause([SELECT], [A, COMMA, B]), 0, opt) == [Run(0, [SELECT])] + [Run(1, [A, COMMA]), Run(1, [B])]
    ensures ClauseLines(u, Clause([FROM], [TABLE, END]), 0, opt) == [Joined(0, [FROM], [TABLE, END])]
  {
    hide Inline, HasLineComment, HasBreak, ItemsLines, LineText, Knows;
    ChoiceTexts(u, opt);
    ChoiceLines(u, opt);
    PlainBody(u, [TABLE, END]);
    OneIn(opt);
    NarrowBody(u, opt);
  }

  lemma NarrowTexts(u: Unicode, opt: Options)
    requires Knows(u) && opt.upper
    ensures OneLine(u, Run(0, [SELECT]), opt) == "SELECT" + "\n" && OneLine(u, Run(1, [A, COMMA]), opt) == opt.indent + "a," + "\n"
    ensures OneLine(u, Run(1, [B]), opt) == opt.indent + "b" + "\n" && OneLine(u, Joined(0, [FROM], [TABLE, END]), opt) == "FROM t;" + "\n"
  {
    hide Inline, Knows, Pad;
    ChoiceTexts(u, opt);
    ChoiceLines(u, opt);
    OneIn(opt);
    AtLeft(u, Run(0, [SELECT]), opt);
    AtLeft(u, Joined(0, [FROM], [TABLE, END]), opt);
  }
}
