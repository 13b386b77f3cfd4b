/** What the join lines mean (internal/query/render.go:150-213), and names and
    removals on the canvas (internal/query/design.go:227-303). */
module QueryMeaning {
  import opened Query
  import opened Numerals
  import opened Sequences
  import opened Wrappers

  // ----- the rows a walk keeps

  /** The tables' rows and what they hold, None being NULL. */
  datatype Data = Data(size: int -> nat, cell: (int, nat, string) -> Option<int>)

  /** One row of each table named. */
  type Rows = map<int, nat>

  /** SQL's equality: NULL equals nothing. */
  predicate Equal(a: Option<int>, b: Option<int>) { a.Some? && a == b }

  predicate Meets(d: Data, j: Join, f: Rows)
    requires j.left in f && j.right in f
  {
    j.kind == Cross
    || forall p :: p in j.on ==> Equal(d.cell(j.left, f[j.left], p.left), d.cell(j.right, f[j.right], p.right))
  }

  /** A cell of the row of a table; the row that is missing is all NULL. */
  function CellOf(d: Data, f: Rows, t: int, c: string): Option<int> { if t in f then d.cell(t, f[t], c) else None }

  /** What the line's ON says: a join written the other way round has its pairs
      the other way round too. */
  predicate LineMeets(d: Data, joins: seq<Join>, l: Line, f: Rows)
    requires l.join < |joins|
  {
    var j := joins[l.join];
    j.kind == Cross
    || forall p :: p in j.on ==>
         if l.left != j.left then Equal(CellOf(d, f, l.left, p.right), CellOf(d, f, l.right, p.left))
         else Equal(CellOf(d, f, l.left, p.left), CellOf(d, f, l.right, p.right))
  }

  predicate Brings(d: Data, joins: seq<Join>, l: Line, p: Rows, r: nat) {
    l.join < |joins| && r < d.size(l.right) && LineMeets(d, joins, l, p[l.right := r])
  }

  /** What joining one more table to these rows keeps: the rows it brings; with
      LEFT those it brings nothing to, with RIGHT its own that are brought to
      none, and with FULL both. */
  ghost predicate StepKeeps(d: Data, joins: seq<Join>, l: Line, kind: Kind, s: iset<Rows>, f: Rows) {
    || (exists p, r :: p in s && Brings(d, joins, l, p, r) && f == p[l.right := r])
    || ((kind == Left || kind == Full) && f in s && forall r: nat :: !Brings(d, joins, l, f, r))
    || ((kind == Right || kind == Full)
        && exists r :: 0 <= r < d.size(l.right) && f == map[l.right := r] && forall p :: p in s ==> !Brings(d, joins, l, p, r))
  }

  ghost function Step(d: Data, joins: seq<Join>, l: Line, kind: Kind, s: iset<Rows>): iset<Rows> {
    iset f: Rows | StepKeeps(d, joins, l, kind, s, f)
  }

  /** The kind a line is written with: its join's own, whichever end comes first. */
  function WrittenKind(joins: seq<Join>, l: Line): Kind { if l.join < |joins| then joins[l.join].kind else Cross }

  /** The kind that means the join with the line's ends: mirrored when they are swapped. */
  function MeantKind(joins: seq<Join>, l: Line): Kind {
    var kind := WrittenKind(joins, l);
    if l.join >= |joins| || l.left == joins[l.join].left then kind
    else if kind == Left then Right else if kind == Right then Left else kind
  }

  ghost function FirstTable(d: Data): iset<Rows> { iset f: Rows | f.Keys == {0} && f[0] < d.size(0) }

  /** What FROM and the lines keep, line by line, as they are written. */
  ghost function Kept(d: Data, joins: seq<Join>, lines: seq<Line>): iset<Rows> {
    if lines == [] then FirstTable(d)
    else
      var last := lines[|lines| - 1];
      Step(d, joins, last, WrittenKind(joins, last), Kept(d, joins, lines[..|lines| - 1]))
  }

  /** And what they would, each join meaning what the design has it mean. */
  ghost function Asked(d: Data, joins: seq<Join>, lines: seq<Line>): iset<Rows> {
    if lines == [] then FirstTable(d)
    else
      var last := lines[|lines| - 1];
      Step(d, joins, last, MeantKind(joins, last), Asked(d, joins, lines[..|lines| - 1]))
  }

  predicate InnerOrCross(joins: seq<Join>) { forall i :: 0 <= i < |joins| ==> joins[i].kind == Inner || joins[i].kind == Cross }

  /** A row of each table named that every line's pairs hold of. */
  ghost predicate Fits(d: Data, n: nat, joins: seq<Join>, lines: seq<Line>, f: Rows)
    requires Walks(n, joins, lines)
  {
    && f.Keys == Named(lines) && (forall t :: t in f ==> f[t] < d.size(t))
    && forall i :: 0 <= i < |lines| ==> LineHolds(d, joins, lines[i], f)
  }

  predicate LineHolds(d: Data, joins: seq<Join>, l: Line, f: Rows) {
    l.join < |joins| && l.left in f && l.right in f && LineMeets(d, joins, l, f)
  }

  /** By inner and cross joins, joining table after table keeps the rows of the
      product of all of them that every pair holds of. */
  lemma {:induction false} WalkKeeps(d: Data, n: nat, joins: seq<Join>, lines: seq<Line>, f: Rows)
    requires Walks(n, joins, lines) && InnerOrCross(joins)
    ensures f in Kept(d, joins, lines) <==> Fits(d, n, joins, lines, f)
  {
    if lines == [] {
      NamedNothing();
    } else {
      var init, last := lines[..|lines| - 1], lines[|lines| - 1];
      WalksLess(n, joins, lines);
      assert last.join < |joins|;
      hide Named, Walks, LineMeets, Fits, Brings;
      if f in Kept(d, joins, lines) {
        var p: Rows, r: nat :| p in Kept(d, joins, init) && Brings(d, joins, last, p, r) && f == p[last.right := r];
        WalkKeeps(d, n, joins, init, p);
        KeptMore(d, n, joins, lines, p, r);
      }
      if Fits(d, n, joins, lines, f) {
        var p, r := KeptLess(d, n, joins, lines, f);
        WalkKeeps(d, n, joins, init, p);
      }
    }
  }

  /** What a line says of its two tables' rows, and of nothing else. */
  lemma LineOnly(d: Data, joins: seq<Join>, l: Line, f: Rows, g: Rows)
    requires l.left in f && l.right in f && l.left in g && l.right in g
    requires f[l.left] == g[l.left] && f[l.right] == g[l.right]
    ensures LineHolds(d, joins, l, f) == LineHolds(d, joins, l, g)
  {
  }

  lemma LineNamed(n: nat, joins: seq<Join>, lines: seq<Line>, i: nat)
    requires Walks(n, joins, lines) && i < |lines|
    ensures lines[i].left in Named(lines) && lines[i].right in Named(lines)
  {
    assert lines[i].left in Named(lines[..i]);
  }

  lemma LastHolds(d: Data, joins: seq<Join>, l: Line, p: Rows, r: nat)
    requires l.left in p && Brings(d, joins, l, p, r)
    ensures LineHolds(d, joins, l, p[l.right := r])
  {
  }

  lemma KeptMore(d: Data, n: nat, joins: seq<Join>, lines: seq<Line>, p: Rows, r: nat)
    requires Walks(n, joins, lines) && lines != []
    requires Walks(n, joins, lines[..|lines| - 1]) && Fits(d, n, joins, lines[..|lines| - 1], p)
    requires Brings(d, joins, lines[|lines| - 1], p, r)
    ensures Fits(d, n, joins, lines, p[lines[|lines| - 1].right := r])
  {
    var init, last := lines[..|lines| - 1], lines[|lines| - 1];
    var f := p[last.right := r];
    hide Named, Walks, LineMeets, LineHolds, Writes;
    LastLine(n, joins, lines);
    WalksLess(n, joins, lines);
    KeysMore(p, last.right, r);
    FitSizes(d, n, joins, init, p);
    SizesMore(d, p, last.right, r);
    AllHold(d, n, joins, lines, p, r);
    hide Brings, LineHolds;
  }

  lemma AllHold(d: Data, n: nat, joins: seq<Join>, lines: seq<Line>, p: Rows, r: nat)
    requires Walks(n, joins, lines) && lines != []
    requires Walks(n, joins, lines[..|lines| - 1]) && Fits(d, n, joins, lines[..|lines| - 1], p)
    requires Brings(d, joins, lines[|lines| - 1], p, r)
    ensures forall i :: 0 <= i < |lines| ==> LineHolds(d, joins, lines[i], p[lines[|lines| - 1].right := r])
  {
    hide Named, Walks, LineMeets, LineHolds, Writes, Brings;
    var init, last := lines[..|lines| - 1], lines[|lines| - 1];
    LastLine(n, joins, lines);
    LastHolds(d, joins, last, p, r);
    StillHold(d, n, joins, init, p, p[last.right := r]);
    forall i | 0 <= i < |lines| ensures LineHolds(d, joins, lines[i], p[last.right := r]) {
      if i < |init| { assert lines[i] == init[i]; }
    }
  }

  lemma SizesMore(d: Data, p: Rows, t: int, r: nat)
    requires r < d.size(t) && forall o :: o in p ==> p[o] < d.size(o)
    ensures forall o :: o in p[t := r] ==> p[t := r][o] < d.size(o)
  {
  }

  lemma FitSizes(d: Data, n: nat, joins: seq<Join>, lines: seq<Line>, f: Rows)
    requires Walks(n, joins, lines) && Fits(d, n, joins, lines, f)
    ensures forall t :: t in f ==> f[t] < d.size(t)
  {
  }

  lemma KeysMore(p: Rows, t: int, r: nat)
    ensures p[t := r].Keys == p.Keys + {t}
  {
  }

  /** Rows of more tables fit what rows of fewer did. */
  lemma StillHold(d: Data, n: nat, joins: seq<Join>, lines: seq<Line>, p: Rows, f: Rows)
    requires Walks(n, joins, lines) && Fits(d, n, joins, lines, p)
    requires forall t :: t in p ==> t in f && f[t] == p[t]
    ensures forall i :: 0 <= i < |lines| ==> LineHolds(d, joins, lines[i], f)
  {
    hide Named, Walks, LineMeets, LineHolds;
    forall i | 0 <= i < |lines| ensures LineHolds(d, joins, lines[i], f) {
      assert LineHolds(d, joins, lines[i], p);
      LineNamed(n, joins, lines, i);
      LineOnly(d, joins, lines[i], p, f);
    }
  }

  lemma KeptLess(d: Data, n: nat, joins: seq<Join>, lines: seq<Line>, f: Rows) returns (p: Rows, r: nat)
    requires Walks(n, joins, lines) && lines != [] && Fits(d, n, joins, lines, f)
    requires Walks(n, joins, lines[..|lines| - 1])
    ensures Fits(d, n, joins, lines[..|lines| - 1], p)
    ensures var last := lines[|lines| - 1]; Brings(d, joins, last, p, r) && f == p[last.right := r]
  {
    var init, last := lines[..|lines| - 1], lines[|lines| - 1];
    WalksLess(n, joins, lines);
    LineNamed(n, joins, lines, |lines| - 1);
    p, r := f - {last.right}, f[last.right];
    assert last.right !in Named(init) && last.left in Named(init);
    assert LineHolds(d, joins, lines[|lines| - 1], f);
    assert p.Keys == f.Keys - {last.right} == Named(init);
    assert f == p[last.right := r];
    hide Named, Walks, LineMeets;
    forall i | 0 <= i < |init| ensures LineHolds(d, joins, init[i], p) {
      assert LineHolds(d, joins, lines[i], f);
      LineNamed(n, joins, init, i);
      LineOnly(d, joins, init[i], f, p);
    }
  }

  // ----- a whole design

  function UpTo(n: nat): (s: set<int>)
    ensures |s| == n && forall t :: t in s <==> 0 <= t < n
  {
    if n == 0 then {} else UpTo(n - 1) + {n - 1}
  }

  /** What the design asks for: a row of every table, every join's pairs holding. */
  ghost predicate Wanted(d: Data, n: nat, joins: seq<Join>, f: Rows) {
    && f.Keys == UpTo(n)
    && (forall t :: t in f ==> f[t] < d.size(t))
    && forall j :: j in joins ==> j.left in f && j.right in f && Meets(d, j, f)
  }

  predicate NamesOnce(lines: seq<Line>) {
    (forall i :: 0 <= i < |lines| ==> lines[i].right != 0) && forall i, j :: 0 <= i < j < |lines| ==> lines[i].right != lines[j].right
  }

  lemma WalkDistinct(n: nat, joins: seq<Join>, line: seq<Line>)
    requires Walks(n, joins, line)
    ensures NamesOnce(line)
  {
    forall i | 0 <= i < |line| ensures line[i].right != 0 { assert line[i].right !in Named(line[..i]); }
    forall i, j | 0 <= i < j < |line| ensures line[i].right != line[j].right {
      assert line[j].right !in Named(line[..j]) && line[..j][i] == line[i];
    }
  }

  lemma TrailNamesAgain(out: seq<Line>, walked: nat, k: nat)
    requires walked <= k < |out| && out[k].right in Named(out[..walked])
    ensures !NamesOnce(out)
  {
    if out[k].right != 0 {
      var i :| 0 <= i < walked && out[..walked][i].right == out[k].right;
      assert out[i].right == out[k].right;
    }
  }

  /** For a valid design the walk names every table, in one line less than there
      are tables; and every table is named just once exactly when there are no
      more joins than that, so that they make a tree. */
  lemma TreeNamesOnce(n: nat, joins: seq<Join>, out: seq<Line>, walked: nat)
    requires n > 0 && Valid(n, joins)
    requires walked <= |out| == |joins| && Walks(n, joins, out[..walked])
    requires forall t :: t in Named(out[..walked]) <==> Connected(n, joins, t)
    requires forall i :: walked <= i < |out| ==> Trails(joins, out[i], Named(out[..walked]))
    ensures walked == n - 1
    ensures NamesOnce(out) <==> |joins| == n - 1
  {
    var line := out[..walked];
    WalkNames(n, joins, line);
    assert Named(line) == UpTo(n);
    if walked < |out| {
      assert Trails(joins, out[walked], Named(line));
      assert Sensible(n, joins[out[walked].join]);
      hide Connected, Walks, Named, NamesOnce;
      TrailNamesAgain(out, walked, walked);
    } else {
      assert out == line;
      WalkDistinct(n, joins, line);
    }
  }

  lemma LineIsJoin(d: Data, n: nat, joins: seq<Join>, l: Line, f: Rows)
    requires Writes(n, joins, l) && joins[l.join].left != joins[l.join].right && l.left in f && l.right in f
    ensures LineMeets(d, joins, l, f) <==> Meets(d, joins[l.join], f)
  {
  }

  /** When the joins make a tree and are inner or cross, the lines mean what the
      design asks for, whichever way round each was written. */
  lemma TreeMeans(d: Data, n: nat, joins: seq<Join>, out: seq<Line>, f: Rows)
    requires n > 0 && Valid(n, joins) && |joins| == n - 1 && InnerOrCross(joins)
    requires |out| == |joins| && Once(out) && Walks(n, joins, out) && forall t :: t in Named(out) <==> Connected(n, joins, t)
    ensures f in Kept(d, joins, out) <==> Wanted(d, n, joins, f)
  {
    hide Kept, LineHolds, Walks, Once, Meets;
    WalkKeeps(d, n, joins, out, f);
    assert Named(out) == UpTo(n);
    hide Connected, Named;
    if f.Keys == UpTo(n) { LinesAreJoins(d, n, joins, out, f); }
  }

  lemma LinesAreJoins(d: Data, n: nat, joins: seq<Join>, out: seq<Line>, f: Rows)
    requires (forall j :: j in joins ==> Sensible(n, j)) && f.Keys == UpTo(n)
    requires |out| == |joins| && Once(out) && Walks(n, joins, out)
    ensures (forall i :: 0 <= i < |out| ==> LineHolds(d, joins, out[i], f))
      <==> forall j :: j in joins ==> j.left in f && j.right in f && Meets(d, j, f)
  {
    hide Meets, Named, LineMeets;
    forall i | 0 <= i < |out|
      ensures Writes(n, joins, out[i]) && joins[out[i].join] in joins
      ensures out[i].left in f && out[i].right in f && joins[out[i].join].left in f && joins[out[i].join].right in f
      ensures LineHolds(d, joins, out[i], f) <==> Meets(d, joins[out[i].join], f)
    {
      assert Writes(n, joins, out[i]);
      assert Sensible(n, joins[out[i].join]);
      LineIsJoin(d, n, joins, out[i], f);
    }
    if forall i :: 0 <= i < |out| ==> LineHolds(d, joins, out[i], f) {
      forall j | j in joins ensures j.left in f && j.right in f && Meets(d, j, f) {
        var k :| 0 <= k < |joins| && joins[k] == j;
        EachWritten(n, joins, out, k);
        var i :| 0 <= i < |out| && out[i].join == k;
      }
    }
  }

  /** As many lines as joins, none writing one twice, leave none out. */
  lemma EachWritten(n: nat, joins: seq<Join>, out: seq<Line>, k: nat)
    requires Once(out) && |out| == |joins| && k < |joins| && forall i :: 0 <= i < |out| ==> out[i].join < |joins|
    ensures exists i :: 0 <= i < |out| && out[i].join == k
  {
    WrittenCount(out);
    if k !in Written(out) {
      var all := UpTo(|joins|);
      assert Written(out) <= all - {k};
      Smaller(Written(out), all - {k});
    }
  }

  lemma Smaller(a: set<int>, b: set<int>)
    requires a <= b
    ensures |a| <= |b|
  {
    if a != b { assert |b - a| + |a| == |b| by { assert b == a + (b - a); } }
  }

  // ----- outer joins

  /** Walked from its own left end, or of a kind that has no ends to swap. */
  predicate FromOwnEnd(joins: seq<Join>, l: Line) {
    l.join < |joins| && (joins[l.join].kind == Left || joins[l.join].kind == Right) ==> l.left == joins[l.join].left
  }

  /** Against a table with no rows, LEFT keeps what there was and RIGHT nothing. */
  lemma EmptyTable(d: Data, joins: seq<Join>, l: Line, s: iset<Rows>)
    requires d.size(l.right) == 0
    ensures Step(d, joins, l, Left, s) == s
    ensures Step(d, joins, l, Right, s) == iset{}
  {
  }

  /** A line means its join, whatever the data and the rows it is joined to,
      exactly when an outer join is walked from its own left end: written from
      the other it is still LEFT or still RIGHT, and keeps rows nobody asked for. */
  lemma OuterSwapped(joins: seq<Join>, l: Line)
    requires l.join < |joins|
    ensures (forall d, s :: Step(d, joins, l, WrittenKind(joins, l), s) == Step(d, joins, l, MeantKind(joins, l), s))
      <==> FromOwnEnd(joins, l)
  {
    if !FromOwnEnd(joins, l) {
      var d, s: iset<Rows> := Data(t => 0, (t, r, c) => None), iset{map[l.left := 0]};
      EmptyTable(d, joins, l, s);
      assert map[l.left := 0] in s;
      assert Step(d, joins, l, WrittenKind(joins, l), s) != Step(d, joins, l, MeantKind(joins, l), s);
    }
  }

  /** The first row of each of these tables. */
  function Zeros(tables: set<int>): Rows { map t | t in tables :: 0 }

  /** Every table the lines name has one row, and every column the same value. */
  ghost predicate OneRow(d: Data, lines: seq<Line>) {
    && d.size(0) == 1 && (forall i :: 0 <= i < |lines| ==> d.size(lines[i].right) == 1)
    && forall t, r, c :: d.cell(t, r, c) == Some(0)
  }

  lemma OneMeets(d: Data, joins: seq<Join>, l: Line, kind: Kind, tables: set<int>)
    requires l.join < |joins| && l.left in tables && l.right !in tables && d.size(l.right) == 1
    requires forall t, r, c :: d.cell(t, r, c) == Some(0)
    ensures Step(d, joins, l, kind, iset{Zeros(tables)}) == iset{Zeros(tables + {l.right})}
  {
    var p, f, s := Zeros(tables), Zeros(tables + {l.right}), iset{Zeros(tables)};
    assert p[l.right := 0] == f;
    assert Brings(d, joins, l, p, 0);
    forall r: nat | Brings(d, joins, l, p, r) ensures r == 0 { }
    forall g ensures StepKeeps(d, joins, l, kind, s, g) <==> g == f { }
  }

  lemma {:induction false} AllMeet(d: Data, n: nat, joins: seq<Join>, lines: seq<Line>)
    requires Walks(n, joins, lines) && OneRow(d, lines)
    ensures Kept(d, joins, lines) == iset{Zeros(Named(lines))} == Asked(d, joins, lines)
  {
    if lines == [] {
      NamedNothing();
      forall f: Rows ensures f in FirstTable(d) <==> f == Zeros({0}) { if f in FirstTable(d) { assert f == Zeros({0}); } }
    } else {
      var init, last := lines[..|lines| - 1], lines[|lines| - 1];
      WalksLess(n, joins, lines);
      LastLine(n, joins, lines);
      assert OneRow(d, init);
      AllMeet(d, n, joins, init);
      hide Walks, Named, Step, Zeros;
      OneMeets(d, joins, last, WrittenKind(joins, last), Named(init));
      OneMeets(d, joins, last, MeantKind(joins, last), Named(init));
    }
  }

  lemma {:induction false} AskedKept(d: Data, joins: seq<Join>, lines: seq<Line>)
    requires forall i :: 0 <= i < |lines| ==> FromOwnEnd(joins, lines[i])
    ensures Kept(d, joins, lines) == Asked(d, joins, lines)
  {
    if lines != [] {
      assert FromOwnEnd(joins, lines[|lines| - 1]);
      AskedKept(d, joins, lines[..|lines| - 1]);
    }
  }

  /** Along a walk, what the lines keep is after each of them what the design asks
      for, whatever the data, exactly when every LEFT and RIGHT join is walked
      from its own left end. */
  lemma WalkAsks(n: nat, joins: seq<Join>, lines: seq<Line>)
    requires Walks(n, joins, lines)
    ensures (forall d, k: nat :: k <= |lines| ==> Kept(d, joins, lines[..k]) == Asked(d, joins, lines[..k]))
      <==> forall i :: 0 <= i < |lines| ==> FromOwnEnd(joins, lines[i])
  {
    if forall i :: 0 <= i < |lines| ==> FromOwnEnd(joins, lines[i]) {
      forall d, k: nat | k <= |lines| ensures Kept(d, joins, lines[..k]) == Asked(d, joins, lines[..k]) {
        AskedKept(d, joins, lines[..k]);
      }
    } else {
      var i :| 0 <= i < |lines| && !FromOwnEnd(joins, lines[i]);
      var d := SwapShows(n, joins, lines, i);
      assert Kept(d, joins, lines[..i + 1]) != Asked(d, joins, lines[..i + 1]);
    }
  }

  /** The joins but for one. */
  function Less(joins: seq<Join>, m: nat): seq<Join>
    requires m < |joins|
  {
    joins[..m] + joins[m + 1..]
  }

  lemma LessHas(joins: seq<Join>, m: nat, j: nat)
    requires m < |joins| && j < |joins| && j != m
    ensures var at := if j < m then j else j - 1; at < |Less(joins, m)| && Less(joins, m)[at] == joins[j]
  {
  }

  lemma LessFrom(joins: seq<Join>, m: nat, at: nat)
    requires m < |joins| && at < |Less(joins, m)|
    ensures var j := if at < m then at else at + 1; j < |joins| && j != m && Less(joins, m)[at] == joins[j]
  {
  }

  /** What was named before a line is connected without its join. */
  lemma {:induction false} NamedWithout(n: nat, joins: seq<Join>, out: seq<Line>, i: nat, k: nat)
    requires n > 0 && Walks(n, joins, out) && Once(out) && k <= i < |out| && out[i].join < |joins|
    ensures forall t :: t in Named(out[..k]) ==> Connected(n, Less(joins, out[i].join), t)
  {
    hide Walks, Once, Connected, Links, Writes, Less, Named;
    var rest := Less(joins, out[i].join);
    if k == 0 {
      StartConnected(n, rest);
      NothingNamed(out);
    } else {
      NamedWithout(n, joins, out, i, k - 1);
      var l := out[k - 1];
      WalkLine(n, joins, out, k - 1);
      OtherJoin(out, k - 1, i);
      LinkedWithout(n, joins, l, out[i].join);
      StepConnected(n, rest, l.left, l.right);
    }
  }

  lemma OtherJoin(out: seq<Line>, k: nat, i: nat)
    requires Once(out) && k < i < |out|
    ensures out[k].join != out[i].join
  {
  }

  /** What a line of a walk does. */
  lemma WalkLine(n: nat, joins: seq<Join>, out: seq<Line>, k: nat)
    requires Walks(n, joins, out) && k < |out|
    ensures Writes(n, joins, out[k]) && out[k].left in Named(out[..k]) && out[k].right !in Named(out[..k])
    ensures Named(out[..k + 1]) == Named(out[..k]) + {out[k].right}
  {
    assert out[..k + 1] == out[..k] + [out[k]];
    NamedMore(out[..k], out[k]);
    hide Named;
  }

  lemma LinkedWithout(n: nat, joins: seq<Join>, l: Line, m: nat)
    requires Writes(n, joins, l) && m < |joins| && m != l.join
    ensures Linked(n, Less(joins, m), l.left, l.right)
  {
    LessHas(joins, m, l.join);
  }

  lemma NothingNamed(out: seq<Line>)
    ensures Named(out[..0]) == {0}
  {
  }

  /** What the lines before the k-th bring in by way of the i-th. */
  function Below(out: seq<Line>, i: nat, k: nat): set<int>
    requires i < k <= |out|
  {
    if k == i + 1 then {out[i].right}
    else Below(out, i, k - 1) + if out[k - 1].left in Below(out, i, k - 1) then {out[k - 1].right} else {}
  }

  lemma {:induction false} BelowIs(n: nat, joins: seq<Join>, out: seq<Line>, i: nat, k: nat)
    requires Walks(n, joins, out) && i < k <= |out|
    ensures forall t :: t in Below(out, i, k) ==> t in Named(out[..k]) && t !in Named(out[..i])
  {
    hide Walks, Writes, Named;
    WalkLine(n, joins, out, k - 1);
    if k > i + 1 {
      BelowIs(n, joins, out, i, k - 1);
      NamedGrows(out, i, k - 1);
    }
  }

  lemma NamedGrows(out: seq<Line>, i: nat, k: nat)
    requires i <= k <= |out|
    ensures Named(out[..i]) <= Named(out[..k])
  {
    forall t | t in Named(out[..i]) ensures t in Named(out[..k]) {
      if t != 0 { var q :| 0 <= q < i && out[..i][q].right == t; assert out[..k][q].right == t; }
    }
  }

  /** A table is below a line or not from when it is named on. */
  lemma {:induction false} BelowStays(n: nat, joins: seq<Join>, out: seq<Line>, i: nat, k: nat, end: nat, t: int)
    requires Walks(n, joins, out) && i < k <= end <= |out| && t in Named(out[..k])
    ensures t in Below(out, i, k) <==> t in Below(out, i, end)
    decreases end
  {
    hide Walks, Writes, Named;
    if k < end {
      BelowStays(n, joins, out, i, k, end - 1, t);
      NamedGrows(out, k, end - 1);
      WalkLine(n, joins, out, end - 1);
    }
  }

  /** Every other line has both its ends below, or neither. */
  lemma SameSide(n: nat, joins: seq<Join>, out: seq<Line>, i: nat, q: nat)
    requires Walks(n, joins, out) && i < |out| && q < |out| && q != i
    ensures out[q].left in Below(out, i, |out|) <==> out[q].right in Below(out, i, |out|)
  {
    hide Walks, Writes, Named;
    var l := out[q];
    WalkLine(n, joins, out, q);
    BelowIs(n, joins, out, i, |out|);
    if q < i {
      NamedGrows(out, q + 1, i);
    } else {
      BelowIs(n, joins, out, i, q);
      BelowStays(n, joins, out, i, q, |out|, l.left);
      BelowStays(n, joins, out, i, q + 1, |out|, l.right);
    }
  }

  /** What a line brings in is not connected without its join, when every join is a line. */
  lemma RightWithout(n: nat, joins: seq<Join>, out: seq<Line>, i: nat)
    requires n > 0 && Walks(n, joins, out) && Once(out) && |out| == |joins| && i < |out| && out[i].join < |joins|
    ensures !Connected(n, Less(joins, out[i].join), out[i].right)
  {
    var rest, s := Less(joins, out[i].join), UpTo(n) - Below(out, i, |out|);
    BroughtBelow(n, joins, out, i);
    forall at, a, b | 0 <= at < |rest| && Links(n, rest[at], a, b) && a in s ensures b in s {
      LessFrom(joins, out[i].join, at);
      OtherSide(n, joins, out, i, if at < out[i].join then at else at + 1, a, b);
    }
    hide Below, Named, Less, Walks, Once;
    if Connected(n, rest, out[i].right) {
      var p :| Path(n, rest, p) && p[|p| - 1] == out[i].right;
      PathStays(n, rest, s, p);
    }
  }

  lemma BroughtBelow(n: nat, joins: seq<Join>, out: seq<Line>, i: nat)
    requires Walks(n, joins, out) && i < |out|
    ensures out[i].right in Below(out, i, |out|) && 0 !in Below(out, i, |out|)
  {
    assert 0 in Named(out[..i]);
    assert out[i].right in Below(out, i, i + 1);
    hide Walks, Writes, Named, Below;
    WalkLine(n, joins, out, i);
    BelowIs(n, joins, out, i, |out|);
    BelowStays(n, joins, out, i, i + 1, |out|, out[i].right);
  }

  lemma OtherSide(n: nat, joins: seq<Join>, out: seq<Line>, i: nat, j: nat, a: int, b: int)
    requires Walks(n, joins, out) && Once(out) && |out| == |joins| && i < |out|
    requires j < |joins| && out[i].join != j && Links(n, joins[j], a, b)
    ensures a in Below(out, i, |out|) <==> b in Below(out, i, |out|)
  {
    forall q | 0 <= q < |out| ensures Writes(n, joins, out[q]) { }
    EachWritten(n, joins, out, j);
    var q :| 0 <= q < |out| && out[q].join == j;
    assert Writes(n, joins, out[q]);
    SameSide(n, joins, out, i, q);
    hide Below, Walks, Once;
  }

  predicate IsOuter(j: Join) { j.kind == Left || j.kind == Right }

  /** For joins that make a tree it can be told from the design: every line is
      written from its join's own left end, where it has to be, exactly when the
      left end of each LEFT and RIGHT join is connected to the first table without
      that join. */
  lemma TreeFromOwnEnds(n: nat, joins: seq<Join>, out: seq<Line>)
    requires n > 0 && Valid(n, joins) && |out| == |joins| && Once(out) && Walks(n, joins, out)
    ensures (forall i :: 0 <= i < |out| ==> FromOwnEnd(joins, out[i]))
      <==> forall m: nat :: m < |joins| && IsOuter(joins[m]) ==> Connected(n, Less(joins, m), joins[m].left)
  {
    forall i | 0 <= i < |out|
      ensures out[i].join < |joins|
      ensures IsOuter(joins[out[i].join]) ==>
        (FromOwnEnd(joins, out[i]) <==> Connected(n, Less(joins, out[i].join), joins[out[i].join].left))
    {
      LineFromOwnEnd(n, joins, out, i);
    }
    hide Connected, Less, Walks, Once, Valid;
    if forall i :: 0 <= i < |out| ==> FromOwnEnd(joins, out[i]) {
      forall m: nat | m < |joins| && IsOuter(joins[m]) ensures Connected(n, Less(joins, m), joins[m].left) {
        EachWritten(n, joins, out, m);
        var i :| 0 <= i < |out| && out[i].join == m;
      }
    }
  }

  /** So what the lines keep is after each of them what the design asks for, whatever
      the data, exactly when that is so. */
  lemma TreeAsks(n: nat, joins: seq<Join>, out: seq<Line>)
    requires n > 0 && Valid(n, joins) && |out| == |joins| && Once(out) && Walks(n, joins, out)
    ensures (forall d, k: nat :: k <= |out| ==> Kept(d, joins, out[..k]) == Asked(d, joins, out[..k]))
      <==> forall m: nat :: m < |joins| && IsOuter(joins[m]) ==> Connected(n, Less(joins, m), joins[m].left)
  {
    hide Kept, Asked, Connected, Less, FromOwnEnd;
    WalkAsks(n, joins, out);
    TreeFromOwnEnds(n, joins, out);
  }

  lemma LineFromOwnEnd(n: nat, joins: seq<Join>, out: seq<Line>, i: nat)
    requires n > 0 && Valid(n, joins) && |out| == |joins| && Once(out) && Walks(n, joins, out) && i < |out|
    ensures out[i].join < |joins|
    ensures IsOuter(joins[out[i].join]) ==>
      (FromOwnEnd(joins, out[i]) <==> Connected(n, Less(joins, out[i].join), joins[out[i].join].left))
  {
    var l := out[i];
    assert Writes(n, joins, l) && l.left in Named(out[..i]);
    NamedWithout(n, joins, out, i, i);
    RightWithout(n, joins, out, i);
    hide Connected, Less, Walks, Once;
  }

  /** Data that shows a swapped outer join: one row everywhere but in its table. */
  lemma SwapShows(n: nat, joins: seq<Join>, lines: seq<Line>, i: nat) returns (d: Data)
    requires Walks(n, joins, lines) && i < |lines| && !FromOwnEnd(joins, lines[i])
    ensures Kept(d, joins, lines[..i + 1]) != Asked(d, joins, lines[..i + 1])
  {
    var init, l, upTo := lines[..i], lines[i], lines[..i + 1];
    d := Data(t => if t == l.right then 0 else 1, (t, r, c) => Some(0));
    assert upTo[..|upTo| - 1] == init && upTo[|upTo| - 1] == l;
    forall k | 0 <= k < |init| ensures d.size(init[k].right) == 1 && Writes(n, joins, init[k]) {
      assert init[k] == lines[k] && init[..k] == lines[..k];
      assert lines[k].right in Named(init);
    }
    assert 0 in Named(init) && Walks(n, joins, init) by {
      forall k | 0 <= k < |init| ensures init[..k] == lines[..k] && init[k] == lines[k] { }
    }
    hide Walks, Named;
    AllMeet(d, n, joins, init);
    var s := iset{Zeros(Named(init))};
    EmptyTable(d, joins, l, s);
    assert Zeros(Named(init)) in s;
  }

  // ----- names on the canvas

  /** A free name: the table's own if it is free, else that with the least number
      that makes it so. */
  method AliasFor(taken: seq<string>, own: string) returns (alias: string)
    ensures alias !in taken
    ensures var name := if own == "" then "t" else own;
      if name !in taken then alias == name
      else exists i :: i >= 2 && alias == name + Digits(i) && forall k :: 2 <= k < i ==> name + Digits(k) in taken
  {
    var name := if own == "" then "t" else own;
    if name !in taken { return name; }
    var i := 2;
    Numbered(taken, name, i);
    while name + Digits(i) in taken
      invariant i >= 2 && forall k :: 2 <= k < i ==> name + Digits(k) in taken
      decreases |taken| + 2 - i
    {
      i := i + 1;
      Numbered(taken, name, i);
    }
    return name + Digits(i);
  }

  /** Only so many numbered names can be taken. */
  lemma Numbered(taken: seq<string>, name: string, i: nat)
    requires i >= 2 && forall k :: 2 <= k < i ==> name + Digits(k) in taken
    ensures i - 2 <= |taken|
  {
    NumberedCount(name, i);
    var all := set s | s in taken;
    AtMostAsMany(taken);
    assert forall s :: IsNumbered(name, s, i) ==> s in all;
    SmallerNames(NumberedNames(name, i), all);
  }

  function NumberedNames(name: string, i: nat): set<string> {
    if i <= 2 then {} else NumberedNames(name, i - 1) + {name + Digits(i - 1)}
  }

  predicate IsNumbered(name: string, s: string, i: nat) {
    exists k :: 2 <= k < i && s == name + Digits(k)
  }

  lemma {:induction false} NumberedCount(name: string, i: nat)
    requires i >= 2
    ensures |NumberedNames(name, i)| == i - 2
    ensures forall s :: s in NumberedNames(name, i) ==> IsNumbered(name, s, i)
  {
    if i > 2 {
      NumberedCount(name, i - 1);
      var last := name + Digits(i - 1);
      assert IsNumbered(name, last, i);
      if last in NumberedNames(name, i - 1) {
        var k :| 2 <= k < i - 1 && last == name + Digits(k);
        assert last[|name|..] == Digits(i - 1) && (name + Digits(k))[|name|..] == Digits(k);
        DigitsApart(i - 1, k);
      }
    }
  }

  lemma {:induction false} AtMostAsMany(taken: seq<string>)
    ensures |set s | s in taken| <= |taken|
  {
    if taken != [] {
      AtMostAsMany(taken[1..]);
      assert (set s | s in taken) == (set s | s in taken[1..]) + {taken[0]};
    } else {
      assert (set s | s in taken) == {};
    }
  }

  lemma SmallerNames(a: set<string>, b: set<string>)
    requires a <= b
    ensures |a| <= |b|
  {
    assert b == a + (b - a);
  }

  // ----- removing a table

  datatype Table = Table(ref: string, alias: string)
  datatype Column = Column(table: int, name: string)
  datatype Output = Output(all: bool, column: Column, aggregate: string, alias: string)
  datatype Condition = Condition(column: Column, op: string, aggregate: string, value: string, value2: string)
  datatype Sort = Sort(column: Column, aggregate: string, descending: bool)

  function Shift(at: int, i: int): int { if i > at then i - 1 else i }

  /** What is left of a list once what refers to a table has gone, each moved to
      where its table now is. */
  function Leaving<T>(list: seq<T>, gone: T -> bool, move: T -> T): seq<T> {
    if list == [] then []
    else Leaving(list[..|list| - 1], gone, move) + if gone(list[|list| - 1]) then [] else [move(list[|list| - 1])]
  }

  method Leave<T>(list: seq<T>, gone: T -> bool, move: T -> T) returns (out: seq<T>)
    ensures out == Leaving(list, gone, move)
  {
    out := [];
    for i := 0 to |list|
      invariant out == Leaving(list[..i], gone, move)
    {
      assert list[..i + 1][..i] == list[..i];
      if !gone(list[i]) { out := out + [move(list[i])]; }
    }
    assert list[..|list|] == list;
  }

  /** All that is left is what did not refer to it, moved. */
  lemma {:induction false} LeavingAre<T>(list: seq<T>, gone: T -> bool, move: T -> T, w: T)
    ensures w in Leaving(list, gone, move) <==> exists v :: v in list && !gone(v) && w == move(v)
    decreases |list|
  {
    if list != [] {
      assert list == list[..|list| - 1] + [list[|list| - 1]];
      LeavingAre(list[..|list| - 1], gone, move, w);
    }
  }

  function JoinGone(at: int): Join -> bool { (j: Join) => j.left == at || j.right == at }
  function JoinMoved(at: int): Join -> Join { (j: Join) => j.(left := Shift(at, j.left), right := Shift(at, j.right)) }
  function ColumnGone(at: int): Column -> bool { (c: Column) => c.table == at }
  function ColumnMoved(at: int): Column -> Column { (c: Column) => c.(table := Shift(at, c.table)) }
  function OutputGone(at: int): Output -> bool { (o: Output) => o.column.table == at }
  function OutputMoved(at: int): Output -> Output { (o: Output) => o.(column := ColumnMoved(at)(o.column)) }
  function ConditionGone(at: int): Condition -> bool { (c: Condition) => c.column.table == at }
  function ConditionMoved(at: int): Condition -> Condition { (c: Condition) => c.(column := ColumnMoved(at)(c.column)) }
  function SortGone(at: int): Sort -> bool { (s: Sort) => s.column.table == at }
  function SortMoved(at: int): Sort -> Sort { (s: Sort) => s.(column := ColumnMoved(at)(s.column)) }

  lemma OtherTables(tables: seq<Table>, at: nat)
    requires at < |tables|
    ensures var left := tables[..at] + tables[at + 1..];
      forall i :: 0 <= i < |tables| && i != at ==> 0 <= Shift(at, i) < |left| && left[Shift(at, i)] == tables[i]
  {
  }

  // ----- what is left mentions what it did

  /** The `i`-th table there was is the `j`-th there is. */
  predicate SameTable(was: seq<Table>, i: int, now: seq<Table>, j: int) {
    0 <= i < |was| && 0 <= j < |now| && was[i] == now[j]
  }

  /** The same column of the same table. */
  predicate SameColumn(was: seq<Table>, v: Column, now: seq<Table>, w: Column) {
    SameTable(was, v.table, now, w.table) && v.name == w.name
  }

  /** The joins left are those that did not reach the table, in their order and
      each of the kind it was, from the table it was from to the table it was to
      and on the same columns. */
  ghost predicate JoinsStay(was: seq<Table>, had: seq<Join>, now: seq<Table>, left: seq<Join>, at: int, from: seq<nat>) {
    && |from| == |left| && Rising(from, |had|)
    && (forall i :: 0 <= i < |had| ==> (i in from <==> had[i].left != at && had[i].right != at))
    && forall k :: 0 <= k < |left| ==>
         && SameTable(was, had[from[k]].left, now, left[k].left) && SameTable(was, had[from[k]].right, now, left[k].right)
         && left[k].kind == had[from[k]].kind && left[k].on == had[from[k]].on
  }

  ghost predicate OutputsStay(was: seq<Table>, had: seq<Output>, now: seq<Table>, left: seq<Output>, at: int, from: seq<nat>) {
    && |from| == |left| && Rising(from, |had|)
    && (forall i :: 0 <= i < |had| ==> (i in from <==> had[i].column.table != at))
    && forall k :: 0 <= k < |left| ==>
         && SameColumn(was, had[from[k]].column, now, left[k].column)
         && left[k] == had[from[k]].(column := left[k].column)
  }

  ghost predicate ConditionsStay(was: seq<Table>, had: seq<Condition>, now: seq<Table>, left: seq<Condition>, at: int, from: seq<nat>) {
    && |from| == |left| && Rising(from, |had|)
    && (forall i :: 0 <= i < |had| ==> (i in from <==> had[i].column.table != at))
    && forall k :: 0 <= k < |left| ==>
         && SameColumn(was, had[from[k]].column, now, left[k].column)
         && left[k] == had[from[k]].(column := left[k].column)
  }

  ghost predicate ColumnsStay(was: seq<Table>, had: seq<Column>, now: seq<Table>, left: seq<Column>, at: int, from: seq<nat>) {
    && |from| == |left| && Rising(from, |had|)
    && (forall i :: 0 <= i < |had| ==> (i in from <==> had[i].table != at))
    && forall k :: 0 <= k < |left| ==> SameColumn(was, had[from[k]], now, left[k])
  }

  ghost predicate SortsStay(was: seq<Table>, had: seq<Sort>, now: seq<Table>, left: seq<Sort>, at: int, from: seq<nat>) {
    && |from| == |left| && Rising(from, |had|)
    && (forall i :: 0 <= i < |had| ==> (i in from <==> had[i].column.table != at))
    && forall k :: 0 <= k < |left| ==>
         && SameColumn(was, had[from[k]].column, now, left[k].column)
         && left[k] == had[from[k]].(column := left[k].column)
  }

  /** Each that is left is what stood at its place, moved. */
  lemma {:induction false} PlacesMoved<T>(list: seq<T>, gone: T -> bool, move: T -> T, k: nat)
    requires k < |StayPlaces(list, gone)|
    ensures |StayPlaces(list, gone)| == |Leaving(list, gone, move)| && StayPlaces(list, gone)[k] < |list|
    ensures Leaving(list, gone, move)[k] == move(list[StayPlaces(list, gone)[k]])
    decreases |list|
  {
    var n := |list| - 1;
    PlacesCount(list[..n], gone, move);
    if k < |StayPlaces(list[..n], gone)| { PlacesMoved(list[..n], gone, move, k); }
  }

  lemma {:induction false} PlacesCount<T>(list: seq<T>, gone: T -> bool, move: T -> T)
    ensures |StayPlaces(list, gone)| == |Leaving(list, gone, move)|
    decreases |list|
  {
    if list != [] { PlacesCount(list[..|list| - 1], gone, move); }
  }

  /** Each that is left is from a place of its own, in order, where nothing has gone. */
  lemma LeavingFrom<T>(list: seq<T>, gone: T -> bool, move: T -> T) returns (from: seq<nat>)
    ensures |from| == |Leaving(list, gone, move)| && Rising(from, |list|)
    ensures forall i :: 0 <= i < |list| ==> (i in from <==> !gone(list[i]))
    ensures forall k :: 0 <= k < |from| ==> Leaving(list, gone, move)[k] == move(list[from[k]])
  {
    from := StayPlaces(list, gone);
    PlacesRise(list, gone);
    PlacesCount(list, gone, move);
    forall i | 0 <= i < |list| ensures i in from <==> !gone(list[i]) { PlacesAre(list, gone, i); }
    hide StayPlaces, Leaving;
    forall k | 0 <= k < |from| ensures Leaving(list, gone, move)[k] == move(list[from[k]]) { PlacesMoved(list, gone, move, k); }
  }

  predicate Off(was: seq<Table>, at: int, now: seq<Table>) { 0 <= at < |was| && now == was[..at] + was[at + 1..] }

  lemma JoinsStayed(was: seq<Table>, had: seq<Join>, now: seq<Table>, at: int) returns (from: seq<nat>)
    requires Off(was, at, now) && forall j :: j in had ==> InRange(|was|, j)
    ensures JoinsStay(was, had, now, Leaving(had, JoinGone(at), JoinMoved(at)), at, from)
    ensures forall w :: w in Leaving(had, JoinGone(at), JoinMoved(at)) ==> InRange(|now|, w)
  {
    OtherTables(was, at);
    from := LeavingFrom(had, JoinGone(at), JoinMoved(at));
    hide Leaving, Shift;
    var left := Leaving(had, JoinGone(at), JoinMoved(at));
    forall k | 0 <= k < |left|
      ensures SameTable(was, had[from[k]].left, now, left[k].left) && SameTable(was, had[from[k]].right, now, left[k].right)
      ensures left[k].kind == had[from[k]].kind && left[k].on == had[from[k]].on
    {
      assert from[k] in from && had[from[k]] in had;
    }
  }

  lemma ColumnStays(was: seq<Table>, now: seq<Table>, at: int, c: Column)
    requires Off(was, at, now) && 0 <= c.table < |was| && c.table != at
    ensures SameColumn(was, c, now, ColumnMoved(at)(c))
  {
    OtherTables(was, at);
  }

  lemma ColumnsStayed(was: seq<Table>, had: seq<Column>, now: seq<Table>, at: int) returns (from: seq<nat>)
    requires Off(was, at, now) && forall v :: v in had ==> 0 <= v.table < |was|
    ensures ColumnsStay(was, had, now, Leaving(had, ColumnGone(at), ColumnMoved(at)), at, from)
    ensures forall w :: w in Leaving(had, ColumnGone(at), ColumnMoved(at)) ==> 0 <= w.table < |now|
  {
    from := LeavingFrom(had, ColumnGone(at), ColumnMoved(at));
    hide Leaving, Shift;
    forall k | 0 <= k < |from| ensures SameColumn(was, had[from[k]], now, ColumnMoved(at)(had[from[k]])) {
      assert from[k] in from && had[from[k]] in had;
      ColumnStays(was, now, at, had[from[k]]);
    }
  }

  lemma OutputsStayed(was: seq<Table>, had: seq<Output>, now: seq<Table>, at: int) returns (from: seq<nat>)
    requires Off(was, at, now) && forall v :: v in had ==> 0 <= v.column.table < |was|
    ensures OutputsStay(was, had, now, Leaving(had, OutputGone(at), OutputMoved(at)), at, from)
    ensures forall w :: w in Leaving(had, OutputGone(at), OutputMoved(at)) ==> 0 <= w.column.table < |now|
  {
    from := LeavingFrom(had, OutputGone(at), OutputMoved(at));
    hide Leaving, Shift;
    forall k | 0 <= k < |from| ensures SameColumn(was, had[from[k]].column, now, ColumnMoved(at)(had[from[k]].column)) {
      assert from[k] in from && had[from[k]] in had;
      ColumnStays(was, now, at, had[from[k]].column);
    }
  }

  lemma ConditionsStayed(was: seq<Table>, had: seq<Condition>, now: seq<Table>, at: int) returns (from: seq<nat>)
    requires Off(was, at, now) && forall v :: v in had ==> 0 <= v.column.table < |was|
    ensures ConditionsStay(was, had, now, Leaving(had, ConditionGone(at), ConditionMoved(at)), at, from)
    ensures forall w :: w in Leaving(had, ConditionGone(at), ConditionMoved(at)) ==> 0 <= w.column.table < |now|
  {
    from := LeavingFrom(had, ConditionGone(at), ConditionMoved(at));
    hide Leaving, Shift;
    forall k | 0 <= k < |from| ensures SameColumn(was, had[from[k]].column, now, ColumnMoved(at)(had[from[k]].column)) {
      assert from[k] in from && had[from[k]] in had;
      ColumnStays(was, now, at, had[from[k]].column);
    }
  }

  lemma SortsStayed(was: seq<Table>, had: seq<Sort>, now: seq<Table>, at: int) returns (from: seq<nat>)
    requires Off(was, at, now) && forall v :: v in had ==> 0 <= v.column.table < |was|
    ensures SortsStay(was, had, now, Leaving(had, SortGone(at), SortMoved(at)), at, from)
    ensures forall w :: w in Leaving(had, SortGone(at), SortMoved(at)) ==> 0 <= w.column.table < |now|
  {
    from := LeavingFrom(had, SortGone(at), SortMoved(at));
    hide Leaving, Shift;
    forall k | 0 <= k < |from| ensures SameColumn(was, had[from[k]].column, now, ColumnMoved(at)(had[from[k]].column)) {
      assert from[k] in from && had[from[k]] in had;
      ColumnStays(was, now, at, had[from[k]].column);
    }
  }

  class Design {
    var tables: seq<Table>
    var joins: seq<Join>
    var outputs: seq<Output>
    var where_: seq<Condition>
    var having: seq<Condition>
    var group: seq<Column>
    var order: seq<Sort>

    constructor ()
      ensures tables == [] && joins == [] && outputs == [] && where_ == [] && having == [] && group == [] && order == []
    {
      tables, joins, outputs, where_, having, group, order := [], [], [], [], [], [], [];
    }

    /** Everything names a table that is there. */
    predicate InPlace()
      reads this
    {
      var n := |tables|;
      && (forall j :: j in joins ==> InRange(n, j))
      && (forall o :: o in outputs ==> 0 <= o.column.table < n)
      && (forall c :: c in where_ ==> 0 <= c.column.table < n)
      && (forall c :: c in having ==> 0 <= c.column.table < n)
      && (forall c :: c in group ==> 0 <= c.table < n)
      && (forall s :: s in order ==> 0 <= s.column.table < n)
    }

    method Aliases() returns (out: seq<string>)
      ensures |out| == |tables| && forall i :: 0 <= i < |out| ==> out[i] == tables[i].alias
    {
      out := seq(|tables|, i requires 0 <= i < |tables| reads this => tables[i].alias);
    }

    /** Put a table on the canvas, under a name no other has. */
    method Add(ref: string, own: string) returns (at: int)
      modifies this`tables
      ensures at == |old(tables)| && |tables| == at + 1 && tables[..at] == old(tables) && tables[at].ref == ref
      ensures forall i :: 0 <= i < at ==> tables[i].alias != tables[at].alias
    {
      var taken := Aliases();
      var alias := AliasFor(taken, own);
      assert forall i :: 0 <= i < |tables| ==> taken[i] in taken;
      tables := tables + [Table(ref, alias)];
      at := |tables| - 1;
    }

    /** Removes a table and all mention of it. Every other mention is of the table
        it was of. */
    method Remove(at: int)
      modifies this
      ensures !(0 <= at < |old(tables)|) ==> unchanged(this)
      ensures 0 <= at < |old(tables)| ==>
        && Off(old(tables), at, tables)
        && joins == Leaving(old(joins), JoinGone(at), JoinMoved(at))
        && outputs == Leaving(old(outputs), OutputGone(at), OutputMoved(at))
        && where_ == Leaving(old(where_), ConditionGone(at), ConditionMoved(at))
        && having == Leaving(old(having), ConditionGone(at), ConditionMoved(at))
        && group == Leaving(old(group), ColumnGone(at), ColumnMoved(at))
        && order == Leaving(old(order), SortGone(at), SortMoved(at))
      ensures old(InPlace()) && 0 <= at < |old(tables)| ==>
        && (exists from :: JoinsStay(old(tables), old(joins), tables, joins, at, from))
        && (exists from :: OutputsStay(old(tables), old(outputs), tables, outputs, at, from))
        && (exists from :: ConditionsStay(old(tables), old(where_), tables, where_, at, from))
        && (exists from :: ConditionsStay(old(tables), old(having), tables, having, at, from))
        && (exists from :: ColumnsStay(old(tables), old(group), tables, group, at, from))
        && (exists from :: SortsStay(old(tables), old(order), tables, order, at, from))
      ensures old(InPlace()) ==> InPlace()
    {
      hide Leaving, Shift, JoinsStay, OutputsStay, ConditionsStay, ColumnsStay, SortsStay;
      if at < 0 || at >= |tables| { return; }
      tables := tables[..at] + tables[at + 1..];
      joins := Leave(joins, JoinGone(at), JoinMoved(at));
      outputs := Leave(outputs, OutputGone(at), OutputMoved(at));
      where_ := Leave(where_, ConditionGone(at), ConditionMoved(at));
      having := Leave(having, ConditionGone(at), ConditionMoved(at));
      group := Leave(group, ColumnGone(at), ColumnMoved(at));
      order := Leave(order, SortGone(at), SortMoved(at));
      if old(InPlace()) {
        ghost var js := JoinsStayed(old(tables), old(joins), tables, at);
        ghost var os := OutputsStayed(old(tables), old(outputs), tables, at);
        ghost var ws := ConditionsStayed(old(tables), old(where_), tables, at);
        ghost var hs := ConditionsStayed(old(tables), old(having), tables, at);
        ghost var gs := ColumnsStayed(old(tables), old(group), tables, at);
        ghost var ss := SortsStayed(old(tables), old(order), tables, at);
      }
    }
  }
}
