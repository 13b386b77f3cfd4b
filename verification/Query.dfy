/** The query designer (internal/query/design.go, render.go): which tables the
    joins reach, and the order the joins are written in. */
module Query {
  import opened Wrappers

  datatype Kind = Inner | Left | Right | Full | Cross
  datatype Pair = Pair(left: string, right: string)
  datatype Join = Join(kind: Kind, left: int, right: int, on: seq<Pair>)

  /** One JOIN line: which join it writes, the table already named it is written
      against, and the table it brings in. */
  datatype Line = Line(join: nat, left: int, right: int)

  // ----- what is reached

  predicate InRange(n: nat, j: Join) { 0 <= j.left < n && 0 <= j.right < n }

  predicate Links(n: nat, j: Join, a: int, b: int) {
    InRange(n, j) && ((j.left == a && j.right == b) || (j.left == b && j.right == a))
  }

  predicate Linked(n: nat, joins: seq<Join>, a: int, b: int) {
    exists i :: 0 <= i < |joins| && Links(n, joins[i], a, b)
  }

  predicate Path(n: nat, joins: seq<Join>, p: seq<int>) {
    |p| > 0 && p[0] == 0 && forall i :: 0 < i < |p| ==> Linked(n, joins, p[i - 1], p[i])
  }

  /** There is a way from the first table, join by join. */
  ghost predicate Connected(n: nat, joins: seq<Join>, t: int) {
    0 <= t < n && exists p :: Path(n, joins, p) && p[|p| - 1] == t
  }

  /** The set of the reached tables. */
  function Reached(r: seq<bool>): set<int> { set i | 0 <= i < |r| && r[i] }

  lemma StepConnected(n: nat, joins: seq<Join>, a: int, b: int)
    requires Connected(n, joins, a) && Linked(n, joins, a, b)
    ensures Connected(n, joins, b)
  {
    var p :| Path(n, joins, p) && p[|p| - 1] == a;
    var q := p + [b];
    forall i | 0 < i < |q| ensures Linked(n, joins, q[i - 1], q[i]) { if i < |p| { assert q[i - 1] == p[i - 1] && q[i] == p[i]; } }
    assert Path(n, joins, q) && q[|q| - 1] == b;
  }

  /** Nothing leads out of a set that holds the first table and that no join leaves. */
  lemma {:induction false} PathStays(n: nat, joins: seq<Join>, s: set<int>, p: seq<int>)
    requires 0 in s && Path(n, joins, p)
    requires forall i, a, b :: 0 <= i < |joins| && Links(n, joins[i], a, b) && a in s ==> b in s
    ensures p[|p| - 1] in s
    decreases |p|
  {
    if |p| > 1 {
      var q := p[..|p| - 1];
      assert forall i :: 0 < i < |q| ==> Linked(n, joins, p[i - 1], p[i]);
      PathStays(n, joins, s, q);
      assert Linked(n, joins, p[|p| - 2], p[|p| - 1]);
    }
  }

  lemma FewerLeft(r: seq<bool>, i: int)
    requires 0 <= i < |r| && !r[i]
    ensures |Reached(r)| < |Reached(r[i := true])| <= |r|
  {
    assert Reached(r[i := true]) == Reached(r) + {i};
    AtMostAll(r[i := true]);
  }

  lemma {:induction false} AtMostAll(r: seq<bool>)
    ensures |Reached(r)| <= |r|
  {
    if r != [] {
      var k := |r| - 1;
      AtMostAll(r[..k]);
      assert Reached(r) == Reached(r[..k]) + if r[k] then {k} else {};
    }
  }

  /** No join leads out of what is reached. */
  predicate Closed(n: nat, joins: seq<Join>, r: seq<bool>)
    requires |r| == n
  {
    forall i :: 0 <= i < |joins| && InRange(n, joins[i]) ==> r[joins[i].left] == r[joins[i].right]
  }

  ghost predicate Sound(n: nat, joins: seq<Join>, r: seq<bool>) {
    |r| == n && (n > 0 ==> r[0]) && forall i :: 0 <= i < n && r[i] ==> Connected(n, joins, i)
  }

  lemma ClosedIsConnected(n: nat, joins: seq<Join>, r: seq<bool>)
    requires Sound(n, joins, r) && Closed(n, joins, r)
    ensures forall i :: 0 <= i < n ==> (r[i] <==> Connected(n, joins, i))
  {
    forall i | 0 <= i < n && Connected(n, joins, i) ensures r[i] {
      var p :| Path(n, joins, p) && p[|p| - 1] == i;
      PathStays(n, joins, Reached(r), p);
    }
  }

  lemma StartConnected(n: nat, joins: seq<Join>)
    requires n > 0
    ensures Connected(n, joins, 0)
  {
    assert Path(n, joins, [0]) && [0][|[0]| - 1] == 0;
  }

  lemma ReachMore(n: nat, joins: seq<Join>, r: seq<bool>, i: int, a: int, b: int)
    requires Sound(n, joins, r) && 0 <= i < |joins| && Links(n, joins[i], a, b) && r[a]
    ensures Sound(n, joins, r[b := true])
  {
    assert Linked(n, joins, a, b);
    StepConnected(n, joins, a, b);
  }

  /** What no path of joins leads to from the first table. */
  method Unreached(n: nat, joins: seq<Join>) returns (out: seq<int>)
    ensures forall t :: t in out <==> 0 <= t < n && !Connected(n, joins, t)
    ensures forall i, j :: 0 <= i < j < |out| ==> out[i] < out[j]
  {
    hide Connected;
    var reached := new bool[n](i => false);
    if n > 0 {
      reached[0] := true;
      StartConnected(n, joins);
    }
    var again := true;
    while again
      invariant Sound(n, joins, reached[..])
      invariant !again ==> Closed(n, joins, reached[..])
      decreases n - |Reached(reached[..])|, again
    {
      again := Sweep(n, joins, reached);
    }
    ClosedIsConnected(n, joins, reached[..]);
    out := [];
    for i := 0 to n
      invariant forall t :: t in out <==> 0 <= t < i && !Connected(n, joins, t)
      invariant forall a :: 0 <= a < |out| ==> out[a] in out && out[a] < i
      invariant forall a, b :: 0 <= a < b < |out| ==> out[a] < out[b]
    {
      if !reached[i] { out := out + [i]; }
    }
  }

  /** Once over the joins: anything reached by one is marked. */
  method Sweep(n: nat, joins: seq<Join>, reached: array<bool>) returns (again: bool)
    requires Sound(n, joins, reached[..])
    modifies reached
    ensures Sound(n, joins, reached[..])
    ensures again ==> |Reached(old(reached[..]))| < |Reached(reached[..])| <= n
    ensures !again ==> reached[..] == old(reached[..]) && Closed(n, joins, reached[..])
  {
    hide Connected, Reached, Links;
    again := false;
    for k := 0 to |joins|
      invariant Sound(n, joins, reached[..])
      invariant again ==> |Reached(old(reached[..]))| < |Reached(reached[..])| <= n
      invariant !again ==> reached[..] == old(reached[..])
      invariant !again ==> forall i :: 0 <= i < k && InRange(n, joins[i]) ==> reached[joins[i].left] == reached[joins[i].right]
    {
      var j := joins[k];
      if !InRange(n, j) { continue; }
      LinksOwn(n, j);
      if reached[j.left] && !reached[j.right] {
        ReachMore(n, joins, reached[..], k, j.left, j.right);
        FewerLeft(reached[..], j.right);
        reached[j.right], again := true, true;
      }
      if reached[j.right] && !reached[j.left] {
        ReachMore(n, joins, reached[..], k, j.right, j.left);
        FewerLeft(reached[..], j.left);
        reached[j.left], again := true, true;
      }
    }
  }

  lemma LinksOwn(n: nat, j: Join)
    requires InRange(n, j)
    ensures Links(n, j, j.left, j.right) && Links(n, j, j.right, j.left)
  {
  }

  /** What is wrong with the joins of a design, or nothing. */
  datatype Wrong = BadTable | JoinSelf | CrossOn | JoinEmpty | NoColumn | NotReached(table: int)

  predicate Sensible(n: nat, j: Join) {
    && InRange(n, j) && j.left != j.right && (j.kind == Cross <==> j.on == [])
    && forall p :: p in j.on ==> p.left != "" && p.right != ""
  }

  /** What is wrong with one join, the first thing in this order. */
  predicate WrongIn(n: nat, j: Join, wrong: Wrong) {
    match wrong
    case BadTable => !InRange(n, j)
    case JoinSelf => InRange(n, j) && j.left == j.right
    case CrossOn => InRange(n, j) && j.left != j.right && j.kind == Cross && j.on != []
    case JoinEmpty => InRange(n, j) && j.left != j.right && j.kind != Cross && j.on == []
    case NoColumn => InRange(n, j) && j.left != j.right && j.kind != Cross && j.on != [] && exists p :: p in j.on && (p.left == "" || p.right == "")
    case NotReached(_) => false
  }

  /** It is the first join with anything wrong. */
  ghost predicate FirstWrong(n: nat, joins: seq<Join>, i: nat, wrong: Wrong) {
    i < |joins| && WrongIn(n, joins[i], wrong) && forall k :: 0 <= k < i ==> Sensible(n, joins[k])
  }

  ghost predicate Valid(n: nat, joins: seq<Join>) {
    (forall j :: j in joins ==> Sensible(n, j)) && forall t :: 0 <= t < n ==> Connected(n, joins, t)
  }

  method CheckJoins(n: nat, joins: seq<Join>) returns (wrong: Option<Wrong>)
    ensures wrong.None? <==> Valid(n, joins)
    ensures wrong.Some? && wrong.value.NotReached?
      ==> (forall j :: j in joins ==> Sensible(n, j))
          && 0 <= wrong.value.table < n && !Connected(n, joins, wrong.value.table)
          && forall t :: 0 <= t < wrong.value.table ==> Connected(n, joins, t)
    ensures wrong.Some? && !wrong.value.NotReached? ==> exists i: nat :: FirstWrong(n, joins, i, wrong.value)
  {
    hide Connected;
    for i := 0 to |joins|
      invariant forall k :: 0 <= k < i ==> Sensible(n, joins[k])
    {
      var j := joins[i];
      assert j in joins;
      if j.left < 0 || j.left >= n || j.right < 0 || j.right >= n { assert FirstWrong(n, joins, i, BadTable); return Some(BadTable); }
      if j.left == j.right { assert FirstWrong(n, joins, i, JoinSelf); return Some(JoinSelf); }
      assert j.on == [] <==> |j.on| == 0;
      if j.kind == Cross && |j.on| > 0 { assert FirstWrong(n, joins, i, CrossOn); return Some(CrossOn); }
      if j.kind != Cross && |j.on| == 0 { assert FirstWrong(n, joins, i, JoinEmpty); return Some(JoinEmpty); }
      for m := 0 to |j.on|
        invariant forall k :: 0 <= k < m ==> j.on[k].left != "" && j.on[k].right != ""
      {
        if j.on[m].left == "" || j.on[m].right == "" {
          assert j.on[m] in j.on;
          assert FirstWrong(n, joins, i, NoColumn);
          return Some(NoColumn);
        }
      }
    }
    var out := Unreached(n, joins);
    if |out| > 0 {
      assert out[0] in out;
      forall t | 0 <= t < out[0] ensures Connected(n, joins, t) {
        assert t !in out;
      }
      return Some(NotReached(out[0]));
    }
    return None;
  }

  // ----- the order the joins are written in

  function Named(lines: seq<Line>): set<int> { {0} + set i | 0 <= i < |lines| :: lines[i].right }

  /** The line writes a join of the design, one end or the other first. */
  predicate Writes(n: nat, joins: seq<Join>, l: Line) {
    l.join < |joins| && Links(n, joins[l.join], l.left, l.right)
  }

  /** Each line brings in a table not yet named, against one that is. */
  predicate Walks(n: nat, joins: seq<Join>, lines: seq<Line>) {
    forall i :: 0 <= i < |lines| ==>
      Writes(n, joins, lines[i]) && lines[i].left in Named(lines[..i]) && lines[i].right !in Named(lines[..i])
  }

  /** No join is written twice. */
  predicate Once(lines: seq<Line>) { forall i, j :: 0 <= i < j < |lines| ==> lines[i].join != lines[j].join }

  lemma NamedMore(lines: seq<Line>, l: Line)
    ensures Named(lines + [l]) == Named(lines) + {l.right}
  {
    var more := lines + [l];
    assert more[|lines|] == l;
    forall t | t in Named(lines) ensures t in Named(more) {
      if t != 0 { var i :| 0 <= i < |lines| && lines[i].right == t; assert more[i].right == t; }
    }
  }

  lemma WalksMore(n: nat, joins: seq<Join>, lines: seq<Line>, l: Line)
    requires Walks(n, joins, lines) && Writes(n, joins, l) && l.left in Named(lines) && l.right !in Named(lines)
    ensures Walks(n, joins, lines + [l])
  {
    hide Named, Links;
    var more := lines + [l];
    forall i | 0 <= i < |more|
      ensures Writes(n, joins, more[i]) && more[i].left in Named(more[..i]) && more[i].right !in Named(more[..i])
    {
      assert more[..i] == if i < |lines| then lines[..i] else lines;
    }
  }

  lemma WalksLess(n: nat, joins: seq<Join>, lines: seq<Line>)
    requires Walks(n, joins, lines) && lines != []
    ensures Walks(n, joins, lines[..|lines| - 1])
    ensures Named(lines) == Named(lines[..|lines| - 1]) + {lines[|lines| - 1].right}
  {
    var init := lines[..|lines| - 1];
    assert lines == init + [lines[|lines| - 1]];
    NamedMore(init, lines[|lines| - 1]);
    hide Named, Writes;
    forall i | 0 <= i < |init|
      ensures Writes(n, joins, init[i]) && init[i].left in Named(init[..i]) && init[i].right !in Named(init[..i])
    {
      assert init[..i] == lines[..i];
    }
  }

  lemma LastLine(n: nat, joins: seq<Join>, lines: seq<Line>)
    requires Walks(n, joins, lines) && lines != []
    ensures var init, last := lines[..|lines| - 1], lines[|lines| - 1];
      last.right !in Named(init) && last.left in Named(init) && last.join < |joins| && 0 <= last.right < n
  {
  }

  /** A walk names one table for each of its lines, and the first. */
  lemma {:induction false} WalkNames(n: nat, joins: seq<Join>, lines: seq<Line>)
    requires Walks(n, joins, lines)
    ensures |Named(lines)| == |lines| + 1
    ensures n > 0 ==> forall t :: t in Named(lines) ==> 0 <= t < n
  {
    hide Named, Walks;
    if lines == [] {
      NamedNothing();
    } else {
      WalksLess(n, joins, lines);
      LastLine(n, joins, lines);
      WalkNames(n, joins, lines[..|lines| - 1]);
    }
  }

  /** The joins the lines write. */
  function Written(lines: seq<Line>): set<int> { set i | 0 <= i < |lines| :: lines[i].join }

  lemma WrittenMore(lines: seq<Line>, l: Line)
    ensures Written(lines + [l]) == Written(lines) + {l.join}
    ensures Once(lines) && l.join !in Written(lines) ==> Once(lines + [l])
  {
    var more := lines + [l];
    assert more[|lines|] == l;
    forall k | k in Written(lines) ensures k in Written(more) {
      var i :| 0 <= i < |lines| && lines[i].join == k;
      assert more[i].join == k;
    }
  }

  lemma {:induction false} WrittenCount(lines: seq<Line>)
    requires Once(lines)
    ensures |Written(lines)| == |lines|
  {
    if lines != [] {
      var init, last := lines[..|lines| - 1], lines[|lines| - 1];
      assert lines == init + [last];
      assert forall i :: 0 <= i < |init| ==> init[i] == lines[i];
      WrittenCount(init);
      WrittenMore(init, last);
    }
  }

  lemma {:induction false} Below(ks: set<int>, n: nat)
    requires forall k :: k in ks ==> 0 <= k < n
    ensures |ks| <= n
    ensures (forall k :: 0 <= k < n ==> k in ks) ==> |ks| == n
  {
    if n > 0 {
      Below(ks - {n - 1}, n - 1);
      if n - 1 in ks { assert ks == ks - {n - 1} + {n - 1}; } else { assert ks == ks - {n - 1}; }
    } else {
      assert forall k :: k !in ks;
      assert ks == {};
    }
  }

  /** Where the walk is: what is reached is what the lines name, and a join is
      used once a line writes it. */
  ghost predicate Walking(n: nat, joins: seq<Join>, lines: seq<Line>, reached: seq<bool>, used: seq<bool>) {
    && |reached| == n && |used| == |joins| && Walks(n, joins, lines) && Once(lines)
    && (forall t :: 0 <= t < n ==> (reached[t] <==> t in Named(lines)))
    && (forall i :: 0 <= i < |joins| ==> (used[i] <==> i in Written(lines)))
    && Sound(n, joins, reached)
  }

  /** Of the first `k` joins, none not yet used leads from a reached table to one that is not. */
  predicate Stuck(n: nat, joins: seq<Join>, reached: seq<bool>, used: seq<bool>, k: nat) {
    && |reached| == n && |used| == |joins| && k <= |joins|
    && forall i :: 0 <= i < k && !used[i] && InRange(n, joins[i]) ==> reached[joins[i].left] == reached[joins[i].right]
  }

  predicate AllIn(n: nat, joins: seq<Join>) { forall i :: 0 <= i < |joins| ==> InRange(n, joins[i]) }

  lemma WalkMore(n: nat, joins: seq<Join>, lines: seq<Line>, reached: seq<bool>, used: seq<bool>, l: Line)
    requires Walking(n, joins, lines, reached, used)
    requires Writes(n, joins, l) && l.left in Named(lines) && l.right !in Named(lines) && !used[l.join]
    ensures Walking(n, joins, lines + [l], reached[l.right := true], used[l.join := true])
  {
    WalksMore(n, joins, lines, l);
    NamedMore(lines, l);
    WrittenMore(lines, l);
    ReachMore(n, joins, reached, l.join, l.left, l.right);
    hide Named, Walks, Sound, Connected, Written, Once, Links;
  }

  lemma WalkFits(n: nat, joins: seq<Join>, lines: seq<Line>, reached: seq<bool>, used: seq<bool>)
    requires Walking(n, joins, lines, reached, used)
    ensures |lines| <= |joins| && |reached| == n && |used| == |joins|
    ensures forall t :: 0 <= t < n ==> (reached[t] <==> t in Named(lines))
    ensures forall k :: k in Written(lines) ==> 0 <= k < |joins|
    ensures Once(lines) && Walks(n, joins, lines)
    ensures forall i :: 0 <= i < |joins| ==> (used[i] <==> i in Written(lines))
  {
    hide Sound, Links, Named;
    WrittenCount(lines);
    Below(Written(lines), |joins|);
  }

  /** Both ends of a line in a walk are named. */
  lemma EndsNamed(n: nat, joins: seq<Join>, lines: seq<Line>, k: int)
    requires Walks(n, joins, lines) && k in Written(lines)
    ensures 0 <= k < |joins| && joins[k].left in Named(lines) && joins[k].right in Named(lines)
  {
    var i :| 0 <= i < |lines| && lines[i].join == k;
    assert lines[i].left in Named(lines[..i]);
    assert lines[i].right in Named(lines);
  }

  /** A walk that can go no further has named what is connected. */
  lemma WalkEnds(n: nat, joins: seq<Join>, lines: seq<Line>, reached: seq<bool>, used: seq<bool>)
    requires n > 0 && AllIn(n, joins) && Walking(n, joins, lines, reached, used) && Stuck(n, joins, reached, used, |joins|)
    ensures forall t :: t in Named(lines) <==> Connected(n, joins, t)
    ensures forall i :: 0 <= i < |joins| ==> (joins[i].left in Named(lines) <==> joins[i].right in Named(lines))
  {
    WalkFits(n, joins, lines, reached, used);
    WalkNames(n, joins, lines);
    assert Sound(n, joins, reached);
    hide Walking, Walks, Sound, Connected, Named, Written, Once;
    forall i | 0 <= i < |joins| ensures reached[joins[i].left] == reached[joins[i].right] {
      assert InRange(n, joins[i]);
      if used[i] { EndsNamed(n, joins, lines, i); }
    }
    ClosedIsConnected(n, joins, reached);
    forall t ensures t in Named(lines) <==> Connected(n, joins, t) { InTables(n, joins, t); }
  }

  lemma InTables(n: nat, joins: seq<Join>, t: int)
    ensures Connected(n, joins, t) ==> 0 <= t < n
  {
  }

  /** Once over the joins, writing each that leads from a named table to one that
      is not. */
  method WalkOnce(n: nat, joins: seq<Join>, so: seq<Line>, reached: array<bool>, used: array<bool>) returns (again: bool, out: seq<Line>)
    requires reached != used && AllIn(n, joins)
    requires Walking(n, joins, so, reached[..], used[..])
    modifies reached, used
    ensures Walking(n, joins, out, reached[..], used[..])
    ensures again ==> |out| > |so|
    ensures !again ==> out == so && Stuck(n, joins, reached[..], used[..], |joins|)
  {
    hide Walking, Connected, Named, Links, Written, Once, Walks;
    again, out := false, so;
    WalkFits(n, joins, out, reached[..], used[..]);
    for i := 0 to |joins|
      invariant reached.Length == n && used.Length == |joins|
      invariant Walking(n, joins, out, reached[..], used[..])
      invariant |out| >= |so| && (again ==> |out| > |so|)
      invariant !again ==> out == so && Stuck(n, joins, reached[..], used[..], i)
    {
      if used[i] { continue; }
      var j := joins[i];
      assert InRange(n, j);
      LinksOwn(n, j);
      var l := Line(i, j.left, j.right);
      if reached[j.left] && !reached[j.right] {
      } else if reached[j.right] && !reached[j.left] {
        l := Line(i, j.right, j.left);
      } else {
        continue;
      }
      WalkFits(n, joins, out, reached[..], used[..]);
      WalkMore(n, joins, out, reached[..], used[..], l);
      Updated(reached, l.right);
      Updated(used, i);
      out := out + [l];
      reached[l.right], used[i], again := true, true, true;
    }
  }

  lemma Updated(a: array<bool>, i: int)
    requires 0 <= i < a.Length
    ensures a[..][i := true] == a[..i] + [true] + a[i + 1..]
  {
  }

  /** A join written as it stands: its two ends are both named or neither is. */
  predicate Trails(joins: seq<Join>, l: Line, named: set<int>) {
    && l.join < |joins| && l.left == joins[l.join].left && l.right == joins[l.join].right
    && (l.left in named <==> l.right in named)
  }

  lemma NamedNothing()
    ensures Named([]) == {0} && Written([]) == {}
  {
  }

  /** The JOIN lines: a walk outward from the first table that names everything
      connected to it, and then the joins whose two ends were both named, or
      neither, as they stand. Each join is written once. */
  method Joins(n: nat, joins: seq<Join>) returns (out: seq<Line>, ghost walked: nat)
    requires n > 0 && AllIn(n, joins)
    ensures walked <= |out| == |joins| && Once(out)
    ensures Walks(n, joins, out[..walked])
    ensures forall t :: t in Named(out[..walked]) <==> Connected(n, joins, t)
    ensures forall i :: walked <= i < |out| ==> Trails(joins, out[i], Named(out[..walked]))
    ensures forall i, j :: walked <= i < j < |out| ==> out[i].join < out[j].join
  {
    hide Connected, Named, Links, Walking, Stuck, Written;
    var reached := new bool[n](i => false);
    reached[0] := true;
    var used := new bool[|joins|](i => false);
    out := [];
    WalkStarts(n, joins, reached[..], used[..]);
    var again := true;
    while again
      invariant Walking(n, joins, out, reached[..], used[..]) && |out| <= |joins|
      invariant !again ==> Stuck(n, joins, reached[..], used[..], |joins|)
      decreases |joins| - |out|, again
    {
      again, out := WalkOnce(n, joins, out, reached, used);
      WalkFits(n, joins, out, reached[..], used[..]);
    }
    walked := |out|;
    WalkFits(n, joins, out, reached[..], used[..]);
    WalkEnds(n, joins, out, reached[..], used[..]);
    ghost var line := out;
    for i := 0 to |joins|
      invariant walked <= |out| && out[..walked] == line && Once(out)
      invariant forall k :: 0 <= k < |joins| ==> (used[k] || k < i <==> k in Written(out))
      invariant forall k :: k in Written(out) ==> 0 <= k < |joins|
      invariant forall k :: walked <= k < |out| ==> Trails(joins, out[k], Named(line)) && out[k].join < i
      invariant forall a, b :: walked <= a < b < |out| ==> out[a].join < out[b].join
    {
      if used[i] { continue; }
      var l := Line(i, joins[i].left, joins[i].right);
      WrittenMore(out, l);
      out := out + [l];
    }
    WrittenCount(out);
    Below(Written(out), |joins|);
  }

  lemma WalkStarts(n: nat, joins: seq<Join>, reached: seq<bool>, used: seq<bool>)
    requires n > 0 && |reached| == n && |used| == |joins|
    requires reached[0] && (forall i :: 0 < i < n ==> !reached[i]) && forall i :: 0 <= i < |used| ==> !used[i]
    ensures Walking(n, joins, [], reached, used)
  {
    NamedNothing();
    StartConnected(n, joins);
  }
}
