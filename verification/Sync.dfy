/** Taking the chosen differences of a table (internal/app/syncrender.go): what
    is chosen is closed, what is not stays as it is, in whatever order the parts
    are taken. */
module Sync {
  import opened Diff
  import opened DiffFields
  import opened DiffLaws
  import opened Wrappers

  /** Where the first thing of that name is, or -1. */
  function FirstAt<T>(list: seq<T>, name: T -> string, n: string): (at: int)
    ensures -1 <= at < |list|
    ensures at >= 0 ==> name(list[at]) == n
    ensures forall i :: 0 <= i < (if at < 0 then |list| else at) ==> name(list[i]) != n
  {
    if list == [] then -1
    else if name(list[0]) == n then 0
    else var at := FirstAt(list[1..], name, n); if at < 0 then -1 else at + 1
  }

  /** One named thing replaced, added or taken away. */
  function TakeOne<T>(have: seq<T>, want: seq<T>, n: string, name: T -> string): seq<T> {
    var at, i := FirstAt(have, name, n), FirstAt(want, name, n);
    if i < 0 then if at >= 0 then have[..at] + have[at + 1..] else have
    else if at >= 0 then have[at := want[i]]
    else have + [want[i]]
  }

  function ApplyOne(out: Table, to: Table, p: Node): Table {
    match p.kind
    case ColumnKind => out.(columns := TakeOne(out.columns, to.columns, p.name, ColumnName))
    case IndexKind => out.(indexes := TakeOne(out.indexes, to.indexes, p.name, IndexName))
    case ForeignKeyKind => out.(foreignKeys := TakeOne(out.foreignKeys, to.foreignKeys, p.name, ForeignKeyName))
    case TriggerKind => out.(triggers := TakeOne(out.triggers, to.triggers, p.name, TriggerName))
    case PrimaryKeyKind => out.(primaryKey := to.primaryKey)
    case UniqueKind => out.(uniques := TakeOne(out.uniques, to.uniques, p.name, UniqueName))
    case CheckKind => out.(checks := TakeOne(out.checks, to.checks, p.name, CheckName))
    case _ => out
  }

  function Applied(from: Table, to: Table, parts: seq<Node>): Table {
    if parts == [] then from
    else ApplyOne(Applied(from, to, parts[..|parts| - 1]), to, parts[|parts| - 1])
  }

  /** Goes through the chosen parts, taking each from the wanted table. */
  method ApplyChosen(from: Table, to: Table, parts: seq<Node>) returns (out: Table)
    ensures out == Applied(from, to, parts)
  {
    out := from;
    for i := 0 to |parts|
      invariant out == Applied(from, to, parts[..i])
    {
      assert parts[..i + 1][..i] == parts[..i];
      out := ApplyOne(out, to, parts[i]);
    }
    assert parts[..|parts|] == parts;
  }

  // ----- one name

  function First<T>(list: seq<T>, name: T -> string, n: string): Option<T> {
    if list == [] then None else if name(list[0]) == n then Some(list[0]) else First(list[1..], name, n)
  }

  lemma {:induction false} FirstOf<T>(a: seq<T>, b: seq<T>, name: T -> string, n: string)
    ensures First(a + b, name, n) == if First(a, name, n).Some? then First(a, name, n) else First(b, name, n)
  {
    if a == [] {
      assert a + b == b;
    } else {
      assert (a + b)[1..] == a[1..] + b;
      FirstOf(a[1..], b, name, n);
    }
  }

  lemma {:induction false} FirstIs<T>(list: seq<T>, name: T -> string, n: string)
    ensures First(list, name, n) == if FirstAt(list, name, n) >= 0 then Some(list[FirstAt(list, name, n)]) else None
  {
    if list != [] { FirstIs(list[1..], name, n); }
  }

  lemma {:induction false} IndexedIs<T>(list: seq<T>, name: T -> string, n: string)
    ensures First(list, name, n) == if n in Indexed(list, name) then Some(Indexed(list, name)[n]) else None
    decreases |list|
  {
    if list != [] {
      var init, last := list[..|list| - 1], list[|list| - 1];
      assert list == init + [last];
      FirstOf(init, [last], name, n);
      IndexedIs(init, name, n);
    }
  }

  /** No more than one of that name. */
  ghost predicate Lone<T>(list: seq<T>, name: T -> string, n: string) {
    forall i, j :: 0 <= i < j < |list| ==> !(name(list[i]) == n && name(list[j]) == n)
  }

  /** A list around one of its things. */
  lemma FirstAround<T>(a: seq<T>, v: T, b: seq<T>, name: T -> string, m: string)
    ensures First(a + [v] + b, name, m)
         == if First(a, name, m).Some? then First(a, name, m) else if name(v) == m then Some(v) else First(b, name, m)
  {
    assert a + [v] + b == a + ([v] + b);
    FirstOf(a, [v] + b, name, m);
    FirstOf([v], b, name, m);
  }

  lemma TakeOneElse<T>(have: seq<T>, want: seq<T>, n: string, name: T -> string, m: string)
    requires m != n || First(want, name, n).Some?
    ensures First(TakeOne(have, want, n, name), name, m) == if m == n then First(want, name, n) else First(have, name, m)
  {
    var at, i := FirstAt(have, name, n), FirstAt(want, name, n);
    FirstIs(want, name, n);
    if at >= 0 {
      var a, b := have[..at], have[at + 1..];
      assert have == a + [have[at]] + b;
      FirstIs(a, name, n);
      FirstAround(a, have[at], b, name, m);
      if i >= 0 {
        assert have[at := want[i]] == a + [want[i]] + b;
        FirstAround(a, want[i], b, name, m);
      } else {
        FirstOf(a, b, name, m);
      }
    } else if i >= 0 {
      FirstIs(have, name, n);
      FirstOf(have, [want[i]], name, m);
    }
  }

  lemma LoneAround<T(!new)>(a: seq<T>, v: T, b: seq<T>, name: T -> string)
    requires First(a, name, name(v)).None?
    ensures Lone(a + [v] + b, name, name(v)) <==> First(b, name, name(v)).None?
  {
    var s, n := a + [v] + b, name(v);
    FirstIs(a, name, n);
    FirstIs(b, name, n);
    assert s[|a|] == v;
    assert forall i :: 0 <= i < |a| ==> s[i] == a[i];
    assert forall i :: 0 <= i < |b| ==> s[|a| + 1 + i] == b[i];
    var next := FirstAt(b, name, n);
    if next >= 0 { assert name(s[|a|]) == n && name(s[|a| + 1 + next]) == n; }
    else { assert forall i :: |a| < i < |s| ==> s[i] == b[i - |a| - 1]; }
  }

  lemma TakeOneGone<T(!new)>(have: seq<T>, want: seq<T>, n: string, name: T -> string)
    requires First(want, name, n).None?
    ensures First(TakeOne(have, want, n, name), name, n).None? <==> Lone(have, name, n)
  {
    var at := FirstAt(have, name, n);
    FirstIs(want, name, n);
    FirstIs(have, name, n);
    if at >= 0 {
      var a, b := have[..at], have[at + 1..];
      assert have == a + [have[at]] + b;
      FirstIs(a, name, n);
      FirstOf(a, b, name, n);
      LoneAround(a, have[at], b, name);
    }
  }

  /** Taking one name makes the list say of it what is wanted, exactly when the
      name is wanted or was there no more than once. */
  lemma TakeOneCloses<T(!new)>(have: seq<T>, want: seq<T>, n: string, name: T -> string)
    ensures First(TakeOne(have, want, n, name), name, n) == First(want, name, n)
      <==> First(want, name, n).Some? || Lone(have, name, n)
  {
    hide First, Lone;
    if First(want, name, n).Some? { TakeOneElse(have, want, n, name, n); } else { TakeOneGone(have, want, n, name); }
  }

  /** And of every other name what it said. */
  lemma TakeOneLeaves<T(!new)>(have: seq<T>, want: seq<T>, n: string, name: T -> string)
    ensures forall m :: m != n ==> First(TakeOne(have, want, n, name), name, m) == First(have, name, m)
  {
    hide First;
    forall m | m != n ensures First(TakeOne(have, want, n, name), name, m) == First(have, name, m) {
      TakeOneElse(have, want, n, name, m);
    }
  }

  lemma TakeOneApart<T(!new)>(have: seq<T>, want: seq<T>, n: string, name: T -> string)
    requires Apart(have, name)
    ensures Apart(TakeOne(have, want, n, name), name)
  {
    var at, got := FirstAt(have, name, n), TakeOne(have, want, n, name);
    var cut := FirstAt(want, name, n) < 0 && at >= 0;
    forall i, j | 0 <= i < j < |got| ensures name(got[i]) != name(got[j]) {
      var i2, j2 := if cut && i >= at then i + 1 else i, if cut && j >= at then j + 1 else j;
      assert name(got[i]) == name(have[i2]);
      if j2 < |have| { assert name(got[j]) == name(have[j2]); }
    }
  }

  // ----- one list of a table's

  predicate Chosen(parts: seq<Node>, k: Kind, n: string) {
    exists i :: 0 <= i < |parts| && parts[i].kind == k && parts[i].name == n
  }

  /** One list after every chosen part of its kind has been taken. */
  function Fold<T>(have: seq<T>, want: seq<T>, parts: seq<Node>, k: Kind, name: T -> string): seq<T> {
    if parts == [] then have
    else
      var got, p := Fold(have, want, parts[..|parts| - 1], k, name), parts[|parts| - 1];
      if p.kind == k then TakeOne(got, want, p.name, name) else got
  }

  predicate KeyChosen(parts: seq<Node>) { exists i :: 0 <= i < |parts| && parts[i].kind == PrimaryKeyKind }

  function Folded(from: Table, to: Table, parts: seq<Node>): Table {
    from.(
      columns := Fold(from.columns, to.columns, parts, ColumnKind, ColumnName),
      indexes := Fold(from.indexes, to.indexes, parts, IndexKind, IndexName),
      foreignKeys := Fold(from.foreignKeys, to.foreignKeys, parts, ForeignKeyKind, ForeignKeyName),
      triggers := Fold(from.triggers, to.triggers, parts, TriggerKind, TriggerName),
      uniques := Fold(from.uniques, to.uniques, parts, UniqueKind, UniqueName),
      checks := Fold(from.checks, to.checks, parts, CheckKind, CheckName),
      primaryKey := if KeyChosen(parts) then to.primaryKey else from.primaryKey)
  }

  lemma FoldMore<T>(have: seq<T>, want: seq<T>, init: seq<Node>, p: Node, k: Kind, name: T -> string)
    ensures Fold(have, want, init + [p], k, name)
         == if p.kind == k then TakeOne(Fold(have, want, init, k, name), want, p.name, name) else Fold(have, want, init, k, name)
  {
    assert (init + [p])[..|init|] == init;
  }

  lemma KeyMore(init: seq<Node>, p: Node)
    ensures KeyChosen(init + [p]) <==> KeyChosen(init) || p.kind == PrimaryKeyKind
  {
    var parts := init + [p];
    assert parts[|init|] == p;
    if i :| 0 <= i < |init| && init[i].kind == PrimaryKeyKind { assert parts[i].kind == PrimaryKeyKind; }
    if i :| 0 <= i < |parts| && parts[i].kind == PrimaryKeyKind { assert i == |init| || init[i].kind == PrimaryKeyKind; }
  }

  lemma FoldedMore(from: Table, to: Table, init: seq<Node>, p: Node)
    ensures Folded(from, to, init + [p]) == ApplyOne(Folded(from, to, init), to, p)
  {
    hide TakeOne, Fold, KeyChosen;
    FoldMore(from.columns, to.columns, init, p, ColumnKind, ColumnName);
    FoldMore(from.indexes, to.indexes, init, p, IndexKind, IndexName);
    FoldMore(from.foreignKeys, to.foreignKeys, init, p, ForeignKeyKind, ForeignKeyName);
    FoldMore(from.triggers, to.triggers, init, p, TriggerKind, TriggerName);
    FoldMore(from.uniques, to.uniques, init, p, UniqueKind, UniqueName);
    FoldMore(from.checks, to.checks, init, p, CheckKind, CheckName);
    KeyMore(init, p);
  }

  /** Taking the parts one after another takes each list's parts on their own. */
  lemma {:induction false} AppliedFolds(from: Table, to: Table, parts: seq<Node>)
    ensures Applied(from, to, parts) == Folded(from, to, parts)
    decreases |parts|
  {
    hide ApplyOne;
    if parts != [] {
      AppliedFolds(from, to, parts[..|parts| - 1]);
      FoldedMore(from, to, parts[..|parts| - 1], parts[|parts| - 1]);
      assert parts == parts[..|parts| - 1] + [parts[|parts| - 1]];
    }
  }

  /** Every chosen name is as wanted, and every other as it was. */
  lemma {:induction false} FoldTakes<T(!new)>(have: seq<T>, want: seq<T>, parts: seq<Node>, k: Kind, name: T -> string, m: string)
    requires Apart(have, name)
    ensures Apart(Fold(have, want, parts, k, name), name)
    ensures First(Fold(have, want, parts, k, name), name, m) == if Chosen(parts, k, m) then First(want, name, m) else First(have, name, m)
    decreases |parts|
  {
    hide TakeOne, First;
    if parts != [] {
      var init, p := parts[..|parts| - 1], parts[|parts| - 1];
      FoldTakes(have, want, init, k, name, m);
      assert Chosen(parts, k, m) <==> Chosen(init, k, m) || (p.kind == k && p.name == m) by {
        if i :| 0 <= i < |init| && init[i].kind == k && init[i].name == m { assert parts[i].kind == k && parts[i].name == m; }
        if i :| 0 <= i < |parts| && parts[i].kind == k && parts[i].name == m { assert i == |init| || init[i].name == m; }
        assert parts[|parts| - 1] == p;
      }
      var got := Fold(have, want, init, k, name);
      if p.kind == k {
        TakeOneApart(got, want, p.name, name);
        assert Lone(got, name, p.name);
        TakeOneCloses(got, want, p.name, name);
        TakeOneLeaves(got, want, p.name, name);
      }
    }
  }

  /** What the comparison of two lists says of one name. */
  function NodeOf<T>(from: seq<T>, to: seq<T>, n: string, name: T -> string, kind: Kind, compare: (T, T) -> Node): Option<Node> {
    var a, b := First(from, name, n), First(to, name, n);
    if a.Some? && b.Some? then Some(compare(a.value, b.value))
    else if b.Some? then Some(Node(kind, n, Added, [], []))
    else if a.Some? then Some(Node(kind, n, Removed, [], []))
    else None
  }

  lemma {:induction false} MatchedInHas<T(!new)>(names: seq<string>, from: map<string, T>, to: map<string, T>, kind: T -> Kind, compare: (T, T) -> Node, c: Node)
    requires forall n :: n in names ==> n in from || n in to
    ensures c in MatchedIn(names, from, to, kind, compare, NoSkip()) <==> exists n :: n in names && c == Matched1(n, from, to, kind, compare)
    decreases |names|
  {
    hide Matched1;
    if names != [] {
      var init, last := names[..|names| - 1], names[|names| - 1];
      assert names == init + [last];
      MatchedInHas(init, from, to, kind, compare, c);
    }
  }

  lemma MatchedHas<T(!new)>(from: seq<T>, to: seq<T>, name: T -> string, kind: Kind, compare: (T, T) -> Node, c: Node)
    ensures c in Matched(from, to, name, Fixed(kind), compare, NoSkip()) <==> exists n :: NodeOf(from, to, n, name, kind, compare) == Some(c)
  {
    hide Sorted, Indexed, First, MatchedIn;
    var here, there := Indexed(from, name), Indexed(to, name);
    var names := Sorted(here.Keys + there.Keys);
    assert forall n :: n in names <==> n in here || n in there;
    MatchedInHas(names, here, there, Fixed(kind), compare, c);
    forall n ensures NodeOf(from, to, n, name, kind, compare)
      == if n in here || n in there then Some(Matched1(n, here, there, Fixed(kind), compare)) else None
    {
      IndexedIs(from, name, n);
      IndexedIs(to, name, n);
    }
  }

  /** A comparison of one kind of thing: named after what is wanted, and of
      nothing when the two are one. */
  ghost predicate Fair<T(!new)>(name: T -> string, kind: Kind, compare: (T, T) -> Node) {
    && (forall a, b :: compare(a, b).kind == kind && compare(a, b).name == name(b))
    && forall a :: compare(a, a).status == Same
  }

  /** After the chosen parts are taken, a node is the same if it was chosen and
      what it was if it was not; and no unchosen node is lost. */
  ghost predicate Closes(before: seq<Node>, after: seq<Node>, kind: Kind, parts: seq<Node>) {
    && (forall c :: c in before || c in after ==> c.kind == kind)
    && (forall c :: c in after ==> if Chosen(parts, kind, c.name) then c.status == Same else c in before)
    && (forall c :: c in before && !Chosen(parts, kind, c.name) ==> c in after)
  }

  lemma GroupCloses<T(!new)>(have: seq<T>, want: seq<T>, parts: seq<Node>, kind: Kind, name: T -> string, compare: (T, T) -> Node)
    requires Apart(have, name) && Fair(name, kind, compare)
    ensures Closes(Matched(have, want, name, Fixed(kind), compare, NoSkip()),
                   Matched(Fold(have, want, parts, kind, name), want, name, Fixed(kind), compare, NoSkip()), kind, parts)
  {
    hide Fold, Chosen, Matched;
    var got := Fold(have, want, parts, kind, name);
    var before, after := Matched(have, want, name, Fixed(kind), compare, NoSkip()), Matched(got, want, name, Fixed(kind), compare, NoSkip());
    forall c | c in before ensures c.kind == kind && (!Chosen(parts, kind, c.name) ==> c in after) {
      MatchedHas(have, want, name, kind, compare, c);
      var n :| NodeOf(have, want, n, name, kind, compare) == Some(c);
      Named(have, want, n, name, kind, compare);
      FoldTakes(have, want, parts, kind, name, n);
      MatchedHas(got, want, name, kind, compare, c);
      assert !Chosen(parts, kind, n) ==> NodeOf(got, want, n, name, kind, compare) == Some(c);
    }
    forall c | c in after ensures c.kind == kind && if Chosen(parts, kind, c.name) then c.status == Same else c in before {
      MatchedHas(got, want, name, kind, compare, c);
      var n :| NodeOf(got, want, n, name, kind, compare) == Some(c);
      Named(got, want, n, name, kind, compare);
      FoldTakes(have, want, parts, kind, name, n);
      MatchedHas(have, want, name, kind, compare, c);
      assert !Chosen(parts, kind, n) ==> NodeOf(have, want, n, name, kind, compare) == Some(c);
    }
  }

  lemma Named<T(!new)>(from: seq<T>, to: seq<T>, n: string, name: T -> string, kind: Kind, compare: (T, T) -> Node)
    requires Fair(name, kind, compare)
    ensures var c := NodeOf(from, to, n, name, kind, compare); c.Some? ==> c.value.name == n && c.value.kind == kind
  {
    FirstIs(to, name, n);
  }

  // ----- the whole table

  ghost predicate ApartTable(t: Table) {
    && Apart(t.columns, ColumnName) && Apart(t.uniques, UniqueName) && Apart(t.foreignKeys, ForeignKeyName)
    && Apart(t.checks, CheckName) && Apart(t.indexes, IndexName) && Apart(t.triggers, TriggerName)
  }

  /** Choosing any part of the primary key is choosing all of it: under a
      new name it is two nodes, one gone and one come, which close as one. */
  predicate Taken(parts: seq<Node>, c: Node) {
    if c.kind == PrimaryKeyKind then KeyChosen(parts) else Chosen(parts, c.kind, c.name)
  }

  lemma AllFair(o: Options)
    ensures Fair(ColumnName, ColumnKind, ColumnBy(o)) && Fair(IndexName, IndexKind, IndexBy(o))
    ensures Fair(UniqueName, UniqueKind, UniqueBy()) && Fair(ForeignKeyName, ForeignKeyKind, ForeignKeyBy())
    ensures Fair(CheckName, CheckKind, CheckBy(o)) && Fair(TriggerName, TriggerKind, TriggerBy(o))
  {
    hide AttrFields, Listed;
    forall c ensures ColumnBy(o)(c, c).status == Same { ColumnSelf(o, c); }
    forall i ensures IndexBy(o)(i, i).status == Same { IndexSelf(o, i); }
  }

  lemma ListsClose(o: Options, from: Table, to: Table, parts: seq<Node>)
    requires ApartTable(from)
    ensures var got := Folded(from, to, parts);
      && Closes(Columns(o, from.columns, to.columns), Columns(o, got.columns, to.columns), ColumnKind, parts)
      && Closes(Uniques(from.uniques, to.uniques), Uniques(got.uniques, to.uniques), UniqueKind, parts)
      && Closes(ForeignKeys(from.foreignKeys, to.foreignKeys), ForeignKeys(got.foreignKeys, to.foreignKeys), ForeignKeyKind, parts)
      && Closes(Checks(o, from.checks, to.checks), Checks(o, got.checks, to.checks), CheckKind, parts)
      && Closes(Indexes(o, from.indexes, to.indexes), Indexes(o, got.indexes, to.indexes), IndexKind, parts)
      && Closes(Triggers(o, from.triggers, to.triggers), Triggers(o, got.triggers, to.triggers), TriggerKind, parts)
  {
    hide Closes, Fold, Matched, Fair, Apart;
    AllFair(o);
    GroupCloses(from.columns, to.columns, parts, ColumnKind, ColumnName, ColumnBy(o));
    GroupCloses(from.uniques, to.uniques, parts, UniqueKind, UniqueName, UniqueBy());
    GroupCloses(from.foreignKeys, to.foreignKeys, parts, ForeignKeyKind, ForeignKeyName, ForeignKeyBy());
    GroupCloses(from.checks, to.checks, parts, CheckKind, CheckName, CheckBy(o));
    GroupCloses(from.indexes, to.indexes, parts, IndexKind, IndexName, IndexBy(o));
    GroupCloses(from.triggers, to.triggers, parts, TriggerKind, TriggerName, TriggerBy(o));
  }

  lemma KeysClose(from: Option<PrimaryKey>, to: Option<PrimaryKey>)
    ensures forall c :: c in PrimaryKeys(from, to) ==> c.kind == PrimaryKeyKind
    ensures forall c :: c in PrimaryKeys(to, to) ==> c.status == Same
  {
    hide Matched;
    MatchedSelf(AsList(to), PrimaryKeyName, Fixed(PrimaryKeyKind), PrimaryKeyBy(), NoSkip());
    forall c | c in PrimaryKeys(from, to) ensures c.kind == PrimaryKeyKind {
      MatchedHas(AsList(from), AsList(to), PrimaryKeyName, PrimaryKeyKind, PrimaryKeyBy(), c);
    }
  }

  /** What is taken is the same afterwards and nothing else has changed. */
  ghost predicate ClosesTaken(before: seq<Node>, after: seq<Node>, parts: seq<Node>) {
    && (forall c :: c in after ==> if Taken(parts, c) then c.status == Same else c in before)
    && (forall c :: c in before && !Taken(parts, c) ==> c in after)
  }

  lemma JoinCloses(before: seq<Node>, after: seq<Node>, before2: seq<Node>, after2: seq<Node>, kind: Kind, parts: seq<Node>)
    requires ClosesTaken(before, after, parts) && Closes(before2, after2, kind, parts) && kind != PrimaryKeyKind
    ensures ClosesTaken(before + before2, after + after2, parts)
  {
    hide Chosen, KeyChosen;
  }

  lemma JoinTaken(before: seq<Node>, after: seq<Node>, before2: seq<Node>, after2: seq<Node>, parts: seq<Node>)
    requires ClosesTaken(before, after, parts) && ClosesTaken(before2, after2, parts)
    ensures ClosesTaken(before + before2, after + after2, parts)
  {
    hide Taken;
  }

  lemma KeysTaken(from: Option<PrimaryKey>, to: Option<PrimaryKey>, parts: seq<Node>)
    ensures ClosesTaken(PrimaryKeys(from, to), PrimaryKeys(if KeyChosen(parts) then to else from, to), parts)
  {
    hide PrimaryKeys, KeyChosen;
    KeysClose(from, to);
    KeysClose(to, to);
  }

  lemma PartsClose(o: Options, from: Table, to: Table, parts: seq<Node>)
    requires ApartTable(from)
    ensures ClosesTaken(TableParts(o, from, to), TableParts(o, Folded(from, to, parts), to), parts)
  {
    var got := Folded(from, to, parts);
    ListsClose(o, from, to, parts);
    KeysTaken(from.primaryKey, to.primaryKey, parts);
    hide Closes, ClosesTaken, Fold, Columns, PrimaryKeys, Uniques, ForeignKeys, Checks, Indexes, Triggers, KeyChosen;
    SevenClose(Columns(o, from.columns, to.columns), Columns(o, got.columns, to.columns),
               PrimaryKeys(from.primaryKey, to.primaryKey), PrimaryKeys(got.primaryKey, to.primaryKey),
               Uniques(from.uniques, to.uniques), Uniques(got.uniques, to.uniques),
               ForeignKeys(from.foreignKeys, to.foreignKeys), ForeignKeys(got.foreignKeys, to.foreignKeys),
               Checks(o, from.checks, to.checks), Checks(o, got.checks, to.checks),
               Indexes(o, from.indexes, to.indexes), Indexes(o, got.indexes, to.indexes),
               Triggers(o, from.triggers, to.triggers), Triggers(o, got.triggers, to.triggers), parts);
  }

  lemma SevenClose(b: seq<Node>, a: seq<Node>, b2: seq<Node>, a2: seq<Node>, b3: seq<Node>, a3: seq<Node>, b4: seq<Node>, a4: seq<Node>,
                   b5: seq<Node>, a5: seq<Node>, b6: seq<Node>, a6: seq<Node>, b7: seq<Node>, a7: seq<Node>, parts: seq<Node>)
    requires Closes(b, a, ColumnKind, parts) && ClosesTaken(b2, a2, parts) && Closes(b3, a3, UniqueKind, parts)
    requires Closes(b4, a4, ForeignKeyKind, parts) && Closes(b5, a5, CheckKind, parts)
    requires Closes(b6, a6, IndexKind, parts) && Closes(b7, a7, TriggerKind, parts)
    ensures ClosesTaken(b + b2 + b3 + b4 + b5 + b6 + b7, a + a2 + a3 + a4 + a5 + a6 + a7, parts)
  {
    NoneClose(parts);
    hide Closes, ClosesTaken;
    JoinCloses([], [], b, a, ColumnKind, parts);
    assert [] + b == b && [] + a == a;
    JoinTaken(b, a, b2, a2, parts);
    JoinCloses(b + b2, a + a2, b3, a3, UniqueKind, parts);
    JoinCloses(b + b2 + b3, a + a2 + a3, b4, a4, ForeignKeyKind, parts);
    JoinCloses(b + b2 + b3 + b4, a + a2 + a3 + a4, b5, a5, CheckKind, parts);
    JoinCloses(b + b2 + b3 + b4 + b5, a + a2 + a3 + a4 + a5, b6, a6, IndexKind, parts);
    JoinCloses(b + b2 + b3 + b4 + b5 + b6, a + a2 + a3 + a4 + a5 + a6, b7, a7, TriggerKind, parts);
  }

  /** Taking some of the differences closes exactly those: compared with what is
      wanted, a part taken is the same and every other part is the node it was.
      The table's own properties are not among its parts and stay as they are. */
  lemma TableCloses(o: Options, from: Table, to: Table, parts: seq<Node>)
    requires ApartTable(from)
    ensures TableNode(o, Applied(from, to, parts), to).detail == TableNode(o, from, to).detail
    ensures ClosesTaken(TableNode(o, from, to).children, TableNode(o, Applied(from, to, parts), to).children, parts)
  {
    AppliedFolds(from, to, parts);
    PartsClose(o, from, to, parts);
    hide TableParts, ClosesTaken;
  }

  lemma NoneClose(parts: seq<Node>)
    ensures ClosesTaken([], [], parts)
  {
  }

  // ----- what it is for two tables to be the same

  /** Both have a thing of just the same names, and of each name they agree. */
  ghost predicate ListsAgree<T(!new)>(a: seq<T>, b: seq<T>, name: T -> string, agree: (T, T) -> bool) {
    forall n :: First(a, name, n).Some? == First(b, name, n).Some?
             && (First(a, name, n).Some? ==> agree(First(a, name, n).value, First(b, name, n).value))
  }

  lemma GroupAgrees<T(!new)>(a: seq<T>, b: seq<T>, name: T -> string, kind: Kind, compare: (T, T) -> Node, agree: (T, T) -> bool)
    requires forall x, y :: compare(x, y).status == Same <==> agree(x, y)
    ensures (forall c :: c in Matched(a, b, name, Fixed(kind), compare, NoSkip()) ==> c.status == Same)
      <==> ListsAgree(a, b, name, agree)
  {
    hide Matched, First;
    var nodes := Matched(a, b, name, Fixed(kind), compare, NoSkip());
    if forall c :: c in nodes ==> c.status == Same {
      forall n ensures First(a, name, n).Some? == First(b, name, n).Some?
        && (First(a, name, n).Some? ==> agree(First(a, name, n).value, First(b, name, n).value))
      {
        var c := NodeOf(a, b, n, name, kind, compare);
        if c.Some? { MatchedHas(a, b, name, kind, compare, c.value); }
      }
    }
    if ListsAgree(a, b, name, agree) {
      forall c | c in nodes ensures c.status == Same {
        MatchedHas(a, b, name, kind, compare, c);
        var n :| NodeOf(a, b, n, name, kind, compare) == Some(c);
      }
    }
  }

  ghost function ColumnsAgree(o: Options): (Column, Column) -> bool { (a, b) => ColumnAgrees(o, a, b) }
  function PrimaryKeysAgree(): (PrimaryKey, PrimaryKey) -> bool { (a, b) => PrimaryKeyAgrees(a, b) }
  function UniquesAgree(): (Unique, Unique) -> bool { (a, b) => UniqueAgrees(a, b) }
  function ForeignKeysAgree(): (ForeignKey, ForeignKey) -> bool { (a, b) => ForeignKeyAgrees(a, b) }
  function ChecksAgree(o: Options): (Check, Check) -> bool { (a, b) => CheckAgrees(o, a, b) }
  ghost function IndexesAgree(o: Options): (Index, Index) -> bool { (a, b) => IndexAgrees(o, a, b) }
  function TriggersAgree(o: Options): (Trigger, Trigger) -> bool { (a, b) => TriggerAgrees(o, a, b) }

  /** The same columns, keys, constraints, indexes and triggers, field by field. */
  ghost predicate PartsAgree(o: Options, a: Table, b: Table) {
    && ListsAgree(a.columns, b.columns, ColumnName, ColumnsAgree(o))
    && ListsAgree(AsList(a.primaryKey), AsList(b.primaryKey), PrimaryKeyName, PrimaryKeysAgree())
    && ListsAgree(a.uniques, b.uniques, UniqueName, UniquesAgree())
    && ListsAgree(a.foreignKeys, b.foreignKeys, ForeignKeyName, ForeignKeysAgree())
    && ListsAgree(a.checks, b.checks, CheckName, ChecksAgree(o))
    && ListsAgree(a.indexes, b.indexes, IndexName, IndexesAgree(o))
    && ListsAgree(a.triggers, b.triggers, TriggerName, TriggersAgree(o))
  }

  lemma SevenSame(a: seq<Node>, b: seq<Node>, c: seq<Node>, d: seq<Node>, e: seq<Node>, f: seq<Node>, g: seq<Node>)
    ensures (forall n :: n in a + b + c + d + e + f + g ==> n.status == Same)
      <==> && (forall n :: n in a ==> n.status == Same) && (forall n :: n in b ==> n.status == Same)
           && (forall n :: n in c ==> n.status == Same) && (forall n :: n in d ==> n.status == Same)
           && (forall n :: n in e ==> n.status == Same) && (forall n :: n in f ==> n.status == Same)
           && (forall n :: n in g ==> n.status == Same)
  {
  }

  /** No part of a table differs exactly when they all agree in their fields. */
  lemma PartsSame(o: Options, a: Table, b: Table)
    ensures (forall c :: c in TableParts(o, a, b) ==> c.status == Same) <==> PartsAgree(o, a, b)
  {
    hide Matched, ListsAgree, ColumnAgrees, IndexAgrees, ForeignKeyAgrees, TriggerAgrees, ColumnNode, IndexNode, ForeignKeyNode,
      TriggerNode, CheckNode, UniqueNode, PrimaryKeyNode;
    forall x, y ensures ColumnBy(o)(x, y).status == Same <==> ColumnsAgree(o)(x, y) { ColumnSame(o, x, y); }
    GroupAgrees(a.columns, b.columns, ColumnName, ColumnKind, ColumnBy(o), ColumnsAgree(o));
    forall x, y ensures PrimaryKeyBy()(x, y).status == Same <==> PrimaryKeysAgree()(x, y) { PrimaryKeySame(x, y); }
    GroupAgrees(AsList(a.primaryKey), AsList(b.primaryKey), PrimaryKeyName, PrimaryKeyKind, PrimaryKeyBy(), PrimaryKeysAgree());
    forall x, y ensures UniqueBy()(x, y).status == Same <==> UniquesAgree()(x, y) { UniqueSame(x, y); }
    GroupAgrees(a.uniques, b.uniques, UniqueName, UniqueKind, UniqueBy(), UniquesAgree());
    forall x, y ensures ForeignKeyBy()(x, y).status == Same <==> ForeignKeysAgree()(x, y) { ForeignKeySame(x, y); }
    GroupAgrees(a.foreignKeys, b.foreignKeys, ForeignKeyName, ForeignKeyKind, ForeignKeyBy(), ForeignKeysAgree());
    forall x, y ensures CheckBy(o)(x, y).status == Same <==> ChecksAgree(o)(x, y) { CheckSame(o, x, y); }
    GroupAgrees(a.checks, b.checks, CheckName, CheckKind, CheckBy(o), ChecksAgree(o));
    forall x, y ensures IndexBy(o)(x, y).status == Same <==> IndexesAgree(o)(x, y) { IndexSame(o, x, y); }
    GroupAgrees(a.indexes, b.indexes, IndexName, IndexKind, IndexBy(o), IndexesAgree(o));
    forall x, y ensures TriggerBy(o)(x, y).status == Same <==> TriggersAgree(o)(x, y) { TriggerSame(o, x, y); }
    GroupAgrees(a.triggers, b.triggers, TriggerName, TriggerKind, TriggerBy(o), TriggersAgree(o));
    SevenSame(Columns(o, a.columns, b.columns), PrimaryKeys(a.primaryKey, b.primaryKey), Uniques(a.uniques, b.uniques),
              ForeignKeys(a.foreignKeys, b.foreignKeys), Checks(o, a.checks, b.checks), Indexes(o, a.indexes, b.indexes),
              Triggers(o, a.triggers, b.triggers));
  }

  /** Two tables are the same exactly when their comments, their attributes and all
      their parts agree. */
  lemma TableSame(o: Options, a: Table, b: Table)
    ensures TableNode(o, a, b).status == Same
      <==> CommentAgrees(o, a.comment, b.comment) && AttrsAgree(o, a.attrs, b.attrs) && PartsAgree(o, a, b)
  {
    PartsSame(o, a, b);
    TableDetailSame(o, a, b);
    hide TableParts, TableDetail, PartsAgree, AttrsAgree;
  }

  /** Taking every part that differs leaves none that does: every part of the table
      then agrees, field by field, with what is wanted, and the table is the same but
      for its own comment and attributes. */
  lemma TableConverges(o: Options, from: Table, to: Table, parts: seq<Node>)
    requires ApartTable(from)
    requires forall c :: c in TableNode(o, from, to).children && c.status != Same ==> Taken(parts, c)
    ensures var after := TableNode(o, Applied(from, to, parts), to);
      && (forall c :: c in after.children ==> c.status == Same)
      && (after.status == Same <==> CommentAgrees(o, from.comment, to.comment) && AttrsAgree(o, from.attrs, to.attrs))
    ensures PartsAgree(o, Applied(from, to, parts), to)
  {
    TableCloses(o, from, to, parts);
    PartsSame(o, Applied(from, to, parts), to);
    TableDetailSame(o, from, to);
    hide Applied, TableParts, TableDetail, Taken, PartsAgree, AttrsAgree;
  }

  /** The order the parts are taken in does not show. */
  lemma TableAnyOrder(o: Options, from: Table, to: Table, parts: seq<Node>, parts2: seq<Node>)
    requires ApartTable(from)
    requires forall k, n :: Chosen(parts, k, n) <==> Chosen(parts2, k, n)
    ensures TableNode(o, Applied(from, to, parts), to) == TableNode(o, Applied(from, to, parts2), to)
  {
    AppliedFolds(from, to, parts);
    AppliedFolds(from, to, parts2);
    FoldAnyOrder(from.columns, to.columns, parts, parts2, ColumnKind, ColumnName);
    FoldAnyOrder(from.uniques, to.uniques, parts, parts2, UniqueKind, UniqueName);
    FoldAnyOrder(from.foreignKeys, to.foreignKeys, parts, parts2, ForeignKeyKind, ForeignKeyName);
    FoldAnyOrder(from.checks, to.checks, parts, parts2, CheckKind, CheckName);
    FoldAnyOrder(from.indexes, to.indexes, parts, parts2, IndexKind, IndexName);
    FoldAnyOrder(from.triggers, to.triggers, parts, parts2, TriggerKind, TriggerName);
    KeyAnyOrder(parts, parts2);
    KeyAnyOrder(parts2, parts);
    hide Applied, Fold, Indexed, KeyChosen, TableNode;
    TableNodesAlike(o, Folded(from, to, parts), to, Folded(from, to, parts2), to);
  }

  lemma KeyAnyOrder(parts: seq<Node>, parts2: seq<Node>)
    requires forall k, n :: Chosen(parts, k, n) ==> Chosen(parts2, k, n)
    ensures KeyChosen(parts) ==> KeyChosen(parts2)
  {
    if i :| 0 <= i < |parts| && parts[i].kind == PrimaryKeyKind {
      assert Chosen(parts, PrimaryKeyKind, parts[i].name);
      assert Chosen(parts2, PrimaryKeyKind, parts[i].name);
    }
  }

  lemma FoldAnyOrder<T(!new)>(have: seq<T>, want: seq<T>, parts: seq<Node>, parts2: seq<Node>, k: Kind, name: T -> string)
    requires Apart(have, name)
    requires forall n :: Chosen(parts, k, n) <==> Chosen(parts2, k, n)
    ensures Indexed(Fold(have, want, parts, k, name), name) == Indexed(Fold(have, want, parts2, k, name), name)
  {
    var a, b := Fold(have, want, parts, k, name), Fold(have, want, parts2, k, name);
    hide Fold, First, Chosen, Apart;
    forall n ensures n in Indexed(a, name) <==> n in Indexed(b, name)
             ensures n in Indexed(a, name) ==> Indexed(a, name)[n] == Indexed(b, name)[n]
    {
      IndexedIs(a, name, n);
      IndexedIs(b, name, n);
      FoldTakes(have, want, parts, k, name, n);
      FoldTakes(have, want, parts2, k, name, n);
    }
    assert Indexed(a, name).Keys == Indexed(b, name).Keys;
  }
}
