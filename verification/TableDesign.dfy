/** Designing a table's columns (internal/app/design.go): the columns as they were
    read, the columns as they are wanted, and which came from which. */
module TableDesign {
  import opened Strings
  import opened Wrappers

  /** `size` is everything a type has besides: its lengths, digits and zone. */
  datatype Type = Type(class_: string, native: string, nullable: bool, size: string)
  /** `other` is a column's identity, auto-increment, generation and comment. */
  datatype Column = Column(name: string, typ: Type, default_: string, hasDefault: bool, other: string, position: int, attrs: map<string, string>)

  const UNKNOWN := "unknown"

  /** Equal in all but their places and attributes. */
  predicate SameColumn(a: Column, b: Column) {
    a.name == b.name && a.typ == b.typ && a.default_ == b.default_ && a.hasDefault == b.hasDefault && a.other == b.other
  }

  datatype ColumnChange = Dropped(from: Column) | Altered(from: Column, to: Column) | Added(to: Column)
  datatype Error = NoName | NameTaken | NoType | NeedsValue | NoColumn | PartOfKey
  datatype Result = Ok | Err(error: Error)

  predicate Within(origin: seq<int>, n: nat) { forall i :: 0 <= i < |origin| ==> -1 <= origin[i] < n }

  /** Where the columns came from: the original ones in their order, each once,
      and then the new ones. */
  predicate Ordered(origin: seq<int>, n: nat) {
    && Within(origin, n)
    && forall i, j :: 0 <= i < j < |origin| && origin[j] >= 0 ==> 0 <= origin[i] < origin[j]
  }

  function Without<T>(s: seq<T>, at: nat): (r: seq<T>)
    requires at < |s|
    ensures |r| == |s| - 1
  {
    s[..at] + s[at + 1..]
  }

  lemma WithoutAt<T>(s: seq<T>, at: nat, i: nat)
    requires at < |s| && i < |s| - 1
    ensures Without(s, at)[i] == s[if i < at then i else i + 1]
  {
  }

  /** The columns, each told where it stands. */
  function Placed(cs: seq<Column>): (r: seq<Column>)
    ensures |r| == |cs|
  {
    seq(|cs|, i requires 0 <= i < |cs| => cs[i].(position := i))
  }

  function Counted(n: nat): (r: seq<int>)
    ensures |r| == n && forall i :: 0 <= i < n ==> r[i] == i
  {
    seq(n, i requires 0 <= i < n => i)
  }

  // ----- what changed

  function Drops(from: seq<Column>, origin: seq<int>): seq<ColumnChange> {
    if from == [] then []
    else Drops(from[..|from| - 1], origin) + if |from| - 1 in origin then [] else [Dropped(from[|from| - 1])]
  }

  function ChangeAt(from: seq<Column>, to: Column, origin: int): seq<ColumnChange>
    requires -1 <= origin < |from|
  {
    if origin < 0 then [Added(to)] else if SameColumn(from[origin], to) then [] else [Altered(from[origin], to)]
  }

  /** What changed or arrived among the first `i` columns. */
  function Rest(from: seq<Column>, to: seq<Column>, origin: seq<int>, i: nat): seq<ColumnChange>
    requires i <= |to| == |origin| && Within(origin, |from|)
  {
    if i == 0 then [] else Rest(from, to, origin, i - 1) + ChangeAt(from, to[i - 1], origin[i - 1])
  }

  function ChangesOf(from: seq<Column>, to: seq<Column>, origin: seq<int>): seq<ColumnChange>
    requires |to| == |origin| && Within(origin, |from|)
  {
    Drops(from, origin) + Rest(from, to, origin, |to|)
  }

  lemma WithoutOrdered(origin: seq<int>, n: nat, at: nat)
    requires Ordered(origin, n) && at < |origin|
    ensures Ordered(Without(origin, at), n)
  {
    hide Without;
    var r := Without(origin, at);
    forall i | 0 <= i < |r| ensures -1 <= r[i] < n { WithoutAt(origin, at, i); }
    forall i, j | 0 <= i < j < |r| && r[j] >= 0 ensures 0 <= r[i] < r[j] {
      WithoutAt(origin, at, i);
      WithoutAt(origin, at, j);
    }
  }

  ghost predicate FoldsApart(fold: string -> string, to: seq<Column>) {
    forall i, j :: 0 <= i < j < |to| ==> fold(to[i].name) != fold(to[j].name)
  }

  lemma WithoutApart(fold: string -> string, to: seq<Column>, at: nat)
    requires at < |to|
    ensures FoldsApart(fold, to) ==> FoldsApart(fold, Placed(Without(to, at)))
  {
    hide Without;
    var r := Placed(Without(to, at));
    if FoldsApart(fold, to) {
      forall i, j | 0 <= i < j < |r| ensures fold(r[i].name) != fold(r[j].name) {
        WithoutAt(to, at, i);
        WithoutAt(to, at, j);
      }
    }
  }

  /** A column put in another's place keeps names apart exactly when no other
      column has its name. */
  lemma PutApart(fold: string -> string, to: seq<Column>, at: nat, c: Column)
    requires at < |to| && FoldsApart(fold, to)
    ensures FoldsApart(fold, to[at := c]) <==> forall i :: 0 <= i < |to| && i != at ==> fold(to[i].name) != fold(c.name)
  {
    var r := to[at := c];
    if FoldsApart(fold, r) {
      forall i | 0 <= i < |to| && i != at ensures fold(to[i].name) != fold(c.name) { assert r[i] == to[i] && r[at] == c; }
    }
  }

  lemma SameName(fold: string -> string, to: seq<Column>, at: nat, c: Column)
    requires at < |to| && SameColumn(to[at], c)
    ensures FoldsApart(fold, to) ==> forall i :: 0 <= i < |to| && i != at ==> fold(to[i].name) != fold(c.name)
  {
  }

  class Design {
    const from: seq<Column>
    const hasRows: bool
    const fold: string -> string      // what folding a name's case leaves
    const held: string -> bool        // whether a key or an index is made of the column
    var to: seq<Column>
    var origin: seq<int>

    ghost predicate Valid()
      reads this
    {
      |origin| == |to| && Ordered(origin, |from|)
    }

    /** No two columns go by one name, whatever its case. */
    ghost predicate Apart()
      reads this
    {
      FoldsApart(fold, to)
    }

    constructor (from: seq<Column>, hasRows: bool, fold: string -> string, held: string -> bool)
      ensures Valid() && to == from && origin == Counted(|from|) && this.from == from && this.hasRows == hasRows && this.fold == fold && this.held == held
    {
      this.from, this.hasRows, this.fold, this.held := from, hasRows, fold, held;
      to, origin := from, Counted(|from|);
    }

    function Index(name: string): (at: int)
      reads this
      ensures -1 <= at < |to|
      ensures at >= 0 ==> fold(to[at].name) == fold(name)
      ensures forall i :: 0 <= i < (if at < 0 then |to| else at) ==> fold(to[i].name) != fold(name)
    {
      IndexFrom(name, 0)
    }

    function IndexFrom(name: string, i: nat): (at: int)
      reads this
      requires i <= |to|
      ensures at == -1 || i <= at < |to|
      ensures at >= 0 ==> fold(to[at].name) == fold(name)
      ensures forall k :: i <= k < (if at < 0 then |to| else at) ==> fold(to[k].name) != fold(name)
      decreases |to| - i
    {
      if i == |to| then -1 else if fold(to[i].name) == fold(name) then i else IndexFrom(name, i + 1)
    }

    method AddColumn(column: Column) returns (r: Result)
      requires Valid()
      modifies this
      ensures Valid() && (old(Apart()) ==> Apart())
      ensures r == AddError(old(Index(Trimmed(column.name))) >= 0, column)
      ensures r == Ok <==>
        && Trimmed(column.name) != "" && (forall c :: c in old(to) ==> fold(c.name) != fold(Trimmed(column.name)))
        && !(column.typ.class_ == UNKNOWN && Trimmed(column.typ.native) == "")
        && (column.typ.nullable || column.hasDefault || !hasRows)
      ensures to == if r == Ok then old(to) + [column.(name := Trimmed(column.name), position := |old(to)|)] else old(to)
      ensures origin == if r == Ok then old(origin) + [-1] else old(origin)
    {
      var name := Trimmed(column.name);
      if name == "" { return Err(NoName); }
      if Index(name) >= 0 { return Err(NameTaken); }
      if column.typ.class_ == UNKNOWN && Trimmed(column.typ.native) == "" { return Err(NoType); }
      var c := column.(name := name, position := |to|);
      if !c.typ.nullable && !c.hasDefault && hasRows { return Err(NeedsValue); }
      to, origin := to + [c], origin + [-1];
      return Ok;
    }

    function AddError(taken: bool, c: Column): Result {
      if Trimmed(c.name) == "" then Err(NoName) else if taken then Err(NameTaken)
      else if c.typ.class_ == UNKNOWN && Trimmed(c.typ.native) == "" then Err(NoType)
      else if !c.typ.nullable && !c.hasDefault && hasRows then Err(NeedsValue) else Ok
    }

    /** Replaces the column, and renames it where the name is another. */
    method ChangeColumn(name: string, column: Column) returns (r: Result)
      requires Valid()
      modifies this`to
      ensures Valid() && (old(Apart()) ==> Apart())
      ensures r == Ok <==>
        var at, other := old(Index(name)), old(Index(Trimmed(column.name)));
        at >= 0 && Trimmed(column.name) != "" && (other < 0 || other == at)
        && !(column.typ.class_ == UNKNOWN && Trimmed(column.typ.native) == "")
      ensures to == if r == Ok then old(to)[old(Index(name)) := column.(name := Trimmed(column.name), position := old(Index(name)))]
                    else old(to)
    {
      var at := Index(name);
      if at < 0 { return Err(NoColumn); }
      var newName := Trimmed(column.name);
      if newName == "" { return Err(NoName); }
      var other := Index(newName);
      if other >= 0 && other != at { return Err(NameTaken); }
      if column.typ.class_ == UNKNOWN && Trimmed(column.typ.native) == "" { return Err(NoType); }
      to := to[at := column.(name := newName, position := at)];
      return Ok;
    }

    method DropColumn(name: string) returns (r: Result)
      requires Valid()
      modifies this
      ensures Valid() && (old(Apart()) ==> Apart())
      ensures old(Index(name)) < 0 ==> r == Err(NoColumn)
      ensures old(Index(name)) >= 0 ==> r == if held(old(to[Index(name)].name)) then Err(PartOfKey) else Ok
      ensures to == if r == Ok then Placed(Without(old(to), old(Index(name)))) else old(to)
      ensures origin == if r == Ok then Without(old(origin), old(Index(name))) else old(origin)
    {
      hide Without, Ordered, Placed, FoldsApart, IndexFrom;
      var at := Index(name);
      if at < 0 { return Err(NoColumn); }
      if held(to[at].name) { return Err(PartOfKey); }
      WithoutOrdered(origin, |from|, at);
      WithoutApart(fold, to, at);
      to, origin := Placed(Without(to, at)), Without(origin, at);
      return Ok;
    }

    /** If this column was read under another name, nobody has that name now. */
    ghost predicate NameFree(name: string)
      requires Valid()
      reads this
    {
      var at := Index(name);
      at >= 0 && origin[at] >= 0 ==>
        forall i :: 0 <= i < |to| && i != at ==> fold(to[i].name) != fold(from[origin[at]].name)
    }

    /** Undoes what was done to a column, be it changed or added. The name it had
        may belong to another by now, and nothing asks: names stay apart exactly
        when it does not. */
    method Revert(name: string) returns (done: bool)
      requires Valid()
      modifies this
      ensures Valid()
      ensures old(Apart()) ==> (Apart() <==> old(NameFree(name)))
      ensures var at := old(Index(name));
        && (at < 0 ==> !done && to == old(to) && origin == old(origin))
        && (at >= 0 && old(origin)[at] < 0 ==> done && to == Placed(Without(old(to), at)) && origin == Without(old(origin), at))
        && (at >= 0 && old(origin)[at] >= 0 ==>
              var was := from[old(origin)[at]];
              && origin == old(origin) && done == !SameColumn(old(to)[at], was)
              && to == if done then old(to)[at := was.(position := at)] else old(to))
    {
      hide Without, Placed, FoldsApart, IndexFrom, SameColumn;
      var at := Index(name);
      if at < 0 { return false; }
      var was := origin[at];
      if was < 0 {
        WithoutOrdered(origin, |from|, at);
        WithoutApart(fold, to, at);
        to, origin := Placed(Without(to, at)), Without(origin, at);
        return true;
      }
      if SameColumn(to[at], from[was]) {
        SameName(fold, to, at, from[was]);
        return false;
      }
      if FoldsApart(fold, to) { PutApart(fold, to, at, from[was].(position := at)); }
      to := to[at := from[was].(position := at)];
      return true;
    }

    method RevertAll()
      requires Valid()
      modifies this
      ensures Valid() && to == from && origin == Counted(|from|)
    {
      to, origin := from, Counted(|from|);
    }

    /** What went, what changed, and what arrived. */
    method Changes() returns (out: seq<ColumnChange>)
      requires Valid()
      ensures out == ChangesOf(from, to, origin)
    {
      out := [];
      for i := 0 to |from|
        invariant out == Drops(from[..i], origin)
      {
        assert from[..i + 1][..i] == from[..i];
        if i !in origin { out := out + [Dropped(from[i])]; }
      }
      assert from[..|from|] == from;
      var drops := out;
      for i := 0 to |to|
        invariant out == drops + Rest(from, to, origin, i)
      {
        if origin[i] < 0 { out := out + [Added(to[i])]; }
        else if !SameColumn(from[origin[i]], to[i]) { out := out + [Altered(from[origin[i]], to[i])]; }
      }
    }
  }

  function Same(name: string): string { name }
  function NoneHeld(name: string): bool { false }

  /** A column renamed, another added under its old name, and the first put back:
      two columns go by one name. */
  method RevertClashes(t: Type) returns (d: Design)
    requires t.nullable && t.class_ != UNKNOWN
    ensures d.Valid() && !d.Apart()
  {
    var a := Column("a", t, "", false, "", 0, map[]);
    d := new Design([a], false, Same, NoneHeld);
    Plain("a");
    Plain("b");
    assert d.to[0].name == "a" && d.Index("a") == 0;
    var r := d.ChangeColumn("a", a.(name := "b"));
    assert d.to[0].name == "b" && |d.to| == 1 && d.Index("a") == -1;
    r := d.AddColumn(a);
    assert r == Ok;
    assert d.to[0].name == "b" && d.to[1].name == "a" && d.Index("b") == 0 && d.origin[0] == 0;
    var done := d.Revert("b");
    assert d.to[0].name == "a" && d.to[1].name == "a";
    assert d.fold(d.to[0].name) == d.fold(d.to[1].name);
  }

  lemma Plain(s: string)
    requires s != "" && !Space(s[0]) && !Space(s[|s| - 1])
    ensures Trimmed(s) == s
  {
  }

  // ----- the changes made over again

  /** No two columns read have one name. */
  ghost predicate NamesApart(from: seq<Column>) { forall i, j :: 0 <= i < j < |from| ==> from[i].name != from[j].name }

  function Find(changes: seq<ColumnChange>, name: string): Option<ColumnChange> {
    if changes == [] then None
    else if !changes[0].Added? && changes[0].from.name == name then Some(changes[0]) else Find(changes[1..], name)
  }

  lemma {:induction false} FindIs(changes: seq<ColumnChange>, name: string)
    ensures var c := Find(changes, name);
      && (c.Some? ==> c.value in changes && !c.value.Added? && c.value.from.name == name)
      && (c.None? ==> forall d :: d in changes && !d.Added? ==> d.from.name != name)
  {
    if changes != [] { FindIs(changes[1..], name); }
  }

  /** What the changes make of one original column. */
  function Redone(c: Column, changes: seq<ColumnChange>): seq<Column> {
    match Find(changes, c.name)
    case None => [c]
    case Some(Dropped(_)) => []
    case Some(Altered(_, to)) => [to]
    case Some(Added(_)) => [c]
  }

  function RedoneAll(from: seq<Column>, changes: seq<ColumnChange>): seq<Column> {
    if from == [] then [] else RedoneAll(from[..|from| - 1], changes) + Redone(from[|from| - 1], changes)
  }

  function Arrived(changes: seq<ColumnChange>): seq<Column> {
    if changes == [] then []
    else Arrived(changes[..|changes| - 1]) + if changes[|changes| - 1].Added? then [changes[|changes| - 1].to] else []
  }

  function Replayed(from: seq<Column>, changes: seq<ColumnChange>): seq<Column> { RedoneAll(from, changes) + Arrived(changes) }

  predicate AllSame(a: seq<Column>, b: seq<Column>) { |a| == |b| && forall i :: 0 <= i < |a| ==> SameColumn(a[i], b[i]) }

  lemma {:induction false} InDrops(from: seq<Column>, origin: seq<int>, c: ColumnChange)
    ensures c in Drops(from, origin) <==> exists j :: 0 <= j < |from| && j !in origin && c == Dropped(from[j])
  {
    if from != [] {
      var k := |from| - 1;
      InDrops(from[..k], origin, c);
      if k !in origin && c == Dropped(from[k]) { assert c in Drops(from, origin); }
    }
  }

  lemma {:induction false} InRest(from: seq<Column>, to: seq<Column>, origin: seq<int>, n: nat, c: ColumnChange)
    requires n <= |to| == |origin| && Within(origin, |from|)
    ensures c in Rest(from, to, origin, n) <==> exists i :: 0 <= i < n && c in ChangeAt(from, to[i], origin[i])
    decreases n
  {
    if n > 0 { InRest(from, to, origin, n - 1, c); }
  }

  /** An original column is kept as it stands now, or gone. */
  lemma RedoneIs(from: seq<Column>, to: seq<Column>, origin: seq<int>, j: nat)
    requires |to| == |origin| && Ordered(origin, |from|) && NamesApart(from) && j < |from|
    ensures var r := Redone(from[j], ChangesOf(from, to, origin));
      && (j !in origin ==> r == [])
      && (forall i :: 0 <= i < |to| && origin[i] == j ==> |r| == 1 && SameColumn(r[0], to[i]))
  {
    var changes := ChangesOf(from, to, origin);
    FindIs(changes, from[j].name);
    var c := Find(changes, from[j].name);
    if j !in origin {
      InDrops(from, origin, Dropped(from[j]));
      assert Dropped(from[j]) in changes;
      FoundIs(from, to, origin, j, c.value);
    } else {
      var i :| 0 <= i < |origin| && origin[i] == j;
      if c.Some? { FoundIs(from, to, origin, j, c.value); }
      else if !SameColumn(from[j], to[i]) {
        AlteredThere(from, to, origin, i);
      }
    }
  }

  lemma AlteredThere(from: seq<Column>, to: seq<Column>, origin: seq<int>, i: nat)
    requires |to| == |origin| && Ordered(origin, |from|) && i < |to| && origin[i] >= 0 && !SameColumn(from[origin[i]], to[i])
    ensures Altered(from[origin[i]], to[i]) in ChangesOf(from, to, origin)
  {
    var c := Altered(from[origin[i]], to[i]);
    InRest(from, to, origin, |to|, c);
    assert c in ChangeAt(from, to[i], origin[i]);
  }

  /** The one change there can be to an original column. */
  lemma FoundIs(from: seq<Column>, to: seq<Column>, origin: seq<int>, j: nat, c: ColumnChange)
    requires |to| == |origin| && Ordered(origin, |from|) && NamesApart(from) && j < |from|
    requires c in ChangesOf(from, to, origin) && !c.Added? && c.from.name == from[j].name
    ensures j !in origin ==> c == Dropped(from[j])
    ensures forall i :: 0 <= i < |to| && origin[i] == j ==> c == Altered(from[j], to[i])
  {
    InDrops(from, origin, c);
    InRest(from, to, origin, |to|, c);
    if c in Rest(from, to, origin, |to|) {
      var i :| 0 <= i < |to| && c in ChangeAt(from, to[i], origin[i]);
      assert c == Altered(from[origin[i]], to[i]) && origin[i] == j;
    } else {
      var k :| 0 <= k < |from| && k !in origin && c == Dropped(from[k]);
      assert k == j;
    }
  }

  /** How many columns came from the first `j`. */
  function KeptBefore(origin: seq<int>, j: int): nat {
    if origin == [] then 0 else if 0 <= origin[0] < j then 1 + KeptBefore(origin[1..], j) else 0
  }

  lemma {:induction false} KeptAre(origin: seq<int>, n: nat, j: nat)
    requires Ordered(origin, n)
    ensures KeptBefore(origin, j) <= |origin|
    ensures forall i :: 0 <= i < |origin| ==> (i < KeptBefore(origin, j) <==> 0 <= origin[i] < j)
    decreases |origin|
  {
    if origin != [] {
      var rest := origin[1..];
      assert Ordered(rest, n);
      KeptAre(rest, n, j);
      assert forall i :: 0 < i < |origin| ==> origin[i] == rest[i - 1];
    }
  }

  lemma {:induction false} RedoneKept(from: seq<Column>, to: seq<Column>, origin: seq<int>, j: nat)
    requires |to| == |origin| && Ordered(origin, |from|) && NamesApart(from) && j <= |from|
    ensures KeptBefore(origin, j) <= |to| && AllSame(RedoneAll(from[..j], ChangesOf(from, to, origin)), to[..KeptBefore(origin, j)])
  {
    KeptAre(origin, |from|, j);
    if j > 0 {
      hide RedoneAll, Redone, ChangesOf, KeptBefore, Ordered, NamesApart, AllSame;
      var changes := ChangesOf(from, to, origin);
      RedoneKept(from, to, origin, j - 1);
      RedoneLast(from, j, changes);
      KeptMore(from, to, origin, j - 1, RedoneAll(from[..j - 1], changes));
    }
  }

  lemma RedoneLast(from: seq<Column>, j: nat, changes: seq<ColumnChange>)
    requires 0 < j <= |from|
    ensures RedoneAll(from[..j], changes) == RedoneAll(from[..j - 1], changes) + Redone(from[j - 1], changes)
  {
    assert from[..j][..j - 1] == from[..j - 1] && from[..j][j - 1] == from[j - 1];
  }

  /** One original column more: kept as it stands, or gone. */
  lemma KeptMore(from: seq<Column>, to: seq<Column>, origin: seq<int>, j: nat, before: seq<Column>)
    requires |to| == |origin| && Ordered(origin, |from|) && NamesApart(from) && j < |from|
    requires KeptBefore(origin, j) <= |to| && AllSame(before, to[..KeptBefore(origin, j)])
    ensures KeptBefore(origin, j + 1) <= |to|
    ensures AllSame(before + Redone(from[j], ChangesOf(from, to, origin)), to[..KeptBefore(origin, j + 1)])
  {
    var r := Redone(from[j], ChangesOf(from, to, origin));
    hide Redone, ChangesOf, KeptBefore, Ordered, NamesApart, AllSame, SameColumn;
    RedoneIs(from, to, origin, j);
    if j in origin {
      var i :| 0 <= i < |origin| && origin[i] == j;
      OneMore(origin, |from|, j, i);
      SameMore(before, to, i, r[0]);
      assert r == [r[0]];
    } else {
      NoMore(origin, |from|, j);
      assert before + [] == before;
    }
  }

  lemma SameMore(a: seq<Column>, to: seq<Column>, k: nat, c: Column)
    requires k < |to| && AllSame(a, to[..k]) && SameColumn(c, to[k])
    ensures AllSame(a + [c], to[..k + 1])
  {
    hide SameColumn;
    assert forall i :: 0 <= i < k ==> to[..k + 1][i] == to[..k][i];
  }

  lemma KeptAt(origin: seq<int>, n: nat, j: nat, i: nat)
    requires Ordered(origin, n)
    ensures KeptBefore(origin, j) <= |origin|
    ensures i < |origin| ==> (i < KeptBefore(origin, j) <==> 0 <= origin[i] < j)
  {
    KeptAre(origin, n, j);
  }

  lemma OneMore(origin: seq<int>, n: nat, j: nat, i: nat)
    requires Ordered(origin, n) && i < |origin| && origin[i] == j
    ensures KeptBefore(origin, j) == i && KeptBefore(origin, j + 1) == i + 1
  {
    hide KeptBefore;
    KeptAt(origin, n, j, i);
    KeptAt(origin, n, j + 1, i);
    KeptAt(origin, n, j, KeptBefore(origin, j));
    KeptAt(origin, n, j + 1, i + 1);
  }

  lemma NoMore(origin: seq<int>, n: nat, j: nat)
    requires Ordered(origin, n) && forall i :: 0 <= i < |origin| ==> origin[i] != j
    ensures KeptBefore(origin, j) == KeptBefore(origin, j + 1)
  {
    hide KeptBefore;
    KeptAt(origin, n, j, KeptBefore(origin, j));
    KeptAt(origin, n, j + 1, KeptBefore(origin, j));
    KeptAt(origin, n, j, KeptBefore(origin, j + 1));
    KeptAt(origin, n, j + 1, KeptBefore(origin, j + 1));
  }

  lemma {:induction false} ArrivedIn(from: seq<Column>, to: seq<Column>, origin: seq<int>, k: nat, i: nat)
    requires |to| == |origin| && Within(origin, |from|) && i <= |to|
    requires forall m :: 0 <= m < |origin| ==> (m < k <==> origin[m] >= 0)
    ensures Arrived(Rest(from, to, origin, i)) == Past(to, k, i)
    decreases i
  {
    if i > 0 {
      ArrivedIn(from, to, origin, k, i - 1);
      assert i - 1 < k <==> origin[i - 1] >= 0;
      ArrivedMore(from, to, origin, k, i - 1);
    }
  }

  lemma ArrivedMore(from: seq<Column>, to: seq<Column>, origin: seq<int>, k: nat, i: nat)
    requires i < |to| == |origin| && Within(origin, |from|) && (i < k <==> origin[i] >= 0)
    requires Arrived(Rest(from, to, origin, i)) == Past(to, k, i)
    ensures Arrived(Rest(from, to, origin, i + 1)) == Past(to, k, i + 1)
  {
    hide Arrived, Rest, Past, Within;
    ArrivedNext(from, to, origin, i);
    PastMore(to, k, i);
  }

  lemma ArrivedNext(from: seq<Column>, to: seq<Column>, origin: seq<int>, i: nat)
    requires i < |to| == |origin| && Within(origin, |from|)
    ensures Arrived(Rest(from, to, origin, i + 1)) == Arrived(Rest(from, to, origin, i)) + if origin[i] < 0 then [to[i]] else []
  {
    RestMore(from, to, origin, i);
    ArrivesAt(from, to[i], origin[i]);
    hide ChangeAt, Arrived, Rest;
    ArrivedJoin(Rest(from, to, origin, i), ChangeAt(from, to[i], origin[i]));
  }

  lemma RestMore(from: seq<Column>, to: seq<Column>, origin: seq<int>, i: nat)
    requires i < |to| == |origin| && Within(origin, |from|)
    ensures Rest(from, to, origin, i + 1) == Rest(from, to, origin, i) + ChangeAt(from, to[i], origin[i])
  {
  }

  /** What stands from the k-th on, before the i-th. */
  function Past(to: seq<Column>, k: nat, i: nat): seq<Column>
    requires i <= |to|
  {
    if i <= k then [] else to[k..i]
  }

  lemma PastMore(to: seq<Column>, k: nat, i: nat)
    requires i < |to|
    ensures Past(to, k, i + 1) == Past(to, k, i) + if i < k then [] else [to[i]]
  {
  }

  lemma ArrivesAt(from: seq<Column>, to: Column, origin: int)
    requires -1 <= origin < |from|
    ensures Arrived(ChangeAt(from, to, origin)) == if origin < 0 then [to] else []
  {
    var c := ChangeAt(from, to, origin);
    if c != [] { assert c[..|c| - 1] == []; }
  }

  lemma {:induction false} ArrivedJoin(a: seq<ColumnChange>, b: seq<ColumnChange>)
    ensures Arrived(a + b) == Arrived(a) + Arrived(b)
  {
    if b == [] {
      assert a + b == a;
    } else {
      assert (a + b)[..|a + b| - 1] == a + b[..|b| - 1];
      ArrivedJoin(a, b[..|b| - 1]);
    }
  }

  lemma {:induction false} NoneArrive(from: seq<Column>, origin: seq<int>)
    ensures Arrived(Drops(from, origin)) == []
  {
    if from != [] {
      NoneArrive(from[..|from| - 1], origin);
      var last := if |from| - 1 in origin then [] else [Dropped(from[|from| - 1])];
      ArrivedJoin(Drops(from[..|from| - 1], origin), last);
      if last != [] { assert last[..0] == []; }
    }
  }

  /** Made over again on the columns as they were read, the changes give the
      present columns, but for what each says of its place. */
  lemma ChangesRedo(from: seq<Column>, to: seq<Column>, origin: seq<int>)
    requires |to| == |origin| && Ordered(origin, |from|) && NamesApart(from)
    ensures AllSame(Replayed(from, ChangesOf(from, to, origin)), to)
    ensures var r := Replayed(from, ChangesOf(from, to, origin));
      |r| == |to| && forall i :: 0 <= i < |to| ==> r[i].(position := to[i].position, attrs := to[i].attrs) == to[i]
  {
    ReplayedSame(from, to, origin);
  }

  /** A column that was read is among what changed exactly when it differs in more
      than its place and attributes. */
  lemma AlteredIff(from: seq<Column>, to: seq<Column>, origin: seq<int>, i: nat)
    requires |to| == |origin| && Ordered(origin, |from|) && NamesApart(from) && i < |to| && origin[i] >= 0
    ensures (exists c :: c in ChangesOf(from, to, origin) && !c.Added? && c.from == from[origin[i]])
      <==> from[origin[i]].(position := to[i].position, attrs := to[i].attrs) != to[i]
  {
    var was := from[origin[i]];
    if SameColumn(was, to[i]) {
      forall c | c in ChangesOf(from, to, origin) && !c.Added? ensures c.from != was {
        if c.from == was { FoundDiffers(from, to, origin, i, c); }
      }
    } else {
      AlteredThere(from, to, origin, i);
    }
  }

  lemma FoundDiffers(from: seq<Column>, to: seq<Column>, origin: seq<int>, i: nat, c: ColumnChange)
    requires |to| == |origin| && Ordered(origin, |from|) && NamesApart(from) && i < |to| && origin[i] >= 0
    requires c in ChangesOf(from, to, origin) && !c.Added? && c.from == from[origin[i]]
    ensures !SameColumn(from[origin[i]], to[i])
  {
    InDrops(from, origin, c);
    InRest(from, to, origin, |to|, c);
    FoundIs(from, to, origin, origin[i], c);
    var k :| 0 <= k < |to| && c in ChangeAt(from, to[k], origin[k]);
    assert origin[k] == origin[i];
    assert k == i;
  }

  lemma ReplayedSame(from: seq<Column>, to: seq<Column>, origin: seq<int>)
    requires |to| == |origin| && Ordered(origin, |from|) && NamesApart(from)
    ensures AllSame(Replayed(from, ChangesOf(from, to, origin)), to)
  {
    var k := KeptBefore(origin, |from|);
    KeptAre(origin, |from|, |from|);
    RedoneKept(from, to, origin, |from|);
    assert forall i :: 0 <= i < |origin| ==> -1 <= origin[i] < |from|;
    hide KeptBefore, Ordered, Within, NamesApart, RedoneAll, Arrived, Drops, Rest, SameColumn;
    assert from[..|from|] == from && to[k..|to|] == to[k..] && to == to[..k] + to[k..];
    ArrivedIn(from, to, origin, k, |to|);
    NoneArrive(from, origin);
    ArrivedJoin(Drops(from, origin), Rest(from, to, origin, |to|));
    var kept := RedoneAll(from, ChangesOf(from, to, origin));
    assert [] + to[k..] == to[k..];
    assert Arrived(ChangesOf(from, to, origin)) == to[k..];
    hide AllSame, ChangesOf;
    AllJoin(kept, to[..k], to[k..]);
  }

  lemma AllSelf(a: seq<Column>)
    ensures AllSame(a, a)
  {
  }

  lemma AllJoin(a: seq<Column>, b: seq<Column>, c: seq<Column>)
    requires AllSame(a, b)
    ensures AllSame(a + c, b + c)
  {
    AllSelf(c);
    hide SameColumn;
    forall i | 0 <= i < |a + c| ensures SameColumn((a + c)[i], (b + c)[i]) {
      if i >= |a| { assert (a + c)[i] == c[i - |a|] && (b + c)[i] == c[i - |a|]; assert SameColumn(c[i - |a|], c[i - |a|]); }
    }
  }
}
