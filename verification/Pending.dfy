/** Changes to a table's rows not yet written (internal/app/pending.go): edits,
    deletions and new rows, kept by each row's key. */
module Pending {
  import opened Wrappers

  /** A cell's value: its type and how it prints. */
  datatype Value = Value(typ: string, text: string)
  type Row = seq<Value>

  const NIL := Value("<nil>", "<nil>")
  /** What a new row has in a column it was not given. */
  const DEFAULT := Value("model.Default", "{}")

  // ----- keys

  const UNIT := '\U{001F}'
  const RECORD := '\U{001E}'

  function KeyString(vals: seq<Value>): string {
    if vals == [] then "" else vals[0].typ + [UNIT] + vals[0].text + [RECORD] + KeyString(vals[1..])
  }

  /** The type ends at its separator and the text at its own. */
  predicate Plain(v: Value) { UNIT !in v.typ && RECORD !in v.text }
  predicate AllPlain(vals: seq<Value>) { forall v :: v in vals ==> Plain(v) }

  lemma CutsAlike(a: string, c: char, x: string, b: string, y: string)
    requires c !in a && c !in b && a + [c] + x == b + [c] + y
    ensures a == b && x == y
  {
    var s := a + [c] + x;
    assert s[|a|] == c && s[|b|] == c;
    assert forall i :: 0 <= i < |a| ==> s[i] == a[i] && a[i] in a;
    assert forall i :: 0 <= i < |b| ==> s[i] == b[i] && b[i] in b;
    assert s[..|a|] == a && s[..|b|] == b;
    assert s[|a| + 1..] == x && s[|b| + 1..] == y;
  }

  /** Two keys print alike only when they are the same values, if no type holds its
      separator and no text its own. */
  lemma {:induction false} KeyStringApart(a: seq<Value>, b: seq<Value>)
    requires AllPlain(a) && AllPlain(b) && KeyString(a) == KeyString(b)
    ensures a == b
  {
    if a != [] && b != [] {
      var ra, rb := KeyString(a[1..]), KeyString(b[1..]);
      assert Plain(a[0]) && Plain(b[0]);
      assert KeyString(a) == a[0].typ + [UNIT] + (a[0].text + [RECORD] + ra);
      assert KeyString(b) == b[0].typ + [UNIT] + (b[0].text + [RECORD] + rb);
      CutsAlike(a[0].typ, UNIT, a[0].text + [RECORD] + ra, b[0].typ, b[0].text + [RECORD] + rb);
      CutsAlike(a[0].text, RECORD, ra, b[0].text, rb);
      KeyStringApart(a[1..], b[1..]);
      assert a == [a[0]] + a[1..] && b == [b[0]] + b[1..];
    }
  }

  /** Values that hold separators can make two keys one. */
  lemma KeysCollide() returns (a: seq<Value>, b: seq<Value>)
    ensures |a| == |b| == 2 && a != b && KeyString(a) == KeyString(b)
  {
    a := [Value("s", ['a', RECORD, 's', UNIT, 'b']), Value("s", "c")];
    b := [Value("s", "a"), Value("s", ['b', RECORD, 's', UNIT, 'c'])];
    KeyStringTwo(a[0], a[1]);
    KeyStringTwo(b[0], b[1]);
    assert |a[0].text| == 5 && |b[0].text| == 1;
    assert KeyString(a) == ['s', UNIT, 'a', RECORD, 's', UNIT, 'b', RECORD, 's', UNIT, 'c', RECORD] == KeyString(b);
  }

  lemma KeyStringTwo(v: Value, w: Value)
    ensures KeyString([v, w]) == v.typ + [UNIT] + v.text + [RECORD] + w.typ + [UNIT] + w.text + [RECORD]
  {
    assert [v, w][1..] == [w] && [w][1..] == [];
    assert KeyString([w]) == w.typ + [UNIT] + w.text + [RECORD] + "";
  }

  /** What a row is known by: what it holds in the columns of the key. */
  function KeyOf(keyAt: seq<nat>, row: Row): (vals: seq<Value>)
    ensures |vals| == |keyAt|
  {
    seq(|keyAt|, i requires 0 <= i < |keyAt| => if keyAt[i] < |row| then row[keyAt[i]] else NIL)
  }

  // ----- the overlay

  /** What is pending for one row read. */
  datatype Mark = Deleted | Edited(values: map<int, Value>)
  type Marks = map<string, Mark>

  function Edits(m: Marks, k: string): map<int, Value> { if k in m && m[k].Edited? then m[k].values else map[] }

  /** One cell's edit undone: a row left with none is unchanged. */
  function Cleared(m: Marks, k: string, col: int): Marks {
    if k !in m || m[k].Deleted? then m
    else if m[k].values - {col} == map[] then m - {k}
    else m[k := Edited(m[k].values - {col})]
  }

  function Marked(m: Marks, k: string, col: int, v: Value): Marks { m[k := Edited(Edits(m, k)[col := v])] }

  datatype Standing = Unchanged | Modified | Gone
  datatype Kind = Update | Delete | Insert
  datatype Change = Change(kind: Kind, key: seq<Value>, orig: Row, values: map<int, Value>)
  datatype RowChange = RowChange(kind: Kind, key: seq<Value>, values: map<string, Value>)
  datatype Error = NoColumn | ToBeDeleted | NoNewRow
  datatype Result = Ok | Err(error: Error)

  function Dropped(order: seq<string>, k: string): seq<string> {
    if order == [] then [] else if order[0] == k then order[1..] else [order[0]] + Dropped(order[1..], k)
  }

  /** What is dropped is its first place; the rest stay in their order. */
  lemma {:induction false} DropsFirst(order: seq<string>, k: string) returns (i: nat)
    requires k in order
    ensures i < |order| && order[i] == k && k !in order[..i] && Dropped(order, k) == order[..i] + order[i + 1..]
  {
    if order[0] == k {
      i := 0;
    } else {
      i := DropsFirst(order[1..], k);
      assert order[1..][..i] == order[1..i + 1] && order[1..][i + 1..] == order[i + 2..];
      assert order[..i + 1] == [order[0]] + order[1..i + 1];
      i := i + 1;
    }
  }

  predicate Distinct(order: seq<string>) { forall i, j :: 0 <= i < j < |order| ==> order[i] != order[j] }

  lemma DistinctTail(order: seq<string>)
    requires order != []
    ensures Distinct(order) <==> Distinct(order[1..]) && order[0] !in order[1..]
  {
    if Distinct(order) { assert forall i :: 0 < i < |order| ==> order[0] != order[i]; }
    if Distinct(order[1..]) && order[0] !in order[1..] {
      forall i, j | 0 <= i < j < |order| ensures order[i] != order[j] {
        assert order[j] == order[1..][j - 1];
        if i > 0 { assert order[i] == order[1..][i - 1]; }
      }
    }
  }

  lemma {:induction false} DroppedIs(order: seq<string>, k: string)
    requires Distinct(order)
    ensures Distinct(Dropped(order, k)) && forall o :: o in Dropped(order, k) <==> o in order && o != k
  {
    hide Distinct;
    if order != [] {
      DistinctTail(order);
      assert forall o :: o in order <==> o == order[0] || o in order[1..];
      if order[0] != k {
        var rest := Dropped(order[1..], k);
        DroppedIs(order[1..], k);
        assert ([order[0]] + rest)[1..] == rest;
        DistinctTail([order[0]] + rest);
      }
    }
  }

  lemma DroppedAt(order: seq<string>, i: nat, k: string)
    requires i < |order|
    ensures order[..i] + Dropped(order[i..], k)
         == if order[i] == k then order[..i] + order[i + 1..] else order[..i + 1] + Dropped(order[i + 1..], k)
  {
    assert order[i..] == [order[i]] + order[i + 1..];
    assert order[i..][1..] == order[i + 1..];
    if order[i] != k {
      assert order[..i + 1] + Dropped(order[i + 1..], k) == order[..i] + ([order[i]] + Dropped(order[i + 1..], k));
    }
  }

  predicate Within(n: nat, values: map<int, Value>) { forall c :: c in values ==> 0 <= c < n }

  /** Values by the names their columns are stored under. Two columns may be stored
      under one name, and then either value may be the one that is left. */
  ghost predicate NamedAs(cols: seq<string>, values: map<int, Value>, named: map<string, Value>)
    requires Within(|cols|, values)
  {
    && (forall c :: c in values ==> cols[c] in named)
    && (forall n :: n in named ==> exists c :: c in values && cols[c] == n && named[n] == values[c])
  }

  // ----- the changes kept

  predicate ValidChange(n: nat, keyAt: seq<nat>, k: string, c: Change) {
    && c.kind != Insert && KeyString(c.key) == k && c.key == KeyOf(keyAt, c.orig)
    && (c.kind == Update <==> c.values != map[])
    && forall at :: at in c.values ==> 0 <= at < n
  }

  /** The order holds each changed row once; no update is empty; a deleted row has
      no edits; and each is kept under its own key. */
  ghost predicate Sound(n: nat, keyAt: seq<nat>, rows: map<string, Change>, order: seq<string>) {
    && Distinct(order) && (forall k :: k in order <==> k in rows)
    && (forall k :: k in rows ==> ValidChange(n, keyAt, k, rows[k]))
  }

  predicate Differs(same: (Value, Value) -> bool, c: Change) {
    forall at :: at in c.values && 0 <= at < |c.orig| ==> !same(c.orig[at], c.values[at])
  }

  function MarkOf(c: Change): Mark { if c.kind == Delete then Deleted else Edited(c.values) }
  function MarksOf(rows: map<string, Change>): Marks { map k | k in rows :: MarkOf(rows[k]) }

  lemma DistinctMore(order: seq<string>, k: string)
    requires Distinct(order) && k !in order
    ensures Distinct(order + [k])
  {
    assert forall i :: 0 <= i < |order| ==> order[i] in order;
  }

  lemma PutSound(n: nat, keyAt: seq<nat>, rows: map<string, Change>, order: seq<string>, k: string, c: Change)
    requires Sound(n, keyAt, rows, order) && ValidChange(n, keyAt, k, c)
    ensures Sound(n, keyAt, rows[k := c], if k in rows then order else order + [k])
    ensures MarksOf(rows[k := c]) == MarksOf(rows)[k := MarkOf(c)]
  {
    hide ValidChange, MarkOf, Distinct;
    if k !in order { DistinctMore(order, k); }
    assert rows[k := c].Keys == rows.Keys + {k};
  }

  lemma DropSound(n: nat, keyAt: seq<nat>, rows: map<string, Change>, order: seq<string>, k: string)
    requires Sound(n, keyAt, rows, order)
    ensures Sound(n, keyAt, rows - {k}, Dropped(order, k))
    ensures MarksOf(rows - {k}) == MarksOf(rows) - {k}
  {
    hide ValidChange, MarkOf;
    DroppedIs(order, k);
    assert (rows - {k}).Keys == rows.Keys - {k};
  }

  /** The change to one row read, as a writer is given it. */
  ghost predicate ChangeFrom(cols: seq<string>, c: Change, w: RowChange) {
    Within(|cols|, c.values) && w.kind == c.kind && w.key == c.key && NamedAs(cols, c.values, w.values)
  }

  /** A change for each row touched, the first touched first. */
  ghost predicate ChangesFrom(cols: seq<string>, rows: map<string, Change>, ks: seq<string>, changes: seq<RowChange>) {
    |changes| == |ks| && forall i :: 0 <= i < |ks| ==> ks[i] in rows && ChangeFrom(cols, rows[ks[i]], changes[i])
  }

  ghost predicate InsertFrom(cols: seq<string>, values: map<int, Value>, w: RowChange) {
    Within(|cols|, values) && w.kind == Insert && w.key == [] && NamedAs(cols, values, w.values)
  }

  /** And the new rows. */
  ghost predicate InsertsFrom(cols: seq<string>, added: seq<map<int, Value>>, changes: seq<RowChange>) {
    |changes| == |added| && forall i :: 0 <= i < |added| ==> InsertFrom(cols, added[i], changes[i])
  }

  /** Where each of the key's columns is among those shown, the last where it is
      shown twice; none where one is not shown. */
  method FindKey(cols: seq<string>, names: seq<string>) returns (keyAt: Option<seq<nat>>)
    ensures keyAt.Some? <==> forall n :: n in names ==> n in cols
    ensures keyAt.Some? ==> |keyAt.value| == |names| && forall i :: 0 <= i < |names| ==>
              var at := keyAt.value[i];
              at < |cols| && cols[at] == names[i] && forall k :: at < k < |cols| ==> cols[k] != names[i]
  {
    var found: seq<nat> := [];
    for i := 0 to |names|
      invariant |found| == i && forall k :: 0 <= k < i ==> names[k] in cols
      invariant forall k :: 0 <= k < i ==>
                  found[k] < |cols| && cols[found[k]] == names[k] && forall m :: found[k] < m < |cols| ==> cols[m] != names[k]
    {
      var at := -1;
      for c := 0 to |cols|
        invariant -1 <= at < c && (at >= 0 ==> cols[at] == names[i])
        invariant forall m :: at < m < c ==> cols[m] != names[i]
      {
        if cols[c] == names[i] { at := c; }
      }
      if at < 0 {
        assert names[i] !in cols;
        return None;
      }
      found := found + [at];
    }
    return Some(found);
  }

  class Pending {
    const cols: seq<string>    // what each column shown is called in the table
    const keyAt: seq<nat>
    const same: (Value, Value) -> bool

    var rows: map<string, Change>
    var order: seq<string>
    var added: seq<map<int, Value>>

    constructor (cols: seq<string>, keyAt: seq<nat>, same: (Value, Value) -> bool)
      requires forall at :: at in keyAt ==> at < |cols|
      ensures Valid() && Marks() == map[] && added == [] && order == []
      ensures this.cols == cols && this.keyAt == keyAt && this.same == same
    {
      this.cols, this.keyAt, this.same := cols, keyAt, same;
      rows, order, added := map[], [], [];
    }

    ghost predicate Valid()
      reads this
    {
      && (forall at :: at in keyAt ==> at < |cols|)
      && Sound(|cols|, keyAt, rows, order)
      && (forall i :: 0 <= i < |added| ==> forall c :: c in added[i] ==> 0 <= c < |cols|)
    }

    /** No update sets a cell to what was read there. */
    ghost predicate Clean()
      reads this
    {
      forall k :: k in rows ==> Differs(same, rows[k])
    }

    /** What is pending, as a plain map. */
    ghost function Marks(): Marks
      reads this
    {
      MarksOf(rows)
    }

    function Key(row: Row): string { KeyString(KeyOf(keyAt, row)) }

    /** A row's change keeps the row as it was when first changed, and no other
        row's is touched. */
    ghost predicate FirstRead(before: map<string, Change>, after: map<string, Change>, row: Row) {
      && (Key(row) in after ==> after[Key(row)].orig == if Key(row) in before then before[Key(row)].orig else row)
      && after - {Key(row)} == before - {Key(row)}
    }

    /** The cell, where it has one, holds this value. */
    predicate Holds(row: Row, col: int, v: Value) { 0 <= col < |row| && same(row[col], v) }

    /** Sets a cell, or undoes its edit when that is what the row passed holds. No
        update sets what was read exactly when it is, or the row first read held
        something else. */
    method Set(row: Row, col: int, v: Value) returns (r: Result)
      requires Valid()
      modifies this`rows, this`order
      ensures Valid()
      ensures old(Clean()) && r.Err? ==> Clean()
      ensures old(Clean()) && r == Ok ==>
        var first := if Key(row) in old(rows) then old(rows)[Key(row)].orig else row;
        (Clean() <==> Holds(row, col, v) || !Holds(first, col, v))
      ensures r == if !(0 <= col < |cols|) then Err(NoColumn)
                   else if Key(row) in old(Marks()) && old(Marks())[Key(row)].Deleted? then Err(ToBeDeleted) else Ok
      ensures FirstRead(old(rows), rows, row)
      ensures r.Err? ==> Marks() == old(Marks()) && order == old(order)
      ensures r == Ok ==> Marks() == if col < |row| && same(row[col], v) then Cleared(old(Marks()), Key(row), col)
                                     else Marked(old(Marks()), Key(row), col, v)
      ensures Kept(old(order), order, Key(row))
    {
      if col < 0 || col >= |cols| { return Err(NoColumn); }
      var k, key := Key(row), KeyOf(keyAt, row);
      if k in rows && rows[k].kind == Delete { return Err(ToBeDeleted); }
      if col < |row| && same(row[col], v) {
        RevertCell(row, col);
        return Ok;
      }
      ChangeIs(k);
      hide KeyString, KeyOf, Sound, MarksOf, Differs, ValidChange, Distinct, Dropped;
      var c := if k in rows then rows[k] else Change(Update, key, row, map[]);
      if k !in rows { NewChange(row); }
      EditedWell(k, c, col, v);
      PutFrame(rows, k, c.(values := c.values[col := v]));
      Put(k, c.(values := c.values[col := v]));
      return Ok;
    }

    /** One row's change is kept, after the others if it is new. */
    method Put(k: string, c: Change)
      requires Valid() && ValidChange(|cols|, keyAt, k, c)
      modifies this`rows, this`order
      ensures Valid() && rows == old(rows)[k := c] && Marks() == old(Marks())[k := MarkOf(c)]
      ensures (old(Clean()) ==> (Clean() <==> Differs(same, c))) && Kept(old(order), order, k)
    {
      PutSound(|cols|, keyAt, rows, order, k, c);
      assert k in order <==> k in rows;
      hide Sound, ValidChange, MarksOf, Differs;
      if k !in rows { order := order + [k]; }
      rows := rows[k := c];
    }

    /** Only `k` comes or goes; the rest stay in their order. */
    ghost predicate Kept(before: seq<string>, after: seq<string>, k: string) {
      after == before || (k !in before && after == before + [k]) || (k in before && after == Dropped(before, k))
    }

    method DeleteRow(row: Row)
      requires Valid()
      modifies this`rows, this`order
      ensures Valid() && (old(Clean()) ==> Clean())
      ensures Marks() == old(Marks())[Key(row) := Deleted] && Kept(old(order), order, Key(row))
      ensures FirstRead(old(rows), rows, row)
    {
      hide KeyString, KeyOf, Sound;
      var k := Key(row);
      ChangeIs(k);
      Put(k, if k in rows then rows[k].(kind := Delete, values := map[]) else Change(Delete, KeyOf(keyAt, row), row, map[]));
    }

    /** An update goes on being one with an edit less, if it has another. */
    lemma LessWell(k: string, c: Change, col: int)
      requires ValidChange(|cols|, keyAt, k, c) && c.kind == Update
      ensures var d := c.(values := c.values - {col});
        && (d.values != map[] ==> ValidChange(|cols|, keyAt, k, d)) && MarkOf(c) == Edited(c.values) && MarkOf(d) == Edited(d.values)
        && (Differs(same, c) ==> Differs(same, d))
    {
    }

    lemma PutFrame(rows: map<string, Change>, k: string, c: Change)
      ensures rows[k := c] - {k} == rows - {k} == rows - {k} - {k}
    {
    }

    lemma ClearedIs(m: Marks, k: string, col: int, values: map<int, Value>)
      requires k in m && m[k] == Edited(values)
      ensures Cleared(m, k, col) == if values - {col} == map[] then m - {k} else m[k := Edited(values - {col})]
    {
    }

    method RevertCell(row: Row, col: int)
      requires Valid()
      modifies this`rows, this`order
      ensures Valid() && (old(Clean()) ==> Clean())
      ensures Marks() == Cleared(old(Marks()), Key(row), col) && Kept(old(order), order, Key(row))
      ensures FirstRead(old(rows), rows, row)
    {
      var k := Key(row);
      if k !in rows || rows[k].kind != Update { return; }
      ChangeIs(k);
      LessWell(k, rows[k], col);
      PutFrame(rows, k, rows[k].(values := rows[k].values - {col}));
      var values := rows[k].values - {col};
      ClearedIs(Marks(), k, col, rows[k].values);
      hide KeyString, KeyOf, Sound, MarksOf, ValidChange, Differs, Distinct, Dropped, Cleared;
      if |values| == 0 {
        assert values == map[];
        Forget(k);
      } else {
        Put(k, rows[k].(values := values));
      }
    }

    method RevertRow(row: Row)
      requires Valid()
      modifies this`rows, this`order
      ensures Valid() && (old(Clean()) ==> Clean())
      ensures Marks() == old(Marks()) - {Key(row)} && Kept(old(order), order, Key(row))
    {
      Forget(Key(row));
    }

    method Forget(k: string)
      requires Valid()
      modifies this`rows, this`order
      ensures Valid() && (old(Clean()) ==> Clean())
      ensures Marks() == old(Marks()) - {k} && rows == old(rows) - {k} && Kept(old(order), order, k)
    {
      if k !in rows { return; }
      DropSound(|cols|, keyAt, rows, order, k);
      assert k in order;
      hide Sound, MarksOf, Differs;
      rows := rows - {k};
      order := Remove(order, k);
    }

    method Remove(order: seq<string>, k: string) returns (rest: seq<string>)
      requires k in order
      ensures rest == Dropped(order, k)
    {
      hide Dropped;
      var i := 0;
      assert order[..0] + Dropped(order[0..], k) == Dropped(order, k) by { assert order[0..] == order; }
      while order[i] != k
        invariant i < |order| && k in order[i..]
        invariant Dropped(order, k) == order[..i] + Dropped(order[i..], k)
        decreases |order| - i
      {
        DroppedAt(order, i, k);
        assert order[i..] == [order[i]] + order[i + 1..];
        i := i + 1;
      }
      DroppedAt(order, i, k);
      return order[..i] + order[i + 1..];
    }

    lemma NewChange(row: Row)
      ensures NearlyValid(Key(row), Change(Update, KeyOf(keyAt, row), row, map[]))
      ensures Differs(same, Change(Update, KeyOf(keyAt, row), row, map[]))
      ensures MarkOf(Change(Update, KeyOf(keyAt, row), row, map[])) == Edited(map[])
    {
    }

    /** An update, if it has any values. */
    predicate NearlyValid(k: string, c: Change) {
      && c.kind == Update && KeyString(c.key) == k && c.key == KeyOf(keyAt, c.orig)
      && forall at :: at in c.values ==> 0 <= at < |cols|
    }

    /** An update goes on being one with another edit. */
    lemma EditedWell(k: string, c: Change, col: nat, v: Value)
      requires col < |cols| && (NearlyValid(k, c) || (ValidChange(|cols|, keyAt, k, c) && c.kind == Update))
      ensures var d := c.(values := c.values[col := v]);
        && ValidChange(|cols|, keyAt, k, d) && MarkOf(d) == Edited(c.values[col := v])
        && (Differs(same, c) ==> (Differs(same, d) <==> !Holds(c.orig, col, v)))
    {
      hide KeyString, KeyOf;
      assert col in c.values[col := v];
    }

    /** What is known of a change kept. */
    lemma ChangeIs(k: string)
      requires Valid()
      ensures k in rows ==> ValidChange(|cols|, keyAt, k, rows[k])
      ensures k in Marks() <==> k in rows
      ensures k in rows ==> Marks()[k] == MarkOf(rows[k])
    {
    }

    method RevertAll()
      requires Valid()
      modifies this
      ensures Valid() && Clean() && Marks() == map[] && added == []
    {
      rows, order, added := map[], [], [];
    }

    /** How a row read stands. */
    method State(row: Row) returns (s: Standing)
      requires Valid()
      ensures s == Stands(Marks(), Key(row))
    {
      if |rows| == 0 { return Unchanged; }
      var k := Key(row);
      if k !in rows { return Unchanged; }
      if rows[k].kind == Delete { return Gone; }
      return Modified;
    }

    /** What is pending for one cell. */
    method CellValue(row: Row, col: int) returns (v: Option<Value>)
      requires Valid()
      ensures v == Pends(Marks(), Key(row), col)
    {
      if |rows| == 0 { return None; }
      var k := Key(row);
      if k !in rows { return None; }
      return if col in rows[k].values then Some(rows[k].values[col]) else None;
    }

    method Add() returns (i: nat)
      requires Valid()
      modifies this`added
      ensures Valid() && i == |old(added)| && added == old(added) + [map[]]
    {
      added := added + [map[]];
      return |added| - 1;
    }

    method SetAdded(i: int, col: int, v: Value) returns (r: Result)
      requires Valid()
      modifies this`added
      ensures Valid()
      ensures r == if !(0 <= i < |old(added)|) then Err(NoNewRow) else if !(0 <= col < |cols|) then Err(NoColumn) else Ok
      ensures added == if r == Ok then old(added)[i := old(added)[i][col := v]] else old(added)
    {
      if i < 0 || i >= |added| { return Err(NoNewRow); }
      if col < 0 || col >= |cols| { return Err(NoColumn); }
      added := added[i := added[i][col := v]];
      return Ok;
    }

    method UnsetAdded(i: int, col: int)
      requires Valid()
      modifies this`added
      ensures Valid()
      ensures added == if 0 <= i < |old(added)| then old(added)[i := old(added)[i] - {col}] else old(added)
    {
      if 0 <= i < |added| { added := added[i := added[i] - {col}]; }
    }

    method RemoveAdded(i: int)
      requires Valid()
      modifies this`added
      ensures Valid()
      ensures added == if 0 <= i < |old(added)| then old(added)[..i] + old(added)[i + 1..] else old(added)
    {
      if 0 <= i < |added| { added := added[..i] + added[i + 1..]; }
    }

    /** A copy of a row as the grid shows it, its key left for the server to give. */
    method Duplicate(row: Row) returns (i: nat)
      requires Valid()
      modifies this`added
      ensures Valid() && i == |old(added)| && |added| == i + 1 && added[..i] == old(added)
      ensures forall c :: c in added[i] <==> 0 <= c < |cols| && c < |row| && c !in keyAt && Overlaid(Marks(), Key(row), row, c) != DEFAULT
      ensures forall c :: c in added[i] ==> added[i][c] == Overlaid(Marks(), Key(row), row, c)
    {
      hide Sound, KeyString, KeyOf, MarksOf, Pends;
      i := Add();
      ghost var was, m, k := added[..i], Marks(), Key(row);
      for col := 0 to |cols|
        invariant Valid() && |added| == i + 1 && added[..i] == was && Marks() == m
        invariant forall c :: c in added[i] <==> 0 <= c < col && c < |row| && c !in keyAt && Overlaid(m, k, row, c) != DEFAULT
        invariant forall c :: c in added[i] ==> added[i][c] == Overlaid(m, k, row, c)
      {
        if col >= |row| || col in keyAt { continue; }
        var v := row[col];
        var nv := CellValue(row, col);
        if nv.Some? { v := nv.value; }
        assert v == Overlaid(m, k, row, col);
        if v != DEFAULT { added := added[i := added[i][col := v]]; }
      }
    }

    /** The rows that are to be inserted. */
    method Added() returns (out: seq<Row>)
      requires Valid()
      ensures out == NewRows(added, |cols|)
      ensures |out| == |added| && forall i :: 0 <= i < |added| ==>
                |out[i]| == |cols| && forall c :: 0 <= c < |cols| ==> out[i][c] == if c in added[i] then added[i][c] else DEFAULT
    {
      NewRowsAre(added, |cols|);
      out := [];
      for i := 0 to |added|
        invariant out == NewRows(added[..i], |cols|)
      {
        assert added[..i + 1][..i] == added[..i];
        out := out + [NewRow(added[i], |cols|)];
      }
      assert added[..|added|] == added;
    }

    /** Values by stored name. Nothing says in which order they are gone through. */
    method Name(values: map<int, Value>) returns (named: map<string, Value>)
      requires Within(|cols|, values)
      ensures NamedAs(cols, values, named)
    {
      named := map[];
      var left := values.Keys;
      while left != {}
        invariant left <= values.Keys
        invariant forall c :: c in values && c !in left ==> cols[c] in named
        invariant forall n :: n in named ==> exists c :: c in values && cols[c] == n && named[n] == values[c]
        decreases |left|
      {
        assert (forall c :: c !in left) ==> left == {};
        var c: int :| c in left;
        named := named[cols[c] := values[c]];
        left := left - {c};
      }
    }

    /** The changes, for the source to write: those to rows read, and the new rows. */
    method Changeset() returns (changes: seq<RowChange>)
      requires Valid()
      ensures |changes| == |order| + |added|
      ensures ChangesFrom(cols, rows, order, changes[..|order|]) && InsertsFrom(cols, added, changes[|order|..])
    {
      changes := [];
      for i := 0 to |order|
        invariant |changes| == i && forall k :: 0 <= k < i ==> order[k] in rows && ChangeFrom(cols, rows[order[k]], changes[k])
      {
        var c := rows[order[i]];
        assert ValidChange(|cols|, keyAt, order[i], c);
        var named := Name(c.values);
        changes := changes + [RowChange(c.kind, c.key, named)];
      }
      ghost var sofar := changes;
      for i := 0 to |added|
        invariant |changes| == |order| + i && changes[..|order|] == sofar
        invariant forall k :: 0 <= k < i ==> InsertFrom(cols, added[k], changes[|order| + k])
      {
        var named := Name(added[i]);
        changes := changes + [RowChange(Insert, [], named)];
      }
    }
  }

  function Identical(a: Value, b: Value): bool { a == b }

  /** A row read again after somebody else has changed it is compared as it is
      then, so an edit can be kept that sets what was read at first. */
  method ReadAgain() returns (p: Pending)
    ensures p.Valid() && !p.Clean()
  {
    var k, a, b, c := Value("int", "1"), Value("s", "a"), Value("s", "b"), Value("s", "c");
    assert a.text[0] != b.text[0] && b.text[0] != c.text[0] && a.text[0] != c.text[0];
    p := new Pending(["id", "name"], [0], Identical);
    var first, again := [k, a], [k, b];
    assert KeyOf([0], first) == [k] == KeyOf([0], again);
    hide KeyOf, KeyString, Sound, MarksOf;
    var key := p.Key(first);
    assert p.Key(again) == key;
    var r := p.Set(first, 1, c);
    assert p.Marks() == Marked(map[], key, 1, c);
    p.ChangeIs(key);
    r := p.Set(again, 1, a);
    p.ChangeIs(key);
    assert p.rows[key].orig == first && 1 in p.rows[key].values && p.rows[key].values[1] == a;
  }

  function Stands(m: Marks, k: string): Standing {
    if k !in m then Unchanged else if m[k].Deleted? then Gone else Modified
  }

  function Pends(m: Marks, k: string, col: int): Option<Value> {
    if col in Edits(m, k) then Some(Edits(m, k)[col]) else None
  }

  function Overlaid(m: Marks, k: string, row: Row, col: int): Value
    requires 0 <= col < |row|
  {
    if Pends(m, k, col).Some? then Pends(m, k, col).value else row[col]
  }

  /** A cell set shows what it was set to, or what was read where that is the same;
      every other cell, of this row and of any other, shows what it did. */
  lemma SetShows(same: (Value, Value) -> bool, m: Marks, k: string, row: Row, col: int, v: Value, k2: string, row2: Row, c: int)
    requires 0 <= col < |row| && 0 <= c < |row2| && !(k in m && m[k].Deleted?)
    ensures var after := if same(row[col], v) then Cleared(m, k, col) else Marked(m, k, col, v);
      && Overlaid(after, k, row, col) == (if same(row[col], v) then row[col] else v)
      && (k2 != k || c != col ==> Overlaid(after, k2, row2, c) == Overlaid(m, k2, row2, c))
      && (k2 != k ==> Stands(after, k2) == Stands(m, k2))
      && Stands(after, k) != Gone
  {
  }

  /** With its last edit undone a row is as it was read. */
  lemma ClearedShows(m: Marks, k: string, col: int)
    requires k in m && m[k].Edited? && m[k].values.Keys == {col}
    ensures Stands(Cleared(m, k, col), k) == Unchanged
  {
  }

  function NewRow(values: map<int, Value>, n: nat): Row { seq(n, i requires 0 <= i < n => if i in values then values[i] else DEFAULT) }

  function NewRows(added: seq<map<int, Value>>, n: nat): seq<Row> {
    if added == [] then [] else NewRows(added[..|added| - 1], n) + [NewRow(added[|added| - 1], n)]
  }

  lemma {:induction false} NewRowsAre(added: seq<map<int, Value>>, n: nat)
    ensures |NewRows(added, n)| == |added| && forall i :: 0 <= i < |added| ==> NewRows(added, n)[i] == NewRow(added[i], n)
  {
    if added != [] { NewRowsAre(added[..|added| - 1], n); }
  }
}
