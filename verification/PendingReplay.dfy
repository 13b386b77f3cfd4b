/** What writing a changeset would make of the rows read is what the grid shows of
    them (internal/app/pending.go:167-315). */
module PendingReplay {
  import opened Pending

  // ----- what a writer does with a change

  function Assigned(cols: seq<string>, row: Row, values: map<string, Value>): Row {
    seq(|row|, i requires 0 <= i < |row| => if i < |cols| && cols[i] in values then values[cols[i]] else row[i])
  }

  /** What becomes of one row: a change is to every row that has its key. */
  function Written(cols: seq<string>, keyAt: seq<nat>, row: Row, c: RowChange): seq<Row> {
    if c.kind == Insert || KeyOf(keyAt, row) != c.key then [row]
    else if c.kind == Delete then [] else [Assigned(cols, row, c.values)]
  }

  function WrittenAll(cols: seq<string>, keyAt: seq<nat>, table: seq<Row>, c: RowChange): seq<Row> {
    if table == [] then []
    else WrittenAll(cols, keyAt, table[..|table| - 1], c) + Written(cols, keyAt, table[|table| - 1], c)
  }

  function Blank(n: nat): Row { seq(n, i => DEFAULT) }

  function Done(cols: seq<string>, keyAt: seq<nat>, table: seq<Row>, c: RowChange): seq<Row> {
    WrittenAll(cols, keyAt, table, c) + if c.kind == Insert then [Assigned(cols, Blank(|cols|), c.values)] else []
  }

  function Replay(cols: seq<string>, keyAt: seq<nat>, table: seq<Row>, cs: seq<RowChange>): seq<Row> {
    if cs == [] then table
    else Done(cols, keyAt, Replay(cols, keyAt, table, cs[..|cs| - 1]), cs[|cs| - 1])
  }

  // ----- what the grid shows

  function ShownRow(m: Marks, k: string, row: Row): Row {
    seq(|row|, i requires 0 <= i < |row| => Overlaid(m, k, row, i))
  }

  /** A row as it stands: gone, or with its pending values over it. */
  function Shown(keyAt: seq<nat>, m: Marks, row: Row): seq<Row> {
    var k := KeyString(KeyOf(keyAt, row));
    if Stands(m, k) == Gone then [] else [ShownRow(m, k, row)]
  }

  function ShownAll(keyAt: seq<nat>, m: Marks, table: seq<Row>): seq<Row> {
    if table == [] then [] else ShownAll(keyAt, m, table[..|table| - 1]) + Shown(keyAt, m, table[|table| - 1])
  }

  /** The rows with some of the changes written. */
  function Part(keyAt: seq<nat>, m: Marks, done: seq<string>, row: Row): seq<Row> {
    if KeyString(KeyOf(keyAt, row)) in done then Shown(keyAt, m, row) else [row]
  }

  function PartAll(keyAt: seq<nat>, m: Marks, done: seq<string>, table: seq<Row>): seq<Row> {
    if table == [] then [] else PartAll(keyAt, m, done, table[..|table| - 1]) + Part(keyAt, m, done, table[|table| - 1])
  }

  // ----- one change

  /** A row with its edits over it. */
  function Overlay(values: map<int, Value>, row: Row): Row {
    seq(|row|, i requires 0 <= i < |row| => if i in values then values[i] else row[i])
  }

  /** Every column stored under a name that is edited shows what the edit says: two
      edits under one name agree, and no column left unedited differs from one. */
  predicate Agreed(cols: seq<string>, values: map<int, Value>, row: Row)
    requires |row| == |cols| && Within(|cols|, values)
  {
    forall c, i :: c in values && 0 <= i < |cols| && cols[i] == cols[c] ==> Overlay(values, row)[i] == values[c]
  }

  /** What is written of a row is what is shown of it exactly when they agree,
      whichever of its values was left under each name. */
  lemma AssignedIs(cols: seq<string>, row: Row, values: map<int, Value>, named: map<string, Value>)
    requires |row| == |cols| && Within(|cols|, values) && NamedAs(cols, values, named)
    ensures Assigned(cols, row, named) == Overlay(values, row) <==> Agreed(cols, values, row)
  {
    var got, shown := Assigned(cols, row, named), Overlay(values, row);
    if Agreed(cols, values, row) {
      forall i | 0 <= i < |cols| ensures got[i] == shown[i] {
        if cols[i] in named {
          var c :| c in values && cols[c] == cols[i] && named[cols[i]] == values[c];
        } else {
          assert i !in values;
        }
      }
    }
    if got == shown {
      forall c, i | c in values && 0 <= i < |cols| && cols[i] == cols[c] ensures shown[i] == values[c] {
        assert got[i] == named[cols[c]] == got[c] == shown[c];
      }
    }
  }

  /** The edits themselves are written as they were made exactly when no two of
      them are stored under one name and differ. */
  lemma EditsCome(cols: seq<string>, row: Row, values: map<int, Value>, named: map<string, Value>)
    requires |row| == |cols| && Within(|cols|, values) && NamedAs(cols, values, named)
    ensures (forall c :: c in values ==> Assigned(cols, row, named)[c] == values[c])
      <==> forall c, d :: c in values && d in values && cols[c] == cols[d] ==> values[c] == values[d]
  {
    var got := Assigned(cols, row, named);
    if forall c, d :: c in values && d in values && cols[c] == cols[d] ==> values[c] == values[d] {
      forall c | c in values ensures got[c] == values[c] {
        var d :| d in values && cols[d] == cols[c] && named[cols[c]] == values[d];
      }
    }
    if forall c :: c in values ==> got[c] == values[c] {
      forall c, d | c in values && d in values && cols[c] == cols[d] ensures values[c] == values[d] {
        assert got[c] == named[cols[c]] == got[d];
      }
    }
  }

  lemma AssignedShows(cols: seq<string>, m: Marks, k: string, row: Row, named: map<string, Value>)
    requires |row| == |cols| && k in m && m[k].Edited? && Within(|cols|, m[k].values)
    requires NamedAs(cols, m[k].values, named)
    ensures Assigned(cols, row, named) == ShownRow(m, k, row) <==> Agreed(cols, m[k].values, row)
  {
    AssignedIs(cols, row, m[k].values, named);
    assert ShownRow(m, k, row) == Overlay(m[k].values, row);
  }

  lemma {:induction false} WrittenBoth(cols: seq<string>, keyAt: seq<nat>, a: seq<Row>, b: seq<Row>, c: RowChange)
    ensures WrittenAll(cols, keyAt, a + b, c) == WrittenAll(cols, keyAt, a, c) + WrittenAll(cols, keyAt, b, c)
  {
    if b == [] {
      assert a + b == a;
    } else {
      assert (a + b)[..|a + b| - 1] == a + b[..|b| - 1];
      WrittenBoth(cols, keyAt, a, b[..|b| - 1], c);
    }
  }

  lemma WrittenOne(cols: seq<string>, keyAt: seq<nat>, row: Row, c: RowChange)
    ensures WrittenAll(cols, keyAt, [row], c) == Written(cols, keyAt, row, c)
  {
    assert [row][..0] == [];
  }

  /** The rows read: whole, and told apart by plain keys. */
  ghost predicate Read(n: nat, keyAt: seq<nat>, table: seq<Row>) {
    forall i :: 0 <= i < |table| ==> |table[i]| == n && AllPlain(KeyOf(keyAt, table[i]))
  }

  /** Changes sound and by plain keys. */
  ghost predicate Pends(n: nat, keyAt: seq<nat>, rows: map<string, Change>, order: seq<string>) {
    Sound(n, keyAt, rows, order) && forall k :: k in order ==> AllPlain(rows[k].key)
  }

  /** A change suits a row: if it is the row's own its edits agree, and if the row
      has by then been given the key it is to, it leaves the row as it is shown. */
  ghost predicate Suits(cols: seq<string>, keyAt: seq<nat>, rows: map<string, Change>, order: seq<string>, j: nat, row: Row, w: RowChange)
    requires j < |order|
  {
    var k, m := KeyString(KeyOf(keyAt, row)), MarksOf(rows);
    && |row| == |cols|
    && (k == order[j] && k in m && m[k].Edited? ==> Within(|cols|, m[k].values) && Agreed(cols, m[k].values, row))
    && (k in order[..j] ==> Leaves(cols, keyAt, m, k, row, w))
  }

  ghost predicate Leaves(cols: seq<string>, keyAt: seq<nat>, m: Marks, k: string, row: Row, w: RowChange) {
    Stands(m, k) != Gone && KeyOf(keyAt, ShownRow(m, k, row)) == w.key ==>
      w.kind != Delete && Assigned(cols, ShownRow(m, k, row), w.values) == ShownRow(m, k, row)
  }

  /** Writing the next change does to a row what is left to do to it, if that is
      the row it is to, and otherwise nothing, exactly when it suits the row. It
      never leaves more of it. */
  lemma PartGoesOn(cols: seq<string>, keyAt: seq<nat>, rows: map<string, Change>, order: seq<string>, j: nat, row: Row, w: RowChange)
    requires Pends(|cols|, keyAt, rows, order) && j < |order| && order[j] in rows && ChangeFrom(cols, rows[order[j]], w)
    requires |row| == |cols| && AllPlain(KeyOf(keyAt, row))
    ensures var m := MarksOf(rows); var got := WrittenAll(cols, keyAt, Part(keyAt, m, order[..j], row), w);
      && |got| <= |Part(keyAt, m, order[..j + 1], row)|
      && (got == Part(keyAt, m, order[..j + 1], row) <==> Suits(cols, keyAt, rows, order, j, row, w))
  {
    var k, m := KeyString(KeyOf(keyAt, row)), MarksOf(rows);
    var c := rows[order[j]];
    assert order[j] in order && ValidChange(|cols|, keyAt, order[j], c);
    assert order[..j + 1] == order[..j] + [order[j]];
    if k == order[j] {
      KeyStringApart(KeyOf(keyAt, row), c.key);
      assert k !in order[..j] by { assert Distinct(order); }
      WrittenOne(cols, keyAt, row, w);
      hide Pends, KeyString, KeyOf, WrittenAll, NamedAs, Agreed, Leaves;
      if c.kind == Update { AssignedShows(cols, m, k, row, w.values); }
    } else if k in order[..j] {
      hide Pends, KeyString, KeyOf, WrittenAll, NamedAs;
      if Stands(m, k) != Gone { WrittenOne(cols, keyAt, ShownRow(m, k, row), w); } else { WrittenNone(cols, keyAt, w); }
    } else {
      hide Pends, KeyString, WrittenAll, NamedAs, Shown, Leaves;
      WrittenOne(cols, keyAt, row, w);
    }
  }

  lemma WrittenNone(cols: seq<string>, keyAt: seq<nat>, w: RowChange)
    ensures WrittenAll(cols, keyAt, [], w) == []
  {
  }

  ghost predicate AllSuit(cols: seq<string>, keyAt: seq<nat>, rows: map<string, Change>, order: seq<string>, j: nat, table: seq<Row>, w: RowChange)
    requires j < |order|
  {
    forall t :: 0 <= t < |table| ==> Suits(cols, keyAt, rows, order, j, table[t], w)
  }

  /** And to the table, exactly when it suits every row of it. */
  lemma {:induction false} AllGoOn(cols: seq<string>, keyAt: seq<nat>, rows: map<string, Change>, order: seq<string>, j: nat, table: seq<Row>, w: RowChange)
    requires Pends(|cols|, keyAt, rows, order) && j < |order| && order[j] in rows && ChangeFrom(cols, rows[order[j]], w)
    requires Read(|cols|, keyAt, table)
    ensures var m := MarksOf(rows); var got := WrittenAll(cols, keyAt, PartAll(keyAt, m, order[..j], table), w);
      && |got| <= |PartAll(keyAt, m, order[..j + 1], table)|
      && (got == PartAll(keyAt, m, order[..j + 1], table) <==> AllSuit(cols, keyAt, rows, order, j, table, w))
    decreases |table|
  {
    if table != [] {
      var init, row, m := table[..|table| - 1], table[|table| - 1], MarksOf(rows);
      var last, part := Part(keyAt, m, order[..j], row), Part(keyAt, m, order[..j + 1], row);
      ReadLess(|cols|, keyAt, table);
      SuitLess(cols, keyAt, rows, order, j, table, w);
      PartLess(keyAt, m, order[..j], table);
      PartLess(keyAt, m, order[..j + 1], table);
      hide Pends, AllSuit, Suits, Part, PartAll, MarksOf, ChangeFrom, Written, WrittenAll, Read;
      AllGoOn(cols, keyAt, rows, order, j, init, w);
      PartGoesOn(cols, keyAt, rows, order, j, row, w);
      WrittenBoth(cols, keyAt, PartAll(keyAt, m, order[..j], init), last, w);
      SameEnds(WrittenAll(cols, keyAt, PartAll(keyAt, m, order[..j], init), w), WrittenAll(cols, keyAt, last, w),
               PartAll(keyAt, m, order[..j + 1], init), part);
    } else {
      hide Pends, MarksOf, ChangeFrom, Read;
    }
  }

  lemma ReadLess(n: nat, keyAt: seq<nat>, table: seq<Row>)
    requires Read(n, keyAt, table) && table != []
    ensures var row := table[|table| - 1]; |row| == n && AllPlain(KeyOf(keyAt, row)) && Read(n, keyAt, table[..|table| - 1])
  {
  }

  lemma SuitLess(cols: seq<string>, keyAt: seq<nat>, rows: map<string, Change>, order: seq<string>, j: nat, table: seq<Row>, w: RowChange)
    requires j < |order| && table != []
    ensures AllSuit(cols, keyAt, rows, order, j, table, w)
      <==> AllSuit(cols, keyAt, rows, order, j, table[..|table| - 1], w) && Suits(cols, keyAt, rows, order, j, table[|table| - 1], w)
  {
    hide Suits;
  }

  lemma PartLess(keyAt: seq<nat>, m: Marks, done: seq<string>, table: seq<Row>)
    requires table != []
    ensures PartAll(keyAt, m, done, table) == PartAll(keyAt, m, done, table[..|table| - 1]) + Part(keyAt, m, done, table[|table| - 1])
  {
  }

  lemma SameEnds<T>(a: seq<T>, b: seq<T>, c: seq<T>, d: seq<T>)
    requires |a| <= |c| && |b| <= |d|
    ensures a + b == c + d <==> a == c && b == d
  {
    if a + b == c + d {
      assert |a + b| == |c + d|;
      assert a == (a + b)[..|a|] && b == (a + b)[|a|..];
    }
  }

  // ----- all of them

  lemma {:induction false} PartNothing(keyAt: seq<nat>, m: Marks, table: seq<Row>)
    ensures PartAll(keyAt, m, [], table) == table
  {
    if table != [] {
      PartNothing(keyAt, m, table[..|table| - 1]);
      assert table == table[..|table| - 1] + [table[|table| - 1]];
    }
  }

  lemma {:induction false} PartEverything(keyAt: seq<nat>, m: Marks, order: seq<string>, table: seq<Row>)
    requires forall k :: k in order <==> k in m
    ensures PartAll(keyAt, m, order, table) == ShownAll(keyAt, m, table)
  {
    if table != [] {
      PartEverything(keyAt, m, order, table[..|table| - 1]);
      var row := table[|table| - 1];
      var k := KeyString(KeyOf(keyAt, row));
      if k !in order { assert ShownRow(m, k, row) == row; }
    }
  }

  /** After so many changes the rows are as they are shown, as far as those go. */
  ghost predicate Follows(cols: seq<string>, keyAt: seq<nat>, rows: map<string, Change>, order: seq<string>, j: nat, table: seq<Row>, changes: seq<RowChange>)
    requires j <= |order| == |changes|
  {
    Replay(cols, keyAt, table, changes[..j]) == PartAll(keyAt, MarksOf(rows), order[..j], table)
  }

  /** Change after change, they are exactly when each change suits every row. */
  lemma {:induction false} ReplayReads(cols: seq<string>, keyAt: seq<nat>, rows: map<string, Change>, order: seq<string>, j: nat, table: seq<Row>, changes: seq<RowChange>)
    requires Pends(|cols|, keyAt, rows, order) && j <= |order| && ChangesFrom(cols, rows, order, changes)
    requires Read(|cols|, keyAt, table)
    ensures |changes| == |order|
    ensures (forall i: nat :: i <= j ==> Follows(cols, keyAt, rows, order, i, table, changes))
      <==> forall i: nat :: i < j ==> AllSuit(cols, keyAt, rows, order, i, table, changes[i])
    decreases j
  {
    hide Pends, AllSuit, Part, MarksOf, Read;
    if j == 0 {
      PartNothing(keyAt, MarksOf(rows), table);
      assert changes[..0] == [] && order[..0] == [];
    } else {
      ReplayReads(cols, keyAt, rows, order, j - 1, table, changes);
      assert ChangeFrom(cols, rows[order[j - 1]], changes[j - 1]);
      FollowsOn(cols, keyAt, rows, order, j - 1, table, changes);
      hide Follows;
    }
  }

  lemma FollowsOn(cols: seq<string>, keyAt: seq<nat>, rows: map<string, Change>, order: seq<string>, j: nat, table: seq<Row>, changes: seq<RowChange>)
    requires Pends(|cols|, keyAt, rows, order) && j < |order| == |changes| && order[j] in rows && ChangeFrom(cols, rows[order[j]], changes[j])
    requires Read(|cols|, keyAt, table)
    ensures Follows(cols, keyAt, rows, order, j, table, changes) ==>
      (Follows(cols, keyAt, rows, order, j + 1, table, changes) <==> AllSuit(cols, keyAt, rows, order, j, table, changes[j]))
  {
    NotInsert(|cols|, keyAt, rows, order, j);
    assert changes[j].kind != Insert;
    hide Pends, Read, AllSuit, ChangeFrom, MarksOf, PartAll, WrittenAll, Replay;
    AllGoOn(cols, keyAt, rows, order, j, table, changes[j]);
    ReplayNext(cols, keyAt, table, changes, j);
  }

  lemma ReplayNext(cols: seq<string>, keyAt: seq<nat>, table: seq<Row>, changes: seq<RowChange>, j: nat)
    requires j < |changes| && changes[j].kind != Insert
    ensures Replay(cols, keyAt, table, changes[..j + 1]) == WrittenAll(cols, keyAt, Replay(cols, keyAt, table, changes[..j]), changes[j])
  {
    assert changes[..j + 1] == changes[..j] + [changes[j]];
    ReplayOne(cols, keyAt, table, changes[..j], changes[j]);
    hide Replay, WrittenAll;
  }

  /** What a caller can look at before it has a changeset: no edit gives a row the
      key that a later change is to, and the row's edits agree. */
  ghost predicate Clear(cols: seq<string>, keyAt: seq<nat>, rows: map<string, Change>, order: seq<string>, row: Row) {
    var k, m := KeyString(KeyOf(keyAt, row)), MarksOf(rows);
    && |row| == |cols|
    && (k in m && m[k].Edited? ==> Within(|cols|, m[k].values) && Agreed(cols, m[k].values, row))
    && forall i, j :: 0 <= i < j < |order| && order[i] == k && order[j] in rows
         ==> KeyOf(keyAt, ShownRow(m, k, row)) != rows[order[j]].key
  }

  /** Then every change suits it. */
  lemma ClearSuits(cols: seq<string>, keyAt: seq<nat>, rows: map<string, Change>, order: seq<string>, j: nat, row: Row, w: RowChange)
    requires j < |order| && order[j] in rows && w.key == rows[order[j]].key && Clear(cols, keyAt, rows, order, row)
    ensures Suits(cols, keyAt, rows, order, j, row, w)
  {
  }

  lemma NotInsert(n: nat, keyAt: seq<nat>, rows: map<string, Change>, order: seq<string>, j: nat)
    requires Pends(n, keyAt, rows, order) && j < |order|
    ensures order[j] in rows && rows[order[j]].kind != Insert
  {
    assert order[j] in order && ValidChange(n, keyAt, order[j], rows[order[j]]);
  }

  lemma ReplayOne(cols: seq<string>, keyAt: seq<nat>, table: seq<Row>, cs: seq<RowChange>, c: RowChange)
    ensures Replay(cols, keyAt, table, cs + [c]) == Done(cols, keyAt, Replay(cols, keyAt, table, cs), c)
  {
    assert (cs + [c])[..|cs|] == cs;
  }

  lemma {:induction false} InsertsLeave(cols: seq<string>, keyAt: seq<nat>, table: seq<Row>, c: RowChange)
    requires c.kind == Insert
    ensures WrittenAll(cols, keyAt, table, c) == table
  {
    if table != [] {
      InsertsLeave(cols, keyAt, table[..|table| - 1], c);
      assert table == table[..|table| - 1] + [table[|table| - 1]];
    }
  }

  /** A new row is written as it is shown exactly when its values agree. */
  lemma InsertedRow(cols: seq<string>, values: map<int, Value>, named: map<string, Value>)
    requires Within(|cols|, values) && NamedAs(cols, values, named)
    ensures Assigned(cols, Blank(|cols|), named) == NewRow(values, |cols|) <==> Agreed(cols, values, Blank(|cols|))
  {
    AssignedIs(cols, Blank(|cols|), values, named);
    assert NewRow(values, |cols|) == Overlay(values, Blank(|cols|));
  }

  /** The new rows' values agree. */
  ghost predicate AddedAgreed(cols: seq<string>, added: seq<map<int, Value>>) {
    forall i :: 0 <= i < |added| ==> Within(|cols|, added[i]) && Agreed(cols, added[i], Blank(|cols|))
  }

  lemma InsertsLess(cols: seq<string>, added: seq<map<int, Value>>, inserts: seq<RowChange>)
    requires InsertsFrom(cols, added, inserts) && AddedAgreed(cols, added) && added != []
    ensures |inserts| == |added| && InsertsFrom(cols, added[..|added| - 1], inserts[..|added| - 1])
    ensures AddedAgreed(cols, added[..|added| - 1])
    ensures var c := inserts[|added| - 1];
      c.kind == Insert && Assigned(cols, Blank(|cols|), c.values) == NewRow(added[|added| - 1], |cols|)
  {
    var last, c := added[|added| - 1], inserts[|added| - 1];
    assert InsertFrom(cols, last, c);
    InsertedRow(cols, last, c.values);
  }

  lemma {:induction false} ReplayInserts(cols: seq<string>, keyAt: seq<nat>, table: seq<Row>, cs: seq<RowChange>,
                                         added: seq<map<int, Value>>, inserts: seq<RowChange>)
    requires InsertsFrom(cols, added, inserts) && AddedAgreed(cols, added)
    ensures Replay(cols, keyAt, table, cs + inserts) == Replay(cols, keyAt, table, cs) + NewRows(added, |cols|)
    decreases |added|
  {
    if added == [] {
      assert cs + inserts == cs;
      assert Replay(cols, keyAt, table, cs) + [] == Replay(cols, keyAt, table, cs);
    } else {
      NewRowsLess(added, |cols|);
      InsertsLess(cols, added, inserts);
      var init, last, before := added[..|added| - 1], added[|added| - 1], inserts[..|added| - 1];
      hide Replay, NewRow, NewRows, Assigned, Blank, InsertsFrom, AddedAgreed;
      ReplayInserts(cols, keyAt, table, cs, init, before);
      InsertedLast(cols, keyAt, table, cs, inserts);
      Grouped(Replay(cols, keyAt, table, cs), NewRows(init, |cols|), [NewRow(last, |cols|)]);
    }
  }

  lemma NewRowsLess(added: seq<map<int, Value>>, n: nat)
    requires added != []
    ensures NewRows(added, n) == NewRows(added[..|added| - 1], n) + [NewRow(added[|added| - 1], n)]
  {
    hide NewRow;
  }

  lemma Grouped<T>(a: seq<T>, b: seq<T>, c: seq<T>)
    ensures a + b + c == a + (b + c)
  {
  }

  lemma InsertedLast(cols: seq<string>, keyAt: seq<nat>, table: seq<Row>, cs: seq<RowChange>, inserts: seq<RowChange>)
    requires inserts != [] && inserts[|inserts| - 1].kind == Insert
    ensures Replay(cols, keyAt, table, cs + inserts)
         == Replay(cols, keyAt, table, cs + inserts[..|inserts| - 1]) + [Assigned(cols, Blank(|cols|), inserts[|inserts| - 1].values)]
  {
    var before, c := inserts[..|inserts| - 1], inserts[|inserts| - 1];
    assert cs + inserts == (cs + before) + [c];
    ReplayOne(cols, keyAt, table, cs + before, c);
    InsertsLeave(cols, keyAt, Replay(cols, keyAt, table, cs + before), c);
  }

  /** Writing a changeset over the rows read makes them what State, Value and Added
      show: keys plain, each change suiting every row, and the values under each
      stored name of a new row agreeing. */
  lemma ChangesetShows(cols: seq<string>, keyAt: seq<nat>, rows: map<string, Change>, order: seq<string>,
                       added: seq<map<int, Value>>, table: seq<Row>, edits: seq<RowChange>, inserts: seq<RowChange>)
    requires ChangesFrom(cols, rows, order, edits) && InsertsFrom(cols, added, inserts)
    requires Pends(|cols|, keyAt, rows, order) && Read(|cols|, keyAt, table)
    requires forall j: nat :: j < |order| ==> AllSuit(cols, keyAt, rows, order, j, table, edits[j])
    requires AddedAgreed(cols, added)
    ensures Replay(cols, keyAt, table, edits + inserts) == ShownAll(keyAt, MarksOf(rows), table) + NewRows(added, |cols|)
  {
    hide Pends, AllSuit, Read, Replay, AddedAgreed, InsertsFrom, ChangeFrom;
    EditsShow(cols, keyAt, rows, order, table, edits);
    ReplayInserts(cols, keyAt, table, edits, added, inserts);
  }

  lemma EditsShow(cols: seq<string>, keyAt: seq<nat>, rows: map<string, Change>, order: seq<string>, table: seq<Row>, edits: seq<RowChange>)
    requires ChangesFrom(cols, rows, order, edits) && Pends(|cols|, keyAt, rows, order) && Read(|cols|, keyAt, table)
    requires forall j: nat :: j < |order| ==> AllSuit(cols, keyAt, rows, order, j, table, edits[j])
    ensures Replay(cols, keyAt, table, edits) == ShownAll(keyAt, MarksOf(rows), table)
  {
    MarksAre(|cols|, keyAt, rows, order);
    ReplayReads(cols, keyAt, rows, order, |order|, table, edits);
    assert edits[..|order|] == edits && order[..|order|] == order;
    hide Pends, AllSuit, Part, MarksOf, Read, Replay, ChangeFrom;
    assert Follows(cols, keyAt, rows, order, |order|, table, edits);
    PartEverything(keyAt, MarksOf(rows), order, table);
  }

  /** In particular where every row is clear. */
  lemma ClearShows(cols: seq<string>, keyAt: seq<nat>, rows: map<string, Change>, order: seq<string>,
                   added: seq<map<int, Value>>, table: seq<Row>, edits: seq<RowChange>, inserts: seq<RowChange>)
    requires ChangesFrom(cols, rows, order, edits) && InsertsFrom(cols, added, inserts)
    requires Pends(|cols|, keyAt, rows, order) && Read(|cols|, keyAt, table) && AddedAgreed(cols, added)
    requires forall i :: 0 <= i < |table| ==> Clear(cols, keyAt, rows, order, table[i])
    ensures Replay(cols, keyAt, table, edits + inserts) == ShownAll(keyAt, MarksOf(rows), table) + NewRows(added, |cols|)
  {
    forall j: nat | j < |order| ensures AllSuit(cols, keyAt, rows, order, j, table, edits[j]) {
      NotInsert(|cols|, keyAt, rows, order, j);
      assert ChangeFrom(cols, rows[order[j]], edits[j]);
      hide Suits, Clear, Pends, Read;
      forall t | 0 <= t < |table| ensures Suits(cols, keyAt, rows, order, j, table[t], edits[j]) {
        ClearSuits(cols, keyAt, rows, order, j, table[t], edits[j]);
      }
    }
    hide AllSuit, Clear, Pends, Read, Replay;
    ChangesetShows(cols, keyAt, rows, order, added, table, edits, inserts);
  }

  lemma MarksAre(n: nat, keyAt: seq<nat>, rows: map<string, Change>, order: seq<string>)
    requires Pends(n, keyAt, rows, order)
    ensures forall k :: k in order <==> k in MarksOf(rows)
  {
  }

  lemma ReplayTwo(cols: seq<string>, keyAt: seq<nat>, table: seq<Row>, c: RowChange, d: RowChange)
    ensures Replay(cols, keyAt, table, [c, d]) == Done(cols, keyAt, Done(cols, keyAt, table, c), d)
  {
    assert [] + [c] == [c] && [c] + [d] == [c, d];
    ReplayOne(cols, keyAt, table, [], c);
    ReplayOne(cols, keyAt, table, [c], d);
  }

  /** A row given another's key is lost with it when that one is deleted after:
      edited and deleted so, and the changeset written, nothing is left of either. */
  method KeyTaken() returns (p: Pending, table: seq<Row>, changes: seq<RowChange>)
    ensures p.Valid() && ChangesFrom(p.cols, p.rows, p.order, changes) && p.added == []
    ensures |table| == 2 && |ShownAll(p.keyAt, p.Marks(), table)| == 1
    ensures Replay(p.cols, p.keyAt, table, changes) == []
  {
    var one, two := Value("int", "1"), Value("int", "2");
    assert one.text[0] != two.text[0];
    table := [[one], [two]];
    assert KeyOf([0], [one]) == [one] && KeyOf([0], [two]) == [two];
    OneKey(one, two);
    p := EditThenDelete(["id"], [one], [two], two);
    hide KeyOf, KeyString, Sound, ShownAll, Replay, NamedAs, ChangeFrom;
    changes := p.Changeset();
    assert changes[..2] == changes;
    hide MarksOf, ChangesFrom, InsertsFrom;
    TakenShown(p.Marks(), one, two);
    TakenFrom(p.rows, p.order, one, two, changes);
    TakenReplay(one, two, changes);
  }

  /** A row given another's key, and that other deleted. */
  method EditThenDelete(cols: seq<string>, a: Row, b: Row, v: Value) returns (p: Pending)
    requires |cols| == |a| == 1 && a[0] != v
    requires KeyString(KeyOf([0], a)) != KeyString(KeyOf([0], b))
    ensures p.Valid() && p.cols == cols && p.keyAt == [0] && p.added == []
    ensures var k, l := KeyString(KeyOf([0], a)), KeyString(KeyOf([0], b));
      p.order == [k, l] && p.Marks() == map[k := Edited(map[0 := v]), l := Deleted]
    ensures KeyedBy(p.rows, KeyOf([0], a)) && KeyedBy(p.rows, KeyOf([0], b))
  {
    p := EditFirst(cols, a, 0, v);
    hide KeyOf, KeyString, Sound, MarksOf, Dropped, p.Valid;
    var k, l := p.Key(a), p.Key(b);
    Keyed(p, k);
    Keyed(p, l);
    ghost var was := p.rows;
    assert l !in [k];
    p.DeleteRow(b);
    OneAfter(p, [k], k, l);
    Keyed(p, l);
    StillIn(was, p.rows, k, l);
  }

  lemma OneAfter(p: Pending, before: seq<string>, k: string, l: string)
    requires p.Valid() && before == [k] && k != l && l in p.Marks() && p.Kept(before, p.order, l)
    ensures p.order == [k, l]
  {
    hide Sound, MarksOf;
    Keyed(p, l);
  }

  lemma StillIn(was: map<string, Change>, rows: map<string, Change>, k: string, l: string)
    requires k in was && k != l && rows - {l} == was - {l}
    ensures k in rows && rows[k] == was[k]
  {
    assert k in was - {l};
  }

  /** One cell edited, and nothing else. */
  method EditFirst(cols: seq<string>, row: Row, col: nat, v: Value) returns (p: Pending)
    requires col < |cols| == |row| && row[col] != v
    ensures fresh(p) && p.Valid() && p.cols == cols && p.keyAt == [0] && p.added == [] && p.same == Identical
    ensures var k := KeyString(KeyOf([0], row)); p.order == [k] && p.Marks() == map[k := Edited(map[col := v])]
    ensures KeyedBy(p.rows, KeyOf([0], row))
  {
    p := new Pending(cols, [0], Identical);
    hide KeyOf, KeyString, Sound, MarksOf, Dropped;
    var k := p.Key(row);
    var r := p.Set(row, col, v);
    p.ChangeIs(k);
    InOrder(p.rows, p.order, p.keyAt);
  }

  /** The change kept for this key is to it. */
  ghost predicate KeyedBy(rows: map<string, Change>, key: seq<Value>) { KeyString(key) in rows && rows[KeyString(key)].key == key }

  lemma InOrder(rows: map<string, Change>, order: seq<string>, keyAt: seq<nat>)
    ensures forall n :: Sound(n, keyAt, rows, order) ==> forall k :: k in order <==> k in rows
  {
  }

  lemma OneKey(v: Value, w: Value)
    requires Plain(v) && Plain(w)
    ensures KeyString([v]) == KeyString([w]) ==> v == w
  {
    if KeyString([v]) == KeyString([w]) { KeyStringApart([v], [w]); }
    assert [v] == [w] ==> [v][0] == [w][0];
  }

  /** What a changeset says of them. */
  lemma TakenFrom(rows: map<string, Change>, order: seq<string>, one: Value, two: Value, changes: seq<RowChange>)
    requires Sound(1, [0], rows, order) && order == [KeyString([one]), KeyString([two])]
    requires MarksOf(rows) == map[KeyString([one]) := Edited(map[0 := two]), KeyString([two]) := Deleted]
    requires Plain(one) && Plain(two) && one != two && ChangesFrom(["id"], rows, order, changes)
    requires KeyedBy(rows, [one]) && KeyedBy(rows, [two])
    ensures |changes| == 2 && changes[0].kind == Update && changes[1].kind == Delete
    ensures changes[0].key == [one] && changes[1].key == [two]
    ensures changes[0].values == map["id" := two]
  {
    var k, l := KeyString([one]), KeyString([two]);
    OneKey(one, two);
    hide KeyString, KeyOf;
    var m := MarksOf(rows);
    assert m[k] == MarkOf(rows[k]) && m[l] == MarkOf(rows[l]);
    assert order[0] == k && order[1] == l;
    assert ValidChange(1, [0], k, rows[k]) && ValidChange(1, [0], l, rows[l]);
    assert ChangeFrom(["id"], rows[k], changes[0]) && ChangeFrom(["id"], rows[l], changes[1]);
    assert 0 in rows[k].values;
    assert changes[0].values.Keys == {"id"};
  }

  lemma TakenShown(m: Marks, one: Value, two: Value)
    requires one != two && Plain(one) && Plain(two)
    requires var k, l := KeyString([one]), KeyString([two]); k in m && m[k].Edited? && l in m && m[l].Deleted?
    ensures |ShownAll([0], m, [[one], [two]])| == 1
  {
    assert KeyOf([0], [one]) == [one] && KeyOf([0], [two]) == [two];
    var table: seq<Row> := [[one], [two]];
    assert table[..1] == [[one]] && table[..1][..0] == [] && table[1] == [two] && table[..1][0] == [one];
    assert ShownAll([0], m, table) == ShownAll([0], m, table[..1]) + Shown([0], m, [two]);
    assert ShownAll([0], m, table[..1]) == ShownAll([0], m, []) + Shown([0], m, [one]);
  }

  lemma TakenReplay(one: Value, two: Value, changes: seq<RowChange>)
    requires one != two && |changes| == 2 && changes[0].kind == Update && changes[1].kind == Delete
    requires changes[0].key == [one] && changes[1].key == [two] && changes[0].values == map["id" := two]
    ensures Replay(["id"], [0], [[one], [two]], changes) == []
  {
    var cols, keyAt := ["id"], [0];
    assert KeyOf(keyAt, [one]) == [one] && KeyOf(keyAt, [two]) == [two];
    assert [one][0] != [two][0];
    assert Assigned(cols, [one], changes[0].values) == [two];
    WrittenTwo(cols, keyAt, [one], [two], changes[0]);
    WrittenTwo(cols, keyAt, [two], [two], changes[1]);
    assert changes == [changes[0], changes[1]];
    ReplayTwo(cols, keyAt, [[one], [two]], changes[0], changes[1]);
    assert Done(cols, keyAt, [[one], [two]], changes[0]) == [[two], [two]];
  }

  /** A query may show one stored column twice. Edited apart, its two values are one
      entry of the changeset, and whichever is left, the row written is not the row
      shown. */
  method SharedName() returns (p: Pending, row: Row, changes: seq<RowChange>)
    ensures p.Valid() && |p.cols| == 3 && p.cols[1] == p.cols[2] && ChangesFrom(p.cols, p.rows, p.order, changes) && p.added == []
    ensures Replay(p.cols, p.keyAt, [row], changes) != ShownAll(p.keyAt, p.Marks(), [row])
  {
    var id, a, b, c := Value("int", "1"), Value("s", "a"), Value("s", "b"), Value("s", "c");
    assert a.text[0] != b.text[0] && b.text[0] != c.text[0] && a.text[0] != c.text[0];
    row := [id, a, a];
    p := EditTwice(["id", "name", "name"], row, b, c);
    changes := p.Changeset();
    hide KeyOf, KeyString, Sound, MarksOf, ShownAll, Replay, NamedAs, ChangeFrom;
    assert changes[..1] == changes;
    var k := KeyString(KeyOf([0], row));
    SharedFrom(p.rows, p.order, row, changes);
    SharedReplay(p.cols, p.Marks(), row, p.rows[k].values, changes[0]);
    assert changes == [changes[0]];
  }

  /** The two columns that show one stored column, edited apart. */
  method EditTwice(cols: seq<string>, row: Row, b: Value, c: Value) returns (p: Pending)
    requires |cols| == |row| == 3 && row[1] != b && row[2] != c
    ensures p.Valid() && p.cols == cols && p.keyAt == [0] && p.added == []
    ensures p.order == [KeyString(KeyOf([0], row))]
    ensures p.Marks() == map[KeyString(KeyOf([0], row)) := Edited(map[1 := b, 2 := c])] && KeyedBy(p.rows, KeyOf([0], row))
  {
    p := EditFirst(cols, row, 1, b);
    hide KeyOf, KeyString, Sound, MarksOf, Dropped;
    var k := p.Key(row);
    DroppedOne(k);
    Twice(k, b, c);
    hide Edits, Cleared, p.Valid;
    var r := p.Set(row, 2, c);
    Keyed(p, k);
    assert p.rows[k].key == KeyOf([0], row);
  }

  lemma DroppedOne(k: string)
    ensures Dropped([k], k) == []
  {
  }

  lemma Twice(k: string, b: Value, c: Value)
    ensures Marked(map[k := Edited(map[1 := b])], k, 2, c) == map[k := Edited(map[1 := b, 2 := c])]
  {
  }

  lemma Keyed(p: Pending, k: string)
    requires p.Valid()
    ensures k in p.rows <==> k in p.order
    ensures k in p.Marks() <==> k in p.rows
    ensures k in p.rows ==> p.rows[k].key == KeyOf(p.keyAt, p.rows[k].orig)
  {
    p.ChangeIs(k);
  }

  lemma SharedFrom(rows: map<string, Change>, order: seq<string>, row: Row, changes: seq<RowChange>)
    requires |row| == 3 && Sound(3, [0], rows, order) && order == [KeyString(KeyOf([0], row))]
    requires order[0] in MarksOf(rows) && MarksOf(rows)[order[0]].Edited?
    requires ChangesFrom(["id", "name", "name"], rows, order, changes) && KeyedBy(rows, KeyOf([0], row))
    ensures order[0] in rows && |changes| == 1 && ChangeFrom(["id", "name", "name"], rows[order[0]], changes[0])
    ensures MarksOf(rows)[order[0]] == Edited(rows[order[0]].values) && changes[0].kind == Update
    ensures changes[0].key == KeyOf([0], row)
  {
    hide KeyString, KeyOf;
    var k := order[0];
    assert ValidChange(3, [0], k, rows[k]);
  }

  lemma SharedReplay(cols: seq<string>, m: Marks, row: Row, values: map<int, Value>, w: RowChange)
    requires |row| == |cols| == 3 && cols[1] == cols[2] && Within(3, values) && NamedAs(cols, values, w.values)
    requires 1 in values && 2 in values && values[1] != values[2] && w.kind == Update && w.key == KeyOf([0], row)
    requires var k := KeyString(KeyOf([0], row)); k in m && m[k] == Edited(values)
    ensures Replay(cols, [0], [row], [w]) != ShownAll([0], m, [row])
  {
    var k := KeyString(KeyOf([0], row));
    AssignedIs(cols, row, values, w.values);
    assert !Agreed(cols, values, row);
    assert ShownRow(m, k, row) == Overlay(values, row);
    hide KeyOf, KeyString, NamedAs, Agreed, Assigned, Overlay;
    assert [] + [w] == [w];
    ReplayOne(cols, [0], [row], [], w);
    WrittenOne(cols, [0], row, w);
    assert [row][..0] == [];
    assert ShownAll([0], m, [row]) == [] + [ShownRow(m, k, row)];
    assert Replay(cols, [0], [row], [w])[0] != ShownAll([0], m, [row])[0];
  }

  lemma WrittenTwo(cols: seq<string>, keyAt: seq<nat>, a: Row, b: Row, c: RowChange)
    ensures WrittenAll(cols, keyAt, [a, b], c) == Written(cols, keyAt, a, c) + Written(cols, keyAt, b, c)
  {
    assert [a] + [b] == [a, b];
    WrittenBoth(cols, keyAt, [a], [b], c);
    WrittenOne(cols, keyAt, a, c);
    WrittenOne(cols, keyAt, b, c);
  }
}
