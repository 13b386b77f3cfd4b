/** What a comparison keeps to (internal/diff): it does not see the order lists
    are in, and nothing differs from itself. */
module DiffLaws {
  import opened Diff

  /** No two of them share a name. */
  ghost predicate Apart<T(!new)>(list: seq<T>, name: T -> string) {
    forall i, j :: 0 <= i < j < |list| ==> name(list[i]) != name(list[j])
  }

  /** The same things in some order, no two sharing a name. */
  ghost predicate Shuffled<T(!new)>(a: seq<T>, b: seq<T>, name: T -> string) {
    Apart(a, name) && Apart(b, name) && forall v :: v in a <==> v in b
  }

  lemma IndexedHolds<T(!new)>(list: seq<T>, name: T -> string, v: T)
    requires Apart(list, name) && v in list
    ensures name(v) in Indexed(list, name) && Indexed(list, name)[name(v)] == v
  {
    var w := Indexed(list, name)[name(v)];
    var i :| 0 <= i < |list| && list[i] == v;
    var j :| 0 <= j < |list| && list[j] == w;
  }

  lemma IndexedShuffled<T(!new)>(a: seq<T>, b: seq<T>, name: T -> string)
    requires Shuffled(a, b, name)
    ensures Indexed(a, name) == Indexed(b, name)
  {
    forall n | n in Indexed(a, name) ensures n in Indexed(b, name) && Indexed(b, name)[n] == Indexed(a, name)[n] {
      IndexedHolds(b, name, Indexed(a, name)[n]);
    }
    forall n | n in Indexed(b, name) ensures n in Indexed(a, name) {
      IndexedHolds(a, name, Indexed(b, name)[n]);
    }
    assert Indexed(a, name).Keys == Indexed(b, name).Keys;
  }

  // ----- models that differ only in order and row estimates

  ghost predicate TableAlike(a: Table, b: Table) {
    && a.name == b.name && a.comment == b.comment && a.attrs == b.attrs && a.primaryKey == b.primaryKey
    && Indexed(a.columns, ColumnName) == Indexed(b.columns, ColumnName)
    && Indexed(a.uniques, UniqueName) == Indexed(b.uniques, UniqueName)
    && Indexed(a.foreignKeys, ForeignKeyName) == Indexed(b.foreignKeys, ForeignKeyName)
    && Indexed(a.checks, CheckName) == Indexed(b.checks, CheckName)
    && Indexed(a.indexes, IndexName) == Indexed(b.indexes, IndexName)
    && Indexed(a.triggers, TriggerName) == Indexed(b.triggers, TriggerName)
  }

  ghost predicate ViewAlike(a: View, b: View) {
    && a.name == b.name && a.materialized == b.materialized && a.definition == b.definition && a.comment == b.comment
    && Indexed(a.columns, ColumnName) == Indexed(b.columns, ColumnName)
    && Indexed(a.indexes, IndexName) == Indexed(b.indexes, IndexName)
  }

  /** The same names, and under each name things alike. */
  ghost predicate AllAlike<T(!new)>(a: map<string, T>, b: map<string, T>, alike: (T, T) -> bool) {
    a.Keys == b.Keys && forall n :: n in a ==> alike(a[n], b[n])
  }

  ghost function TablesAlike(): (Table, Table) -> bool { (a, b) => TableAlike(a, b) }
  ghost function ViewsAlike(): (View, View) -> bool { (a, b) => ViewAlike(a, b) }
  ghost function SchemasAlike(): (Schema, Schema) -> bool { (a, b) => SchemaAlike(a, b) }

  ghost predicate SchemaAlike(a: Schema, b: Schema) {
    && a.name == b.name && a.owner == b.owner && a.comment == b.comment && a.attrs == b.attrs
    && AllAlike(Indexed(a.tables, TableName), Indexed(b.tables, TableName), TablesAlike())
    && AllAlike(Indexed(a.views, ViewName), Indexed(b.views, ViewName), ViewsAlike())
    && Indexed(a.routines, RoutineName) == Indexed(b.routines, RoutineName)
    && Indexed(a.sequences, SequenceName) == Indexed(b.sequences, SequenceName)
    && Indexed(a.userTypes, UserTypeName) == Indexed(b.userTypes, UserTypeName)
  }

  ghost predicate DatabaseAlike(a: Database, b: Database) {
    && a.name == b.name && a.charset == b.charset && a.collate == b.collate && a.comment == b.comment
    && AllAlike(Indexed(a.schemas, SchemaName), Indexed(b.schemas, SchemaName), SchemasAlike())
  }

  lemma {:induction false} MatchedInAlike<T(!new)>(
    names: seq<string>, from: map<string, T>, to: map<string, T>, from2: map<string, T>, to2: map<string, T>,
    kind: T -> Kind, compare: (T, T) -> Node, skip: string -> bool)
    requires forall n :: n in names ==> n in from || n in to
    requires from.Keys == from2.Keys && to.Keys == to2.Keys
    requires forall n :: n in from && n in to ==> compare(from[n], to[n]) == compare(from2[n], to2[n])
    requires forall n :: n in from ==> kind(from[n]) == kind(from2[n])
    requires forall n :: n in to ==> kind(to[n]) == kind(to2[n])
    ensures MatchedIn(names, from, to, kind, compare, skip) == MatchedIn(names, from2, to2, kind, compare, skip)
  {
    if names != [] {
      var last := names[|names| - 1];
      assert last in from.Keys || last in to.Keys;
      MatchedInAlike(names[..|names| - 1], from, to, from2, to2, kind, compare, skip);
    }
  }

  lemma MatchedAlike<T(!new)>(from: seq<T>, to: seq<T>, from2: seq<T>, to2: seq<T>, name: T -> string, kind: T -> Kind,
                              compare: (T, T) -> Node, skip: string -> bool, alike: (T, T) -> bool)
    requires AllAlike(Indexed(from, name), Indexed(from2, name), alike) && AllAlike(Indexed(to, name), Indexed(to2, name), alike)
    requires forall a, b, a2, b2 :: alike(a, a2) && alike(b, b2) ==> compare(a, b) == compare(a2, b2)
    requires forall a, a2 :: alike(a, a2) ==> kind(a) == kind(a2)
    ensures Matched(from, to, name, kind, compare, skip) == Matched(from2, to2, name, kind, compare, skip)
  {
    hide Indexed, Sorted, MatchedIn;
    var here, there, here2, there2 := Indexed(from, name), Indexed(to, name), Indexed(from2, name), Indexed(to2, name);
    forall n | n in here && n in there ensures compare(here[n], there[n]) == compare(here2[n], there2[n]) {
      assert alike(here[n], here2[n]) && alike(there[n], there2[n]);
    }
    MatchedInAlike(Sorted(here.Keys + there.Keys), here, there, here2, there2, kind, compare, skip);
  }

  lemma TableNodesAlike(o: Options, a: Table, b: Table, a2: Table, b2: Table)
    requires TableAlike(a, a2) && TableAlike(b, b2)
    ensures TableNode(o, a, b) == TableNode(o, a2, b2)
  {
  }

  lemma ViewNodesAlike(o: Options, a: View, b: View, a2: View, b2: View)
    requires ViewAlike(a, a2) && ViewAlike(b, b2)
    ensures ViewNode(o, a, b) == ViewNode(o, a2, b2)
  {
  }

  lemma SchemaNodesAlike(o: Options, a: Schema, b: Schema, a2: Schema, b2: Schema)
    requires SchemaAlike(a, a2) && SchemaAlike(b, b2)
    ensures SchemaNode(o, a, b) == SchemaNode(o, a2, b2)
  {
    hide TableNode, ViewNode, TableAlike, ViewAlike, AllAlike, Indexed, Matched;
    forall x, y, x2, y2 | TablesAlike()(x, x2) && TablesAlike()(y, y2) ensures TableBy(o)(x, y) == TableBy(o)(x2, y2) {
      TableNodesAlike(o, x, y, x2, y2);
    }
    forall x, y, x2, y2 | ViewsAlike()(x, x2) && ViewsAlike()(y, y2) ensures ViewBy(o)(x, y) == ViewBy(o)(x2, y2) {
      ViewNodesAlike(o, x, y, x2, y2);
    }
    forall x, x2 | ViewsAlike()(x, x2) ensures KindOfView(x) == KindOfView(x2) { ViewAlikeKind(x, x2); }
    MatchedAlike(a.tables, b.tables, a2.tables, b2.tables, TableName, Fixed(TableKind), TableBy(o), o.skips, TablesAlike());
    MatchedAlike(a.views, b.views, a2.views, b2.views, ViewName, KindOfView, ViewBy(o), o.skips, ViewsAlike());
    SameMatched(a.routines, b.routines, a2.routines, b2.routines, RoutineName, Fixed(RoutineKind), RoutineBy(o), o.skips);
    SameMatched(a.sequences, b.sequences, a2.sequences, b2.sequences, SequenceName, Fixed(SequenceKind), SequenceBy(o), o.skips);
    SameMatched(a.userTypes, b.userTypes, a2.userTypes, b2.userTypes, UserTypeName, Fixed(UserTypeKind), UserTypeBy(o), o.skips);
  }

  lemma ViewAlikeKind(a: View, b: View)
    requires ViewAlike(a, b)
    ensures KindOfView(a) == KindOfView(b)
  {
  }

  lemma SameMatched<T(!new)>(from: seq<T>, to: seq<T>, from2: seq<T>, to2: seq<T>, name: T -> string, kind: T -> Kind,
                             compare: (T, T) -> Node, skip: string -> bool)
    requires Indexed(from, name) == Indexed(from2, name) && Indexed(to, name) == Indexed(to2, name)
    ensures Matched(from, to, name, kind, compare, skip) == Matched(from2, to2, name, kind, compare, skip)
  {
  }

  /** Two databases compare to the same tree in whatever order either lists its
      schemas, their objects and what those are made of, and whatever row
      estimates its tables carry. */
  lemma ComparedAlike(o: Options, from: Database, to: Database, from2: Database, to2: Database)
    requires DatabaseAlike(from, from2) && DatabaseAlike(to, to2)
    ensures Compared(o, from, to) == Compared(o, from2, to2)
  {
    hide SchemaNode, SchemaAlike, Indexed, Matched;
    forall x, y, x2, y2 | SchemasAlike()(x, x2) && SchemasAlike()(y, y2) ensures SchemaBy(o)(x, y) == SchemaBy(o)(x2, y2) {
      SchemaNodesAlike(o, x, y, x2, y2);
    }
    MatchedAlike(from.schemas, to.schemas, from2.schemas, to2.schemas, SchemaName, Fixed(SchemaKind), SchemaBy(o),
                 SkipSchema(o), SchemasAlike());
  }

  // ----- nothing differs from itself

  /** The same, all the way down. */
  ghost predicate AllSame(n: Node) {
    n.status == Same && n.detail == [] && forall c :: c in n.children ==> AllSame(c)
  }

  lemma {:induction false} AttrFieldsSelf(keys: seq<string>, a: Attrs)
    ensures AttrFieldsIn(keys, a, a) == []
  {
    if keys != [] { AttrFieldsSelf(keys[..|keys| - 1], a); }
  }

  lemma {:induction false} MatchedInSelf<T(!new)>(names: seq<string>, m: map<string, T>, kind: T -> Kind, compare: (T, T) -> Node, skip: string -> bool)
    requires forall n :: n in names ==> n in m
    requires forall n :: n in m ==> AllSame(compare(m[n], m[n]))
    ensures forall c :: c in MatchedIn(names, m, m, kind, compare, skip) ==> AllSame(c)
  {
    if names != [] { MatchedInSelf(names[..|names| - 1], m, kind, compare, skip); }
  }

  lemma MatchedSelf<T(!new)>(list: seq<T>, name: T -> string, kind: T -> Kind, compare: (T, T) -> Node, skip: string -> bool)
    requires forall v :: v in list ==> AllSame(compare(v, v))
    ensures forall c :: c in Matched(list, list, name, kind, compare, skip) ==> AllSame(c)
  {
    var m := Indexed(list, name);
    assert m.Keys + m.Keys == m.Keys;
    MatchedInSelf(Sorted(m.Keys), m, kind, compare, skip);
  }

  lemma ColumnSelf(o: Options, c: Column)
    ensures AllSame(ColumnNode(o, c, c))
  {
    AttrFieldsSelf(Sorted(AttrsOf(o, c.attrs).Keys + AttrsOf(o, c.attrs).Keys), AttrsOf(o, c.attrs));
  }

  lemma IndexSelf(o: Options, i: Index)
    ensures AllSame(IndexNode(o, i, i))
  {
    AttrFieldsSelf(Sorted(AttrsOf(o, i.attrs).Keys + AttrsOf(o, i.attrs).Keys), AttrsOf(o, i.attrs));
  }

  lemma ColumnsSelf(o: Options, cs: seq<Column>)
    ensures forall c :: c in Columns(o, cs, cs) ==> AllSame(c)
  {
    forall v | v in cs ensures AllSame(ColumnBy(o)(v, v)) { ColumnSelf(o, v); }
    MatchedSelf(cs, ColumnName, Fixed(ColumnKind), ColumnBy(o), NoSkip());
  }

  lemma IndexesSelf(o: Options, l: seq<Index>)
    ensures forall c :: c in Indexes(o, l, l) ==> AllSame(c)
  {
    forall v | v in l ensures AllSame(IndexBy(o)(v, v)) { IndexSelf(o, v); }
    MatchedSelf(l, IndexName, Fixed(IndexKind), IndexBy(o), NoSkip());
  }

  lemma TableSelf(o: Options, t: Table)
    ensures AllSame(TableNode(o, t, t))
  {
    hide Matched, ColumnNode, IndexNode, Columns, Indexes, AttrFieldsIn, Sorted;
    AttrFieldsSelf(Sorted(AttrsOf(o, t.attrs).Keys + AttrsOf(o, t.attrs).Keys), AttrsOf(o, t.attrs));
    ColumnsSelf(o, t.columns);
    IndexesSelf(o, t.indexes);
    MatchedSelf(AsList(t.primaryKey), PrimaryKeyName, Fixed(PrimaryKeyKind), PrimaryKeyBy(), NoSkip());
    MatchedSelf(t.uniques, UniqueName, Fixed(UniqueKind), UniqueBy(), NoSkip());
    MatchedSelf(t.foreignKeys, ForeignKeyName, Fixed(ForeignKeyKind), ForeignKeyBy(), NoSkip());
    MatchedSelf(t.checks, CheckName, Fixed(CheckKind), CheckBy(o), NoSkip());
    MatchedSelf(t.triggers, TriggerName, Fixed(TriggerKind), TriggerBy(o), NoSkip());
  }

  lemma ViewSelf(o: Options, v: View)
    ensures AllSame(ViewNode(o, v, v))
  {
    hide Matched, ColumnNode, IndexNode, Columns, Indexes;
    ColumnsSelf(o, v.columns);
    IndexesSelf(o, v.indexes);
  }

  lemma SchemaSelf(o: Options, s: Schema)
    ensures AllSame(SchemaNode(o, s, s))
  {
    hide Matched, TableNode, ViewNode, AttrFieldsIn, Sorted;
    AttrFieldsSelf(Sorted(AttrsOf(o, s.attrs).Keys + AttrsOf(o, s.attrs).Keys), AttrsOf(o, s.attrs));
    forall v | v in s.tables ensures AllSame(TableBy(o)(v, v)) { TableSelf(o, v); }
    forall v | v in s.views ensures AllSame(ViewBy(o)(v, v)) { ViewSelf(o, v); }
    MatchedSelf(s.tables, TableName, Fixed(TableKind), TableBy(o), o.skips);
    MatchedSelf(s.views, ViewName, KindOfView, ViewBy(o), o.skips);
    MatchedSelf(s.routines, RoutineName, Fixed(RoutineKind), RoutineBy(o), o.skips);
    MatchedSelf(s.sequences, SequenceName, Fixed(SequenceKind), SequenceBy(o), o.skips);
    MatchedSelf(s.userTypes, UserTypeName, Fixed(UserTypeKind), UserTypeBy(o), o.skips);
  }

  /** A database compared with itself is the same at every node. */
  lemma DatabaseSelf(o: Options, d: Database)
    ensures AllSame(Compared(o, d, d))
  {
    hide Matched, SchemaNode;
    forall v | v in d.schemas ensures AllSame(SchemaBy(o)(v, v)) { SchemaSelf(o, v); }
    MatchedSelf(d.schemas, SchemaName, Fixed(SchemaKind), SchemaBy(o), SkipSchema(o));
  }
}
