/** When two schemas or two databases are the same to a comparison (internal/diff):
    exactly when everything in them that is looked at agrees, name by name. */
module DiffSame {
  import opened Diff
  import opened DiffFields
  import opened DiffLaws
  import opened Sync
  import opened Wrappers

  /** Of every name that is looked at, both have a thing or neither, and the things agree. */
  ghost predicate ListsAgreeBut<T(!new)>(a: seq<T>, b: seq<T>, name: T -> string, skip: string -> bool, agree: (T, T) -> bool) {
    forall n :: !skip(n) ==>
      && First(a, name, n).Some? == First(b, name, n).Some?
      && (First(a, name, n).Some? ==> agree(First(a, name, n).value, First(b, name, n).value))
  }

  lemma {:induction false} MatchedInStatus<T(!new)>(names: seq<string>, from: map<string, T>, to: map<string, T>, kind: T -> Kind,
                                                    compare: (T, T) -> Node, skip: string -> bool)
    requires forall n :: n in names ==> n in from || n in to
    ensures (forall c :: c in MatchedIn(names, from, to, kind, compare, skip) ==> c.status == Same)
      <==> forall n :: n in names && !skip(n) ==> n in from && n in to && compare(from[n], to[n]).status == Same
  {
    if names != [] {
      var init, last := names[..|names| - 1], names[|names| - 1];
      assert names == init + [last];
      MatchedInStatus(init, from, to, kind, compare, skip);
      var one := Matched1(last, from, to, kind, compare);
      var before, nodes := MatchedIn(init, from, to, kind, compare, skip), MatchedIn(names, from, to, kind, compare, skip);
      assert nodes == before + if skip(last) then [] else [one];
      assert forall c :: c in nodes <==> c in before || (!skip(last) && c == one);
    }
  }

  lemma GroupSame<T(!new)>(a: seq<T>, b: seq<T>, name: T -> string, kind: T -> Kind, compare: (T, T) -> Node, skip: string -> bool,
                           agree: (T, T) -> bool)
    requires forall x, y :: compare(x, y).status == Same <==> agree(x, y)
    ensures (forall c :: c in Matched(a, b, name, kind, compare, skip) ==> c.status == Same)
      <==> ListsAgreeBut(a, b, name, skip, agree)
  {
    hide Sorted, Indexed, First, MatchedIn;
    var here, there := Indexed(a, name), Indexed(b, name);
    var names := Sorted(here.Keys + there.Keys);
    assert forall n :: n in names <==> n in here || n in there;
    MatchedInStatus(names, here, there, kind, compare, skip);
    forall n
      ensures First(a, name, n) == if n in here then Some(here[n]) else None
      ensures First(b, name, n) == if n in there then Some(there[n]) else None
    {
      IndexedIs(a, name, n);
      IndexedIs(b, name, n);
    }
  }

  lemma StatusOf(n: Node)
    ensures Settled(n).status == Same <==> n.detail == [] && forall c :: c in n.children ==> c.status == Same
  {
  }

  // ----- views

  ghost predicate ViewAgrees(o: Options, a: View, b: View) {
    && ViewDetailAgrees(o, a, b)
    && ListsAgree(a.columns, b.columns, ColumnName, ColumnsAgree(o)) && ListsAgree(a.indexes, b.indexes, IndexName, IndexesAgree(o))
  }

  lemma ViewSame(o: Options, a: View, b: View)
    ensures ViewNode(o, a, b).status == Same <==> ViewAgrees(o, a, b)
  {
    ViewDetailSame(o, a, b);
    hide Matched, ListsAgree, ColumnAgrees, IndexAgrees, ColumnNode, IndexNode, Differing, ViewDetailAgrees;
    forall x, y ensures ColumnBy(o)(x, y).status == Same <==> ColumnsAgree(o)(x, y) { ColumnSame(o, x, y); }
    GroupAgrees(a.columns, b.columns, ColumnName, ColumnKind, ColumnBy(o), ColumnsAgree(o));
    forall x, y ensures IndexBy(o)(x, y).status == Same <==> IndexesAgree(o)(x, y) { IndexSame(o, x, y); }
    GroupAgrees(a.indexes, b.indexes, IndexName, IndexKind, IndexBy(o), IndexesAgree(o));
  }

  // ----- schemas

  ghost predicate TableAgrees(o: Options, a: Table, b: Table) {
    CommentAgrees(o, a.comment, b.comment) && AttrsAgree(o, a.attrs, b.attrs) && PartsAgree(o, a, b)
  }

  ghost function TablesAgree(o: Options): (Table, Table) -> bool { (a, b) => TableAgrees(o, a, b) }
  ghost function ViewsAgree(o: Options): (View, View) -> bool { (a, b) => ViewAgrees(o, a, b) }
  function RoutinesAgree(o: Options): (Routine, Routine) -> bool { (a, b) => RoutineAgrees(o, a, b) }
  function SequencesAgree(o: Options): (Sequence, Sequence) -> bool { (a, b) => SequenceAgrees(o, a, b) }
  function UserTypesAgree(o: Options): (UserType, UserType) -> bool { (a, b) => UserTypeAgrees(o, a, b) }

  /** The same owner, comment and attributes, and of every name not left out the same
      table, view, routine, sequence and type. */
  ghost predicate SchemaAgrees(o: Options, a: Schema, b: Schema) {
    && a.owner == b.owner && CommentAgrees(o, a.comment, b.comment) && AttrsAgree(o, a.attrs, b.attrs)
    && ListsAgreeBut(a.tables, b.tables, TableName, o.skips, TablesAgree(o))
    && ListsAgreeBut(a.views, b.views, ViewName, o.skips, ViewsAgree(o))
    && ListsAgreeBut(a.routines, b.routines, RoutineName, o.skips, RoutinesAgree(o))
    && ListsAgreeBut(a.sequences, b.sequences, SequenceName, o.skips, SequencesAgree(o))
    && ListsAgreeBut(a.userTypes, b.userTypes, UserTypeName, o.skips, UserTypesAgree(o))
  }

  lemma FiveSame(a: seq<Node>, b: seq<Node>, c: seq<Node>, d: seq<Node>, e: seq<Node>)
    ensures (forall n :: n in a + b + c + d + e ==> n.status == Same)
      <==> && (forall n :: n in a ==> n.status == Same) && (forall n :: n in b ==> n.status == Same)
           && (forall n :: n in c ==> n.status == Same) && (forall n :: n in d ==> n.status == Same)
           && (forall n :: n in e ==> n.status == Same)
  {
  }

  lemma SchemaSame(o: Options, a: Schema, b: Schema)
    ensures SchemaNode(o, a, b).status == Same <==> SchemaAgrees(o, a, b)
  {
    SchemaDetailSame(o, a, b);
    hide Matched, ListsAgreeBut, AttrsAgree, AttrFields, Differing, TableNode, ViewNode, RoutineNode, SequenceNode, UserTypeNode,
      TableAgrees, ViewAgrees, RoutineAgrees, SequenceAgrees, UserTypeAgrees, RoutineName;
    forall x, y ensures TableBy(o)(x, y).status == Same <==> TablesAgree(o)(x, y) { TableIs(o, x, y); }
    GroupSame(a.tables, b.tables, TableName, Fixed(TableKind), TableBy(o), o.skips, TablesAgree(o));
    forall x, y ensures ViewBy(o)(x, y).status == Same <==> ViewsAgree(o)(x, y) { ViewSame(o, x, y); }
    GroupSame(a.views, b.views, ViewName, KindOfView, ViewBy(o), o.skips, ViewsAgree(o));
    forall x, y ensures RoutineBy(o)(x, y).status == Same <==> RoutinesAgree(o)(x, y) { RoutineSame(o, x, y); }
    GroupSame(a.routines, b.routines, RoutineName, Fixed(RoutineKind), RoutineBy(o), o.skips, RoutinesAgree(o));
    forall x, y ensures SequenceBy(o)(x, y).status == Same <==> SequencesAgree(o)(x, y) { SequenceSame(o, x, y); }
    GroupSame(a.sequences, b.sequences, SequenceName, Fixed(SequenceKind), SequenceBy(o), o.skips, SequencesAgree(o));
    forall x, y ensures UserTypeBy(o)(x, y).status == Same <==> UserTypesAgree(o)(x, y) { UserTypeSame(o, x, y); }
    GroupSame(a.userTypes, b.userTypes, UserTypeName, Fixed(UserTypeKind), UserTypeBy(o), o.skips, UserTypesAgree(o));
    FiveSame(Matched(a.tables, b.tables, TableName, Fixed(TableKind), TableBy(o), o.skips),
             Matched(a.views, b.views, ViewName, KindOfView, ViewBy(o), o.skips),
             Matched(a.routines, b.routines, RoutineName, Fixed(RoutineKind), RoutineBy(o), o.skips),
             Matched(a.sequences, b.sequences, SequenceName, Fixed(SequenceKind), SequenceBy(o), o.skips),
             Matched(a.userTypes, b.userTypes, UserTypeName, Fixed(UserTypeKind), UserTypeBy(o), o.skips));
  }

  lemma TableIs(o: Options, a: Table, b: Table)
    ensures TableNode(o, a, b).status == Same <==> TableAgrees(o, a, b)
  {
    TableSame(o, a, b);
  }

  // ----- databases

  ghost function SchemasAgree(o: Options): (Schema, Schema) -> bool { (a, b) => SchemaAgrees(o, a, b) }

  /** Two databases are the same exactly when their own properties agree and, of every
      schema not left out, both have one or neither, and the two agree. */
  lemma DatabaseSame(o: Options, a: Database, b: Database)
    ensures Compared(o, a, b).status == Same
      <==> && CollationAgrees(o, a.charset, b.charset) && CollationAgrees(o, a.collate, b.collate)
           && CommentAgrees(o, a.comment, b.comment)
           && ListsAgreeBut(a.schemas, b.schemas, SchemaName, n => n in o.schemas, SchemasAgree(o))
  {
    DatabaseDetailSame(o, a, b);
    hide Matched, SchemaNode, SchemaAgrees, Differing, First;
    forall x, y ensures SchemaBy(o)(x, y).status == Same <==> SchemasAgree(o)(x, y) { SchemaSame(o, x, y); }
    GroupSame(a.schemas, b.schemas, SchemaName, Fixed(SchemaKind), SchemaBy(o), SkipSchema(o), SchemasAgree(o));
    assert ListsAgreeBut(a.schemas, b.schemas, SchemaName, SkipSchema(o), SchemasAgree(o))
      <==> ListsAgreeBut(a.schemas, b.schemas, SchemaName, n => n in o.schemas, SchemasAgree(o));
  }

  // ----- what only one side has

  /** A thing only the wanted side has is to be added, and one only the other has is to
      be removed. */
  lemma {:induction false} OneSided<T(!new)>(names: seq<string>, from: map<string, T>, to: map<string, T>, kind: T -> Kind,
                                             compare: (T, T) -> Node, skip: string -> bool, n: string)
    requires forall m :: m in names ==> m in from || m in to
    requires n in names && !skip(n)
    ensures n !in from ==> Node(kind(to[n]), n, Added, [], []) in MatchedIn(names, from, to, kind, compare, skip)
    ensures n !in to ==> Node(kind(from[n]), n, Removed, [], []) in MatchedIn(names, from, to, kind, compare, skip)
  {
    var init := names[..|names| - 1];
    assert names == init + [names[|names| - 1]];
    if n in init { OneSided(init, from, to, kind, compare, skip, n); }
  }

  lemma ColumnComes(o: Options, from: seq<Column>, to: seq<Column>, c: Column)
    requires c in to && forall x :: x in from ==> x.name != c.name
    ensures Node(ColumnKind, c.name, Added, [], []) in Columns(o, from, to)
    ensures Node(ColumnKind, c.name, Removed, [], []) in Columns(o, to, from)
  {
    hide Sorted, MatchedIn;
    var here, there := Indexed(from, ColumnName), Indexed(to, ColumnName);
    assert ColumnName(c) in there && c.name !in here;
    OneSided(Sorted(here.Keys + there.Keys), here, there, Fixed(ColumnKind), ColumnBy(o), NoSkip(), c.name);
    OneSided(Sorted(there.Keys + here.Keys), there, here, Fixed(ColumnKind), ColumnBy(o), NoSkip(), c.name);
  }
}
