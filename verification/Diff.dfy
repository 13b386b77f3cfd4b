/** Comparing two schemas (internal/diff/match.go, diff.go, options.go): things pair up
    by their names, wherever each list has them. */
module Diff {
  import opened Numerals
  import opened Strings
  import opened Wrappers

  // ----- the model compared (internal/model/relational.go)

  type Attrs = map<string, string>

  /** `rest` is what a driver reads out of the native word; it is never compared. */
  datatype DataType = DataType(native: string, nullable: bool, rest: string)
  datatype Column = Column(
    name: string, typ: DataType, position: int, default_: string, hasDefault: bool, identity: bool,
    autoIncrement: bool, generated: string, comment: string, attrs: Attrs)
  datatype PrimaryKey = PrimaryKey(name: string, columns: seq<string>)
  datatype Unique = Unique(name: string, columns: seq<string>)
  datatype Check = Check(name: string, expression: string)
  datatype IndexColumn = IndexColumn(name: string, descending: bool, expression: string)
  datatype Index = Index(
    name: string, columns: seq<IndexColumn>, unique: bool, access: string, predicate_: string, include_: seq<string>, attrs: Attrs)
  datatype ForeignKey = ForeignKey(
    name: string, columns: seq<string>, refSchema: string, refTable: string, refColumns: seq<string>,
    onDelete: string, onUpdate: string)
  datatype Trigger = Trigger(
    name: string, timing: string, events: seq<string>, forEachRow: bool, condition: string, definition: string)
  datatype Table = Table(
    name: string, comment: string, columns: seq<Column>, primaryKey: Option<PrimaryKey>, indexes: seq<Index>,
    foreignKeys: seq<ForeignKey>, uniques: seq<Unique>, checks: seq<Check>, triggers: seq<Trigger>,
    rowsEstimate: int, attrs: Attrs)
  datatype View = View(
    name: string, materialized: bool, definition: string, columns: seq<Column>, comment: string, indexes: seq<Index>)
  datatype Parameter = Parameter(name: string, typ: DataType, mode: string, default_: string, hasDefault: bool)
  datatype Routine = Routine(
    name: string, kind: string, language: string, parameters: seq<Parameter>, returns_: Option<DataType>,
    definition: string, comment: string)
  datatype Sequence = Sequence(
    name: string, dataType: string, start: int, increment: int, minValue: Option<int>, maxValue: Option<int>,
    cycle: bool, comment: string)
  datatype FieldDef = FieldDef(name: string, typ: DataType)
  datatype UserType = UserType(
    name: string, category: string, enumValues: seq<string>, fields: seq<FieldDef>, baseType: string, comment: string)
  datatype Schema = Schema(
    name: string, owner: string, comment: string, tables: seq<Table>, views: seq<View>, routines: seq<Routine>,
    sequences: seq<Sequence>, userTypes: seq<UserType>, attrs: Attrs)
  datatype Database = Database(name: string, charset: string, collate: string, comment: string, schemas: seq<Schema>)

  // ----- what a comparison says

  datatype Kind =
    | DatabaseKind | SchemaKind | TableKind | ViewKind | MaterializedViewKind | RoutineKind | SequenceKind | UserTypeKind
    | ColumnKind | PrimaryKeyKind | UniqueKind | ForeignKeyKind | CheckKind | IndexKind | TriggerKind
  datatype Status = Same | Added | Removed | Changed
  datatype Field = Field(name: string, from: string, to: string)
  datatype Node = Node(kind: Kind, name: string, status: Status, detail: seq<Field>, children: seq<Node>)

  /** What to leave out: how text and comments read, which attributes and names
      are not looked at. */
  datatype Options = Options(
    schemas: seq<string>, skips: string -> bool, collation: bool, comments: bool, reading: string -> string,
    collationAttr: string -> bool)

  function Text(o: Options, s: string): string { o.reading(s) }
  function Comment(o: Options, s: string): string { if o.comments then "" else s }
  function Collation(o: Options, s: string): string { if o.collation then "" else s }
  function AttrsOf(o: Options, attrs: Attrs): Attrs {
    if !o.collation || |attrs| == 0 then attrs else map k | k in attrs && !o.collationAttr(k) :: attrs[k]
  }

  // ----- names in order

  /** The order Go sorts strings in. */
  predicate AtMost(a: string, b: string) {
    if a == [] then true else if b == [] then false else if a[0] != b[0] then a[0] < b[0] else AtMost(a[1..], b[1..])
  }

  lemma {:induction false} AtMostTotal(a: string, b: string)
    ensures AtMost(a, b) || AtMost(b, a)
    ensures AtMost(a, b) && AtMost(b, a) ==> a == b
  {
    if a != [] && b != [] && a[0] == b[0] {
      AtMostTotal(a[1..], b[1..]);
      assert a == [a[0]] + a[1..] && b == [b[0]] + b[1..];
    }
  }

  lemma {:induction false} AtMostJoins(a: string, b: string, c: string)
    requires AtMost(a, b) && AtMost(b, c)
    ensures AtMost(a, c)
  {
    if a != [] && b != [] && c != [] && a[0] == b[0] && b[0] == c[0] { AtMostJoins(a[1..], b[1..], c[1..]); }
  }

  ghost predicate IsLeast(n: string, names: set<string>) { n in names && forall m :: m in names ==> AtMost(n, m) }

  lemma LeastExists(names: set<string>)
    requires names != {}
    ensures exists n :: IsLeast(n, names)
    decreases |names|
  {
    var m :| m in names;
    AtMostTotal(m, m);
    if names == {m} {
      assert IsLeast(m, names);
    } else {
      var rest := names - {m};
      assert names == rest + {m};
      LeastExists(rest);
      var r :| IsLeast(r, rest);
      AtMostTotal(r, m);
      if AtMost(r, m) {
        assert IsLeast(r, names);
      } else {
        forall x | x in names ensures AtMost(m, x) { if x != m { AtMostJoins(m, r, x); } }
        assert IsLeast(m, names);
      }
    }
  }

  /** The names, each once, in order. */
  ghost function Sorted(names: set<string>): (s: seq<string>)
    ensures |s| == |names| && forall n :: n in s <==> n in names
    decreases |names|
  {
    if names == {} then []
    else
      LeastExists(names);
      var n :| IsLeast(n, names);
      [n] + Sorted(names - {n})
  }

  lemma {:induction false} SortedIs(names: set<string>)
    ensures forall i, j :: 0 <= i < j < |Sorted(names)| ==> AtMost(Sorted(names)[i], Sorted(names)[j]) && Sorted(names)[i] != Sorted(names)[j]
    decreases |names|
  {
    hide AtMost;
    if names != {} {
      LeastExists(names);
      var n := Sorted(names)[0];
      SortedIs(names - {n});
      var rest := Sorted(names - {n});
      assert Sorted(names) == [n] + rest;
      forall j | 0 <= j < |rest| ensures AtMost(n, rest[j]) && n != rest[j] { assert rest[j] in rest; }
    }
  }

  // ----- matching

  /** A list as a map from names; of two of one name the earlier stays. */
  ghost function Indexed<T>(list: seq<T>, name: T -> string): (m: map<string, T>)
    ensures forall n :: n in m <==> exists v :: v in list && name(v) == n
    ensures forall n :: n in m ==> name(m[n]) == n && m[n] in list
  {
    if list == [] then map[]
    else
      var last := list[|list| - 1];
      var m := Indexed(list[..|list| - 1], name);
      assert list == list[..|list| - 1] + [last];
      if name(last) in m then m else m[name(last) := last]
  }

  /** What the comparison says of one name that is in either. */
  ghost function Matched1<T>(n: string, from: map<string, T>, to: map<string, T>, kind: T -> Kind, compare: (T, T) -> Node): Node
    requires n in from || n in to
  {
    if n in from && n in to then compare(from[n], to[n])
    else if n in to then Node(kind(to[n]), n, Added, [], [])
    else Node(kind(from[n]), n, Removed, [], [])
  }

  ghost function MatchedIn<T>(names: seq<string>, from: map<string, T>, to: map<string, T>, kind: T -> Kind,
                              compare: (T, T) -> Node, skip: string -> bool): seq<Node>
    requires forall n :: n in names ==> n in from || n in to
  {
    if names == [] then []
    else
      var last := names[|names| - 1];
      MatchedIn(names[..|names| - 1], from, to, kind, compare, skip)
      + if skip(last) then [] else [Matched1(last, from, to, kind, compare)]
  }

  ghost function Matched<T>(from: seq<T>, to: seq<T>, name: T -> string, kind: T -> Kind, compare: (T, T) -> Node,
                            skip: string -> bool): seq<Node> {
    var here, there := Indexed(from, name), Indexed(to, name);
    MatchedIn(Sorted(here.Keys + there.Keys), here, there, kind, compare, skip)
  }

  function Settled(n: Node): Node {
    n.(status := if |n.detail| > 0 then Changed else if forall c :: c in n.children ==> c.status == Same then Same else Changed)
  }

  function Differing(name: string, from: string, to: string): seq<Field> {
    if from == to then [] else [Field(name, from, to)]
  }

  function Attr(attrs: Attrs, k: string): string { if k in attrs then attrs[k] else "" }

  ghost function AttrFieldsIn(keys: seq<string>, from: Attrs, to: Attrs): seq<Field> {
    if keys == [] then []
    else
      var last := keys[|keys| - 1];
      AttrFieldsIn(keys[..|keys| - 1], from, to) + Differing(last, Attr(from, last), Attr(to, last))
  }

  ghost function AttrFields(from: Attrs, to: Attrs): seq<Field> { AttrFieldsIn(Sorted(from.Keys + to.Keys), from, to) }

  // ----- what is compared of each thing

  function Yes(b: bool): string { if b then "yes" else "no" }

  function Listed(names: seq<string>): string { Joined(names, ", ") }

  function Number(n: int): string { if n < 0 then "-" + Digits(-n) else Digits(n) }

  function DefaultOf(c: Column): string { if !c.hasDefault then "" else "= " + c.default_ }

  ghost function ColumnNode(o: Options, from: Column, to: Column): Node {
    Settled(Node(ColumnKind, to.name, Same,
                 Differing("type", from.typ.native, to.typ.native)
                 + Differing("nullable", Yes(from.typ.nullable), Yes(to.typ.nullable))
                 + Differing("position", Number(from.position), Number(to.position))
                 + Differing("default", DefaultOf(from), DefaultOf(to))
                 + Differing("identity", Yes(from.identity), Yes(to.identity))
                 + Differing("auto-increment", Yes(from.autoIncrement), Yes(to.autoIncrement))
                 + Differing("generated", Text(o, from.generated), Text(o, to.generated))
                 + Differing("comment", Comment(o, from.comment), Comment(o, to.comment))
                 + AttrFields(AttrsOf(o, from.attrs), AttrsOf(o, to.attrs)), []))
  }

  function PrimaryKeyNode(from: PrimaryKey, to: PrimaryKey): Node {
    Settled(Node(PrimaryKeyKind, to.name, Same, Differing("columns", Listed(from.columns), Listed(to.columns)), []))
  }

  function UniqueNode(from: Unique, to: Unique): Node {
    Settled(Node(UniqueKind, to.name, Same, Differing("columns", Listed(from.columns), Listed(to.columns)), []))
  }

  function CheckNode(o: Options, from: Check, to: Check): Node {
    Settled(Node(CheckKind, to.name, Same, Differing("expression", Text(o, from.expression), Text(o, to.expression)), []))
  }

  function RefOf(f: ForeignKey): string {
    (if f.refSchema != "" then f.refSchema + "." + f.refTable else f.refTable) + " (" + Listed(f.refColumns) + ")"
  }

  function ForeignKeyNode(from: ForeignKey, to: ForeignKey): Node {
    Settled(Node(ForeignKeyKind, to.name, Same,
                 Differing("columns", Listed(from.columns), Listed(to.columns))
                 + Differing("references", RefOf(from), RefOf(to))
                 + Differing("on delete", from.onDelete, to.onDelete)
                 + Differing("on update", from.onUpdate, to.onUpdate), []))
  }

  function IndexColumnText(c: IndexColumn): string {
    (if c.expression != "" then "(" + c.expression + ")" else c.name) + if c.descending then " DESC" else ""
  }

  function IndexColumnTexts(columns: seq<IndexColumn>): seq<string> {
    seq(|columns|, i requires 0 <= i < |columns| => IndexColumnText(columns[i]))
  }

  ghost function IndexNode(o: Options, from: Index, to: Index): Node {
    Settled(Node(IndexKind, to.name, Same,
                 Differing("columns", Listed(IndexColumnTexts(from.columns)), Listed(IndexColumnTexts(to.columns)))
                 + Differing("unique", Yes(from.unique), Yes(to.unique))
                 + Differing("method", from.access, to.access)
                 + Differing("predicate", Text(o, from.predicate_), Text(o, to.predicate_))
                 + Differing("include", Listed(from.include_), Listed(to.include_))
                 + AttrFields(AttrsOf(o, from.attrs), AttrsOf(o, to.attrs)), []))
  }

  function TriggerNode(o: Options, from: Trigger, to: Trigger): Node {
    Settled(Node(TriggerKind, to.name, Same,
                 Differing("timing", from.timing, to.timing)
                 + Differing("events", Listed(from.events), Listed(to.events))
                 + Differing("for each row", Yes(from.forEachRow), Yes(to.forEachRow))
                 + Differing("condition", Text(o, from.condition), Text(o, to.condition))
                 + Differing("definition", Text(o, from.definition), Text(o, to.definition)), []))
  }

  function ParameterTexts(ps: seq<Parameter>): seq<string> {
    seq(|ps|, i requires 0 <= i < |ps| => Trimmed(ps[i].mode + " " + ps[i].typ.native))
  }

  /** What a routine is matched by, so that overloads do not match each other. */
  function RoutineName(r: Routine): string { r.name + "(" + Listed(ParameterTexts(r.parameters)) + ")" }

  function ReturnOf(r: Routine): string { if r.returns_.None? then "" else r.returns_.value.native }

  function RoutineNode(o: Options, from: Routine, to: Routine): Node {
    Settled(Node(RoutineKind, RoutineName(to), Same,
                 Differing("kind", from.kind, to.kind)
                 + Differing("language", from.language, to.language)
                 + Differing("returns", ReturnOf(from), ReturnOf(to))
                 + Differing("definition", Text(o, from.definition), Text(o, to.definition))
                 + Differing("comment", Comment(o, from.comment), Comment(o, to.comment)), []))
  }

  function Bound(v: Option<int>): string { if v.None? then "none" else Number(v.value) }

  function SequenceNode(o: Options, from: Sequence, to: Sequence): Node {
    Settled(Node(SequenceKind, to.name, Same,
                 Differing("type", from.dataType, to.dataType)
                 + Differing("start", Number(from.start), Number(to.start))
                 + Differing("increment", Number(from.increment), Number(to.increment))
                 + Differing("minimum", Bound(from.minValue), Bound(to.minValue))
                 + Differing("maximum", Bound(from.maxValue), Bound(to.maxValue))
                 + Differing("cycle", Yes(from.cycle), Yes(to.cycle))
                 + Differing("comment", Comment(o, from.comment), Comment(o, to.comment)), []))
  }

  function FieldTexts(fs: seq<FieldDef>): seq<string> {
    seq(|fs|, i requires 0 <= i < |fs| => fs[i].name + " " + fs[i].typ.native)
  }

  function UserTypeNode(o: Options, from: UserType, to: UserType): Node {
    Settled(Node(UserTypeKind, to.name, Same,
                 Differing("category", from.category, to.category)
                 + Differing("values", Listed(from.enumValues), Listed(to.enumValues))
                 + Differing("fields", Listed(FieldTexts(from.fields)), Listed(FieldTexts(to.fields)))
                 + Differing("base type", from.baseType, to.baseType)
                 + Differing("comment", Comment(o, from.comment), Comment(o, to.comment)), []))
  }

  // ----- names and kinds, as functions to match by

  function ColumnName(c: Column): string { c.name }
  function PrimaryKeyName(k: PrimaryKey): string { k.name }
  function UniqueName(u: Unique): string { u.name }
  function CheckName(c: Check): string { c.name }
  function IndexName(i: Index): string { i.name }
  function ForeignKeyName(f: ForeignKey): string { f.name }
  function TriggerName(t: Trigger): string { t.name }
  function TableName(t: Table): string { t.name }
  function ViewName(v: View): string { v.name }
  function SequenceName(s: Sequence): string { s.name }
  function UserTypeName(u: UserType): string { u.name }
  function SchemaName(s: Schema): string { s.name }

  function Fixed<T>(k: Kind): T -> Kind { v => k }
  function KindOfView(v: View): Kind { if v.materialized then MaterializedViewKind else ViewKind }
  function NoSkip(): string -> bool { n => false }
  function SkipSchema(o: Options): string -> bool { n => n in o.schemas }
  function AsList<T>(v: Option<T>): seq<T> { if v.None? then [] else [v.value] }

  ghost function ColumnBy(o: Options): (Column, Column) -> Node { (a, b) => ColumnNode(o, a, b) }
  function PrimaryKeyBy(): (PrimaryKey, PrimaryKey) -> Node { (a, b) => PrimaryKeyNode(a, b) }
  function UniqueBy(): (Unique, Unique) -> Node { (a, b) => UniqueNode(a, b) }
  function CheckBy(o: Options): (Check, Check) -> Node { (a, b) => CheckNode(o, a, b) }
  ghost function IndexBy(o: Options): (Index, Index) -> Node { (a, b) => IndexNode(o, a, b) }
  function ForeignKeyBy(): (ForeignKey, ForeignKey) -> Node { (a, b) => ForeignKeyNode(a, b) }
  function TriggerBy(o: Options): (Trigger, Trigger) -> Node { (a, b) => TriggerNode(o, a, b) }
  ghost function TableBy(o: Options): (Table, Table) -> Node { (a, b) => TableNode(o, a, b) }
  ghost function ViewBy(o: Options): (View, View) -> Node { (a, b) => ViewNode(o, a, b) }
  function RoutineBy(o: Options): (Routine, Routine) -> Node { (a, b) => RoutineNode(o, a, b) }
  function SequenceBy(o: Options): (Sequence, Sequence) -> Node { (a, b) => SequenceNode(o, a, b) }
  function UserTypeBy(o: Options): (UserType, UserType) -> Node { (a, b) => UserTypeNode(o, a, b) }
  ghost function SchemaBy(o: Options): (Schema, Schema) -> Node { (a, b) => SchemaNode(o, a, b) }

  // ----- the objects

  ghost function Columns(o: Options, from: seq<Column>, to: seq<Column>): seq<Node> {
    Matched(from, to, ColumnName, Fixed(ColumnKind), ColumnBy(o), NoSkip())
  }

  ghost function PrimaryKeys(from: Option<PrimaryKey>, to: Option<PrimaryKey>): seq<Node> {
    Matched(AsList(from), AsList(to), PrimaryKeyName, Fixed(PrimaryKeyKind), PrimaryKeyBy(), NoSkip())
  }

  ghost function Indexes(o: Options, from: seq<Index>, to: seq<Index>): seq<Node> {
    Matched(from, to, IndexName, Fixed(IndexKind), IndexBy(o), NoSkip())
  }

  ghost function Uniques(from: seq<Unique>, to: seq<Unique>): seq<Node> {
    Matched(from, to, UniqueName, Fixed(UniqueKind), UniqueBy(), NoSkip())
  }

  ghost function ForeignKeys(from: seq<ForeignKey>, to: seq<ForeignKey>): seq<Node> {
    Matched(from, to, ForeignKeyName, Fixed(ForeignKeyKind), ForeignKeyBy(), NoSkip())
  }

  ghost function Checks(o: Options, from: seq<Check>, to: seq<Check>): seq<Node> {
    Matched(from, to, CheckName, Fixed(CheckKind), CheckBy(o), NoSkip())
  }

  ghost function Triggers(o: Options, from: seq<Trigger>, to: seq<Trigger>): seq<Node> {
    Matched(from, to, TriggerName, Fixed(TriggerKind), TriggerBy(o), NoSkip())
  }

  ghost function TableDetail(o: Options, from: Table, to: Table): seq<Field> {
    Differing("comment", Comment(o, from.comment), Comment(o, to.comment))
    + AttrFields(AttrsOf(o, from.attrs), AttrsOf(o, to.attrs))
  }

  ghost function TableParts(o: Options, from: Table, to: Table): seq<Node> {
    Columns(o, from.columns, to.columns)
    + PrimaryKeys(from.primaryKey, to.primaryKey)
    + Uniques(from.uniques, to.uniques)
    + ForeignKeys(from.foreignKeys, to.foreignKeys)
    + Checks(o, from.checks, to.checks)
    + Indexes(o, from.indexes, to.indexes)
    + Triggers(o, from.triggers, to.triggers)
  }

  ghost function TableNode(o: Options, from: Table, to: Table): Node {
    Settled(Node(TableKind, to.name, Same, TableDetail(o, from, to), TableParts(o, from, to)))
  }

  ghost function ViewNode(o: Options, from: View, to: View): Node {
    Settled(Node(KindOfView(to), to.name, Same,
                 Differing("materialized", Yes(from.materialized), Yes(to.materialized))
                 + Differing("definition", Text(o, from.definition), Text(o, to.definition))
                 + Differing("comment", Comment(o, from.comment), Comment(o, to.comment)),
                 Columns(o, from.columns, to.columns) + Indexes(o, from.indexes, to.indexes)))
  }

  ghost function SchemaNode(o: Options, from: Schema, to: Schema): Node {
    Settled(Node(SchemaKind, to.name, Same,
                 Differing("owner", from.owner, to.owner)
                 + Differing("comment", Comment(o, from.comment), Comment(o, to.comment))
                 + AttrFields(AttrsOf(o, from.attrs), AttrsOf(o, to.attrs)),
                 Matched(from.tables, to.tables, TableName, Fixed(TableKind), TableBy(o), o.skips)
                 + Matched(from.views, to.views, ViewName, KindOfView, ViewBy(o), o.skips)
                 + Matched(from.routines, to.routines, RoutineName, Fixed(RoutineKind), RoutineBy(o), o.skips)
                 + Matched(from.sequences, to.sequences, SequenceName, Fixed(SequenceKind), SequenceBy(o), o.skips)
                 + Matched(from.userTypes, to.userTypes, UserTypeName, Fixed(UserTypeKind), UserTypeBy(o), o.skips)))
  }

  ghost function Compared(o: Options, from: Database, to: Database): Node {
    Settled(Node(DatabaseKind, if to.name != "" then to.name else from.name, Same,
                 Differing("charset", Collation(o, from.charset), Collation(o, to.charset))
                 + Differing("collation", Collation(o, from.collate), Collation(o, to.collate))
                 + Differing("comment", Comment(o, from.comment), Comment(o, to.comment)),
                 Matched(from.schemas, to.schemas, SchemaName, Fixed(SchemaKind), SchemaBy(o), SkipSchema(o))))
  }

  // ----- the loops that fill maps and slices

  method IndexList<T>(list: seq<T>, name: T -> string) returns (out: map<string, T>)
    ensures out == Indexed(list, name)
  {
    out := map[];
    for i := 0 to |list|
      invariant out == Indexed(list[..i], name)
    {
      assert list[..i + 1][..i] == list[..i];
      if name(list[i]) !in out { out := out[name(list[i]) := list[i]]; }
    }
    assert list[..|list|] == list;
  }

  /** The least of the names. */
  method Least(names: set<string>) returns (n: string)
    requires names != {}
    ensures IsLeast(n, names)
  {
    n :| n in names;
    AtMostTotal(n, n);
    var rest := names - {n};
    while rest != {}
      invariant n in names && n !in rest && rest <= names
      invariant forall m :: m in names && m !in rest ==> AtMost(n, m)
      decreases |rest|
    {
      var m :| m in rest;
      rest := rest - {m};
      AtMostTotal(n, m);
      if AtMost(m, n) {
        forall x | x in names && x !in rest ensures AtMost(m, x) { if x != m { AtMostJoins(m, n, x); } else { AtMostTotal(m, m); } }
        n := m;
      }
    }
  }

  method SortNames(names: set<string>) returns (s: seq<string>)
    ensures s == Sorted(names)
  {
    hide Sorted, IsLeast;
    s := [];
    var rest := names;
    while rest != {}
      invariant s + Sorted(rest) == Sorted(names)
      decreases |rest|
    {
      var n := Least(rest);
      LeastFirst(n, rest);
      rest := rest - {n};
      s := s + [n];
    }
  }

  lemma LeastFirst(n: string, names: set<string>)
    requires IsLeast(n, names)
    ensures Sorted(names) == [n] + Sorted(names - {n})
  {
    LeastExists(names);
    AtMostTotal(n, Sorted(names)[0]);
  }

  method Match<T>(from: seq<T>, to: seq<T>, kind: T -> Kind, name: T -> string, compare: (T, T) -> Node, skip: string -> bool)
    returns (out: seq<Node>)
    ensures out == Matched(from, to, name, kind, compare, skip)
  {
    hide Indexed, Sorted;
    var here := IndexList(from, name);
    var there := IndexList(to, name);
    var names := SortNames(here.Keys + there.Keys);
    assert forall n :: n in names ==> n in here || n in there;
    out := [];
    for i := 0 to |names|
      invariant out == MatchedIn(names[..i], here, there, kind, compare, skip)
    {
      var n := names[i];
      assert names[..i + 1][..i] == names[..i];
      if !skip(n) {
        if n in here && n in there { out := out + [compare(here[n], there[n])]; }
        else if n in there { out := out + [Node(kind(there[n]), n, Added, [], [])]; }
        else { out := out + [Node(kind(here[n]), n, Removed, [], [])]; }
      }
    }
    assert names[..|names|] == names;
  }

  method AttrFieldList(from: Attrs, to: Attrs) returns (out: seq<Field>)
    ensures out == AttrFields(from, to)
  {
    hide Sorted, Differing, Attr;
    var keys := SortNames(from.Keys + to.Keys);
    out := [];
    for i := 0 to |keys|
      invariant out == AttrFieldsIn(keys[..i], from, to)
    {
      assert keys[..i + 1][..i] == keys[..i];
      out := out + Differing(keys[i], Attr(from, keys[i]), Attr(to, keys[i]));
    }
    assert keys[..|keys|] == keys;
  }
}
