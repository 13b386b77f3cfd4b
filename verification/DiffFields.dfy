/** What a comparison looks at of each thing (internal/diff/diff.go:91-400), said of
    the things' own fields: two compare the same exactly when those agree. */
module DiffFields {
  import opened Diff
  import opened DiffLaws
  import opened Numerals
  import opened Strings
  import opened Wrappers

  // ----- what it is for texts, comments and attributes to agree

  predicate TextAgrees(o: Options, a: string, b: string) { o.reading(a) == o.reading(b) }

  /** Comments agree where they are left out. */
  predicate CommentAgrees(o: Options, a: string, b: string) { o.comments || a == b }

  predicate CollationAgrees(o: Options, a: string, b: string) { o.collation || a == b }

  /** Every attribute that is looked at says the same, one that is not there saying nothing. */
  ghost predicate AttrsAgree(o: Options, a: Attrs, b: Attrs) {
    forall k :: !(o.collation && o.collationAttr(k)) ==> (if k in a then a[k] else "") == (if k in b then b[k] else "")
  }

  /** Names as they are spelled in a row, a comma and a space between each and the next. */
  function Spelled(names: seq<string>): string {
    if names == [] then "" else if |names| == 1 then names[0] else Spelled(names[..|names| - 1]) + ", " + names[|names| - 1]
  }

  // ----- what differs is told, and nothing else

  lemma NothingDiffers(name: string, from: string, to: string)
    ensures Differing(name, from, to) == [] <==> from == to
  {
  }

  lemma NoneOf<T>(a: seq<T>, b: seq<T>)
    ensures a + b == [] <==> a == [] && b == []
  {
  }

  lemma {:induction false} AttrFieldsNone(keys: seq<string>, from: Attrs, to: Attrs)
    ensures AttrFieldsIn(keys, from, to) == [] <==> forall k :: k in keys ==> Attr(from, k) == Attr(to, k)
  {
    if keys != [] {
      var init, last := keys[..|keys| - 1], keys[|keys| - 1];
      assert keys == init + [last];
      AttrFieldsNone(init, from, to);
    }
  }

  /** No attribute differs exactly when those looked at agree. */
  lemma AttrsSame(o: Options, a: Attrs, b: Attrs)
    ensures AttrFields(AttrsOf(o, a), AttrsOf(o, b)) == [] <==> AttrsAgree(o, a, b)
  {
    var x, y := AttrsOf(o, a), AttrsOf(o, b);
    AttrFieldsNone(Sorted(x.Keys + y.Keys), x, y);
    LookedAt(o, a);
    LookedAt(o, b);
    forall k ensures (Attr(x, k) == Attr(y, k))
      <==> (!(o.collation && o.collationAttr(k)) ==> (if k in a then a[k] else "") == (if k in b then b[k] else "")) { }
    if forall k :: k in Sorted(x.Keys + y.Keys) ==> Attr(x, k) == Attr(y, k) {
      forall k ensures Attr(x, k) == Attr(y, k) { if k in x.Keys + y.Keys { assert k in Sorted(x.Keys + y.Keys); } }
    }
  }

  lemma LookedAt(o: Options, a: Attrs)
    ensures forall k :: Attr(AttrsOf(o, a), k) == if o.collation && o.collationAttr(k) then "" else if k in a then a[k] else ""
  {
    if |a| == 0 { assert a == map[]; }
  }

  lemma YesApart(a: bool, b: bool)
    ensures Yes(a) == Yes(b) <==> a == b
  {
    assert "yes"[0] != "no"[0];
  }

  lemma {:induction false} AreDigits(n: nat)
    ensures forall c :: c in Digits(n) ==> '0' <= c <= '9'
  {
    if n >= 10 { AreDigits(n / 10); }
  }

  lemma NumberApart(a: int, b: int)
    ensures Number(a) == Number(b) <==> a == b
    ensures Number(a) != "none"
  {
    var x, y := if a < 0 then -a else a, if b < 0 then -b else b;
    AreDigits(x);
    AreDigits(y);
    assert Digits(x)[0] in Digits(x) && Digits(y)[0] in Digits(y);
    assert "none"[0] == 'n';
    if Number(a) == Number(b) {
      assert a < 0 <==> Number(a)[0] == '-';
      assert b < 0 <==> Number(b)[0] == '-';
      if a < 0 { assert Number(a)[1..] == Digits(x) && Number(b)[1..] == Digits(y); }
      DigitsApart(x, y);
    }
  }

  lemma BoundApart(a: Option<int>, b: Option<int>)
    ensures Bound(a) == Bound(b) <==> a == b
  {
    if a.Some? { NumberApart(a.value, if b.Some? then b.value else 0); }
    if b.Some? { NumberApart(b.value, 0); }
  }

  lemma DefaultApart(a: Column, b: Column)
    ensures DefaultOf(a) == DefaultOf(b) <==> a.hasDefault == b.hasDefault && (a.hasDefault ==> a.default_ == b.default_)
  {
    if a.hasDefault { assert DefaultOf(a)[2..] == a.default_; }
    if b.hasDefault { assert DefaultOf(b)[2..] == b.default_; }
  }

  // ----- names in a row

  lemma {:induction false} JoinedMore(parts: seq<string>, last: string)
    requires parts != []
    ensures Joined(parts + [last], ", ") == Joined(parts, ", ") + ", " + last
  {
    if |parts| > 1 {
      JoinedMore(parts[1..], last);
      assert (parts + [last])[1..] == parts[1..] + [last];
      assert Joined(parts, ", ") == parts[0] + ", " + Joined(parts[1..], ", ");
    } else {
      assert (parts + [last])[1..] == [last];
    }
  }

  lemma {:induction false} ListedIs(names: seq<string>)
    ensures Listed(names) == Spelled(names)
    decreases |names|
  {
    if |names| > 1 {
      var init := names[..|names| - 1];
      ListedIs(init);
      JoinedMore(init, names[|names| - 1]);
      assert names == init + [names[|names| - 1]];
    }
  }

  /** Names that can be told apart in a row: none empty, and none with a comma. */
  predicate Tellable(names: seq<string>) { forall n :: n in names ==> n != "" && ',' !in n }

  lemma LastComma(a: string, x: string, b: string, y: string)
    requires ',' !in x && ',' !in y && a + ", " + x == b + ", " + y
    ensures a == b && x == y
  {
    var s := a + ", " + x;
    assert s[|a|] == ',' && s[|b|] == ',';
    assert forall i :: |a| + 2 <= i < |s| ==> s[i] == x[i - |a| - 2] && s[i] in x;
    assert forall i :: |b| + 2 <= i < |s| ==> s[i] == y[i - |b| - 2] && s[i] in y;
    assert s[|a| + 1] == ' ' && s[|b| + 1] == ' ';
    assert s[..|a|] == a && s[..|b|] == b && s[|a| + 2..] == x && s[|b| + 2..] == y;
  }

  lemma NoComma(names: seq<string>)
    requires Tellable(names) && names != []
    ensures |names| == 1 ==> ',' !in Spelled(names) && Spelled(names) != ""
    ensures |names| > 1 ==> ',' in Spelled(names)
  {
    if |names| == 1 {
      assert names[0] in names;
    } else {
      var init := Spelled(names[..|names| - 1]);
      assert (init + ", " + names[|names| - 1])[|init|] == ',';
    }
  }

  /** Such names are spelled alike only when they are the same, in the same order. */
  lemma {:induction false} SpelledApart(a: seq<string>, b: seq<string>)
    requires Tellable(a) && Tellable(b)
    ensures Spelled(a) == Spelled(b) <==> a == b
    decreases |a|
  {
    if Spelled(a) == Spelled(b) {
      if a != [] { NoComma(a); }
      if b != [] { NoComma(b); }
      if |a| > 1 && |b| > 1 {
        var x, y := a[..|a| - 1], b[..|b| - 1];
        assert a[|a| - 1] in a && b[|b| - 1] in b;
        LastComma(Spelled(x), a[|a| - 1], Spelled(y), b[|b| - 1]);
        forall n | n in x ensures n in a { }
        forall n | n in y ensures n in b { }
        SpelledApart(x, y);
        assert a == x + [a[|a| - 1]] && b == y + [b[|b| - 1]];
      }
    }
  }

  /** A comma in a name can hide a difference: a key of two columns and one of a
      single column are the same to the comparison. */
  lemma KeysClash() returns (a: PrimaryKey, b: PrimaryKey)
    ensures a.columns != b.columns && |a.columns| == 2 && |b.columns| == 1 && PrimaryKeyNode(a, b).status == Same
  {
    a, b := PrimaryKey("k", ["x", "y"]), PrimaryKey("k", ["x, y"]);
    assert ["x", "y"][1..] == ["y"];
    assert Listed(a.columns) == "x" + ", " + "y" == "x, y" == Listed(b.columns);
  }

  // ----- the parts of a table

  ghost predicate ColumnAgrees(o: Options, a: Column, b: Column) {
    && a.typ.native == b.typ.native && a.typ.nullable == b.typ.nullable && a.position == b.position
    && a.hasDefault == b.hasDefault && (a.hasDefault ==> a.default_ == b.default_)
    && a.identity == b.identity && a.autoIncrement == b.autoIncrement
    && TextAgrees(o, a.generated, b.generated) && CommentAgrees(o, a.comment, b.comment) && AttrsAgree(o, a.attrs, b.attrs)
  }

  lemma ColumnSame(o: Options, a: Column, b: Column)
    ensures ColumnNode(o, a, b).status == Same <==> ColumnAgrees(o, a, b)
  {
    YesApart(a.typ.nullable, b.typ.nullable);
    YesApart(a.identity, b.identity);
    YesApart(a.autoIncrement, b.autoIncrement);
    NumberApart(a.position, b.position);
    DefaultApart(a, b);
    AttrsSame(o, a.attrs, b.attrs);
    hide Yes, Number, DefaultOf, AttrFields, AttrsOf, AttrsAgree;
  }

  /** And what differs is told by its name, first the old text and then the wanted one. */
  lemma ColumnSays(o: Options, a: Column, b: Column)
    ensures var says := ColumnNode(o, a, b).detail;
      && (a.typ.native != b.typ.native ==> Field("type", a.typ.native, b.typ.native) in says)
      && (a.typ.nullable != b.typ.nullable ==>
            Field("nullable", if a.typ.nullable then "yes" else "no", if b.typ.nullable then "yes" else "no") in says)
      && (a.hasDefault && b.hasDefault && a.default_ != b.default_ ==> Field("default", "= " + a.default_, "= " + b.default_) in says)
      && (a.hasDefault && !b.hasDefault ==> Field("default", "= " + a.default_, "") in says)
      && (!a.hasDefault && b.hasDefault ==> Field("default", "", "= " + b.default_) in says)
      && (!o.comments && a.comment != b.comment ==> Field("comment", a.comment, b.comment) in says)
  {
    DefaultApart(a, b);
    YesApart(a.typ.nullable, b.typ.nullable);
    hide AttrFields, Number;
  }

  predicate PrimaryKeyAgrees(a: PrimaryKey, b: PrimaryKey) { Spelled(a.columns) == Spelled(b.columns) }

  lemma PrimaryKeySame(a: PrimaryKey, b: PrimaryKey)
    ensures PrimaryKeyNode(a, b).status == Same <==> PrimaryKeyAgrees(a, b)
  {
    ListedIs(a.columns);
    ListedIs(b.columns);
    hide Listed, Spelled;
  }

  predicate UniqueAgrees(a: Unique, b: Unique) { Spelled(a.columns) == Spelled(b.columns) }

  lemma UniqueSame(a: Unique, b: Unique)
    ensures UniqueNode(a, b).status == Same <==> UniqueAgrees(a, b)
  {
    ListedIs(a.columns);
    ListedIs(b.columns);
    hide Listed, Spelled;
  }

  predicate CheckAgrees(o: Options, a: Check, b: Check) { TextAgrees(o, a.expression, b.expression) }

  lemma CheckSame(o: Options, a: Check, b: Check)
    ensures CheckNode(o, a, b).status == Same <==> CheckAgrees(o, a, b)
  {
  }

  /** A table as it is referred to, and then the columns it is referred to by. */
  function SpelledRef(f: ForeignKey): string { if f.refSchema == "" then f.refTable else f.refSchema + "." + f.refTable }

  predicate ReferenceAgrees(a: ForeignKey, b: ForeignKey) {
    SpelledRef(a) + " (" + Spelled(a.refColumns) + ")" == SpelledRef(b) + " (" + Spelled(b.refColumns) + ")"
  }

  predicate ForeignKeyAgrees(a: ForeignKey, b: ForeignKey) {
    && Spelled(a.columns) == Spelled(b.columns) && ReferenceAgrees(a, b)
    && a.onDelete == b.onDelete && a.onUpdate == b.onUpdate
  }

  lemma ForeignKeySame(a: ForeignKey, b: ForeignKey)
    ensures ForeignKeyNode(a, b).status == Same <==> ForeignKeyAgrees(a, b)
  {
    ListedIs(a.columns);
    ListedIs(b.columns);
    ListedIs(a.refColumns);
    ListedIs(b.refColumns);
    hide Listed, Spelled;
  }

  /** A name with neither a dot nor a bracket in it. */
  predicate PlainRef(name: string) { '.' !in name && '(' !in name }

  lemma FirstCut(a: string, c: char, x: string, b: string, y: string)
    requires c !in a && c !in b && a + [c] + x == b + [c] + y
    ensures a == b && x == y
  {
    var s := a + [c] + x;
    assert s[|a|] == c && s[|b|] == c;
    assert forall i :: 0 <= i < |a| ==> s[i] == a[i] && a[i] in a;
    assert forall i :: 0 <= i < |b| ==> s[i] == b[i] && b[i] in b;
    assert s[..|a|] == a && s[..|b|] == b;
    assert s[|a| + 1..] == x && s[|b| + 1..] == y;
  }

  /** Of plain names, references agree exactly when schema, table and columns do. */
  lemma ReferenceApart(a: ForeignKey, b: ForeignKey)
    requires PlainRef(a.refSchema) && PlainRef(a.refTable) && PlainRef(b.refSchema) && PlainRef(b.refTable)
    ensures ReferenceAgrees(a, b)
      <==> a.refSchema == b.refSchema && a.refTable == b.refTable && Spelled(a.refColumns) == Spelled(b.refColumns)
  {
    if ReferenceAgrees(a, b) {
      NoBracket(a);
      NoBracket(b);
      BracketedApart(SpelledRef(a), Spelled(a.refColumns), SpelledRef(b), Spelled(b.refColumns));
      DottedApart(a, b);
    }
  }

  lemma NoBracket(f: ForeignKey)
    requires PlainRef(f.refSchema) && PlainRef(f.refTable)
    ensures '(' !in SpelledRef(f)
  {
  }

  lemma BracketedApart(x: string, p: string, y: string, q: string)
    requires '(' !in x && '(' !in y && x + " (" + p + ")" == y + " (" + q + ")"
    ensures x == y && p == q
  {
    var u, v, r, t := x + " ", y + " ", p + ")", q + ")";
    assert x + " (" + p + ")" == u + ['('] + r && y + " (" + q + ")" == v + ['('] + t;
    FirstCut(u, '(', r, v, t);
    assert u[..|u| - 1] == x && v[..|v| - 1] == y && r[..|r| - 1] == p && t[..|t| - 1] == q;
  }

  lemma DottedApart(a: ForeignKey, b: ForeignKey)
    requires PlainRef(a.refSchema) && PlainRef(a.refTable) && PlainRef(b.refSchema) && PlainRef(b.refTable)
    requires SpelledRef(a) == SpelledRef(b)
    ensures a.refSchema == b.refSchema && a.refTable == b.refTable
  {
    if a.refSchema != "" { assert SpelledRef(a)[|a.refSchema|] == '.'; }
    if b.refSchema != "" { assert SpelledRef(b)[|b.refSchema|] == '.'; }
    if a.refSchema != "" && b.refSchema != "" { FirstCut(a.refSchema, '.', a.refTable, b.refSchema, b.refTable); }
  }

  /** One column of an index as it is spelled: its expression in brackets if it has
      one, else its name, and which way it runs. */
  function SpelledOf(c: IndexColumn): string {
    var what := if c.expression == "" then c.name else "(" + c.expression + ")";
    if c.descending then what + " DESC" else what
  }

  function SpelledEach(columns: seq<IndexColumn>): seq<string> {
    if columns == [] then [] else SpelledEach(columns[..|columns| - 1]) + [SpelledOf(columns[|columns| - 1])]
  }

  lemma {:induction false} IndexTextsAre(columns: seq<IndexColumn>)
    ensures IndexColumnTexts(columns) == SpelledEach(columns)
    decreases |columns|
  {
    if columns != [] {
      IndexTextsAre(columns[..|columns| - 1]);
      assert IndexColumnText(columns[|columns| - 1]) == SpelledOf(columns[|columns| - 1]);
      assert IndexColumnTexts(columns) == IndexColumnTexts(columns[..|columns| - 1]) + [IndexColumnText(columns[|columns| - 1])];
    }
  }

  /** A name that cannot be taken for an expression, nor for one that runs down. */
  predicate PlainIndexName(n: string) { (n == "" || n[0] != '(') && (|n| < 5 || n[|n| - 5..] != " DESC") }

  /** Of plain names, two columns of an index are spelled alike exactly when they run
      the same way and are the same expression or, having none, the same name. */
  lemma IndexColumnApart(a: IndexColumn, b: IndexColumn)
    requires PlainIndexName(a.name) && PlainIndexName(b.name)
    ensures SpelledOf(a) == SpelledOf(b)
      <==> a.descending == b.descending && a.expression == b.expression && (a.expression == "" ==> a.name == b.name)
  {
    var x, y := if a.expression == "" then a.name else "(" + a.expression + ")", if b.expression == "" then b.name else "(" + b.expression + ")";
    if SpelledOf(a) == SpelledOf(b) {
      RunsDown(a, x);
      RunsDown(b, y);
      assert (x + " DESC")[..|x|] == x && (y + " DESC")[..|y|] == y;
      if a.expression != "" { assert x[0] == '(' && x[1..|x| - 1] == a.expression; }
      if b.expression != "" { assert y[0] == '(' && y[1..|y| - 1] == b.expression; }
    }
  }

  lemma RunsDown(c: IndexColumn, what: string)
    requires PlainIndexName(c.name) && what == if c.expression == "" then c.name else "(" + c.expression + ")"
    ensures var s := SpelledOf(c); c.descending <==> |s| >= 5 && s[|s| - 5..] == " DESC"
  {
    var s := SpelledOf(c);
    if c.descending {
      assert s[|s| - 5..] == " DESC";
    } else if c.expression != "" {
      assert s[|s| - 1] == ')' && " DESC"[4] == 'C';
      if |s| >= 5 { assert s[|s| - 5..][4] == s[|s| - 1]; }
    }
  }

  ghost predicate IndexAgrees(o: Options, a: Index, b: Index) {
    && Spelled(SpelledEach(a.columns)) == Spelled(SpelledEach(b.columns)) && a.unique == b.unique && a.access == b.access
    && TextAgrees(o, a.predicate_, b.predicate_) && Spelled(a.include_) == Spelled(b.include_) && AttrsAgree(o, a.attrs, b.attrs)
  }

  lemma IndexSame(o: Options, a: Index, b: Index)
    ensures IndexNode(o, a, b).status == Same <==> IndexAgrees(o, a, b)
  {
    IndexTextsAre(a.columns);
    IndexTextsAre(b.columns);
    ListedIs(SpelledEach(a.columns));
    ListedIs(SpelledEach(b.columns));
    ListedIs(a.include_);
    ListedIs(b.include_);
    YesApart(a.unique, b.unique);
    AttrsSame(o, a.attrs, b.attrs);
    hide Yes, Listed, Spelled, SpelledEach, IndexColumnTexts, AttrFields, AttrsOf, AttrsAgree;
  }

  predicate TriggerAgrees(o: Options, a: Trigger, b: Trigger) {
    && a.timing == b.timing && Spelled(a.events) == Spelled(b.events) && a.forEachRow == b.forEachRow
    && TextAgrees(o, a.condition, b.condition) && TextAgrees(o, a.definition, b.definition)
  }

  lemma TriggerSame(o: Options, a: Trigger, b: Trigger)
    ensures TriggerNode(o, a, b).status == Same <==> TriggerAgrees(o, a, b)
  {
    ListedIs(a.events);
    ListedIs(b.events);
    YesApart(a.forEachRow, b.forEachRow);
    hide Yes, Listed, Spelled;
  }

  /** A table's own details. */
  lemma TableDetailSame(o: Options, a: Table, b: Table)
    ensures TableDetail(o, a, b) == [] <==> CommentAgrees(o, a.comment, b.comment) && AttrsAgree(o, a.attrs, b.attrs)
  {
    AttrsSame(o, a.attrs, b.attrs);
    hide AttrFields, AttrsOf, AttrsAgree;
  }

  // ----- what else a schema holds

  predicate ViewDetailAgrees(o: Options, a: View, b: View) {
    a.materialized == b.materialized && TextAgrees(o, a.definition, b.definition) && CommentAgrees(o, a.comment, b.comment)
  }

  lemma ViewDetailSame(o: Options, a: View, b: View)
    ensures ViewNode(o, a, b).detail == [] <==> ViewDetailAgrees(o, a, b)
  {
    YesApart(a.materialized, b.materialized);
    hide Yes, Columns, Indexes;
  }

  /** A routine that returns nothing reads as one that returns a type of no name. */
  predicate RoutineAgrees(o: Options, a: Routine, b: Routine) {
    && a.kind == b.kind && a.language == b.language
    && (if a.returns_.Some? then a.returns_.value.native else "") == (if b.returns_.Some? then b.returns_.value.native else "")
    && TextAgrees(o, a.definition, b.definition) && CommentAgrees(o, a.comment, b.comment)
  }

  lemma RoutineSame(o: Options, a: Routine, b: Routine)
    ensures RoutineNode(o, a, b).status == Same <==> RoutineAgrees(o, a, b)
  {
    hide RoutineName;
  }

  /** Where modes and types can be told apart, routines of one name are matched
      exactly when their parameters have the same ones, in turn: overloads are not. */
  lemma OverloadsApart(a: Routine, b: Routine)
    requires a.name == b.name && Tellable(ParameterTexts(a.parameters)) && Tellable(ParameterTexts(b.parameters))
    ensures RoutineName(a) == RoutineName(b) <==>
      && |a.parameters| == |b.parameters|
      && forall i :: 0 <= i < |a.parameters| ==>
           Trimmed(a.parameters[i].mode + " " + a.parameters[i].typ.native) == Trimmed(b.parameters[i].mode + " " + b.parameters[i].typ.native)
  {
    var x, y := ParameterTexts(a.parameters), ParameterTexts(b.parameters);
    ListedIs(x);
    ListedIs(y);
    SpelledApart(x, y);
    SameInside(a.name, Listed(x), Listed(y));
    hide Listed, Spelled, Trimmed, Tellable;
    if x == y {
      forall i | 0 <= i < |a.parameters|
        ensures Trimmed(a.parameters[i].mode + " " + a.parameters[i].typ.native) == Trimmed(b.parameters[i].mode + " " + b.parameters[i].typ.native)
      {
        assert x[i] == y[i];
      }
    }
  }

  lemma SameInside(name: string, a: string, b: string)
    ensures name + "(" + a + ")" == name + "(" + b + ")" <==> a == b
  {
    var s, t := name + "(" + a + ")", name + "(" + b + ")";
    if s == t { assert s[|name| + 1..|s| - 1] == a && t[|name| + 1..|t| - 1] == b; }
  }

  predicate SequenceAgrees(o: Options, a: Sequence, b: Sequence) {
    && a.dataType == b.dataType && a.start == b.start && a.increment == b.increment && a.minValue == b.minValue
    && a.maxValue == b.maxValue && a.cycle == b.cycle && CommentAgrees(o, a.comment, b.comment)
  }

  lemma SequenceSame(o: Options, a: Sequence, b: Sequence)
    ensures SequenceNode(o, a, b).status == Same <==> SequenceAgrees(o, a, b)
  {
    NumberApart(a.start, b.start);
    NumberApart(a.increment, b.increment);
    BoundApart(a.minValue, b.minValue);
    BoundApart(a.maxValue, b.maxValue);
    YesApart(a.cycle, b.cycle);
    hide Number, Bound, Yes;
  }

  /** The fields of a user type as they are spelled, each a name and its type. */
  function SpelledFields(fs: seq<FieldDef>): seq<string> {
    if fs == [] then [] else SpelledFields(fs[..|fs| - 1]) + [fs[|fs| - 1].name + " " + fs[|fs| - 1].typ.native]
  }

  lemma {:induction false} FieldTextsAre(fs: seq<FieldDef>)
    ensures FieldTexts(fs) == SpelledFields(fs)
    decreases |fs|
  {
    if fs != [] {
      FieldTextsAre(fs[..|fs| - 1]);
      assert FieldTexts(fs) == FieldTexts(fs[..|fs| - 1]) + [fs[|fs| - 1].name + " " + fs[|fs| - 1].typ.native];
    }
  }

  predicate UserTypeAgrees(o: Options, a: UserType, b: UserType) {
    && a.category == b.category && Spelled(a.enumValues) == Spelled(b.enumValues)
    && Spelled(SpelledFields(a.fields)) == Spelled(SpelledFields(b.fields))
    && a.baseType == b.baseType && CommentAgrees(o, a.comment, b.comment)
  }

  lemma UserTypeSame(o: Options, a: UserType, b: UserType)
    ensures UserTypeNode(o, a, b).status == Same <==> UserTypeAgrees(o, a, b)
  {
    ListedIs(a.enumValues);
    ListedIs(b.enumValues);
    FieldTextsAre(a.fields);
    FieldTextsAre(b.fields);
    ListedIs(SpelledFields(a.fields));
    ListedIs(SpelledFields(b.fields));
    hide Listed, Spelled, FieldTexts, SpelledFields;
  }

  lemma SchemaDetailSame(o: Options, a: Schema, b: Schema)
    ensures SchemaNode(o, a, b).detail == []
      <==> a.owner == b.owner && CommentAgrees(o, a.comment, b.comment) && AttrsAgree(o, a.attrs, b.attrs)
  {
    AttrsSame(o, a.attrs, b.attrs);
    hide AttrFields, AttrsOf, AttrsAgree, Matched;
  }

  lemma DatabaseDetailSame(o: Options, a: Database, b: Database)
    ensures Compared(o, a, b).detail == []
      <==> CollationAgrees(o, a.charset, b.charset) && CollationAgrees(o, a.collate, b.collate) && CommentAgrees(o, a.comment, b.comment)
  {
    hide Matched;
  }
}
