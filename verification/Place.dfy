/** Reading the id of a node back (internal/diff/diff.go:400-403 and
    internal/app/sync.go:148-173): the id of an object is its place, and place
    reads it by its slashes. */
module Place {
  import opened Diff
  import opened Strings
  import opened Wrappers

  function KindText(k: Kind): (s: string)
    ensures '/' !in s && ':' !in s
  {
    match k
    case DatabaseKind => "database"
    case SchemaKind => "schema"
    case TableKind => "table"
    case ViewKind => "view"
    case MaterializedViewKind => "materialized_view"
    case RoutineKind => "routine"
    case SequenceKind => "sequence"
    case UserTypeKind => "user_type"
    case ColumnKind => "column"
    case PrimaryKeyKind => "primary_key"
    case UniqueKind => "unique"
    case ForeignKeyKind => "foreign_key"
    case CheckKind => "check"
    case IndexKind => "index"
    case TriggerKind => "trigger"
  }

  /** One step of an id: a kind and a name. */
  function Step(k: Kind, name: string): string { KindText(k) + ":" + name }
  function ID(parent: string, k: Kind, name: string): string { parent + "/" + Step(k, name) }

  function Split(s: string): (parts: seq<string>)
    ensures |parts| > 0
  {
    if s == "" then [""]
    else
      var rest := Split(s[1..]);
      if s[0] == '/' then [""] + rest else [[s[0]] + rest[0]] + rest[1..]
  }

  /** Before and after the first colon. */
  function Cut(s: string): (string, string) {
    if s == "" then ("", "") else if s[0] == ':' then ("", s[1..])
    else var (a, b) := Cut(s[1..]); ([s[0]] + a, b)
  }

  datatype Read = Read(schema: string, object_: string, owner: Option<(string, string)>)

  function PlaceOf(id: string): Option<Read> {
    var steps := Split(if "/" <= id then id[1..] else id);
    if |steps| < 3 then None
    else
      var object_ := "/" + Joined(steps[..3], "/");
      Some(Read(Cut(steps[1]).1, object_, if |steps| == 3 then None else Some(Cut(steps[2]))))
  }

  lemma {:induction false} SplitAt(a: string, b: string)
    ensures Split(a + "/" + b) == Split(a) + Split(b)
  {
    if a == "" {
      assert "" + "/" + b == "/" + b;
      assert ("/" + b)[1..] == b;
    } else {
      var s := a + "/" + b;
      assert s[1..] == a[1..] + "/" + b;
      SplitAt(a[1..], b);
    }
  }

  lemma {:induction false} SplitOne(s: string)
    ensures |Split(s)| == 1 <==> '/' !in s
    ensures '/' !in s ==> Split(s) == [s]
  {
    if s != "" {
      SplitOne(s[1..]);
      assert s == [s[0]] + s[1..];
    }
  }

  lemma {:induction false} JoinSplit(s: string)
    ensures Joined(Split(s), "/") == s
  {
    if s != "" {
      JoinSplit(s[1..]);
      var rest := Split(s[1..]);
      if s[0] == '/' {
        assert ([""] + rest)[1..] == rest;
        assert s == "/" + s[1..];
      } else {
        assert ([[s[0]] + rest[0]] + rest[1..])[1..] == rest[1..];
        assert s == [s[0]] + s[1..];
      }
    }
  }

  lemma {:induction false} CutAfter(k: string, name: string)
    requires ':' !in k
    ensures Cut(k + ":" + name) == (k, name)
  {
    if k == "" {
      assert "" + ":" + name == ":" + name;
    } else {
      var s := k + ":" + name;
      assert s[1..] == k[1..] + ":" + name;
      CutAfter(k[1..], name);
      assert k == [k[0]] + k[1..];
    }
  }

  predicate Plain(name: string) { '/' !in name }

  lemma StepSplits(k: Kind, name: string)
    ensures |Split(Step(k, name))| == 1 <==> Plain(name)
    ensures Plain(name) ==> Split(Step(k, name)) == [Step(k, name)]
  {
    SplitOne(Step(k, name));
    assert forall c :: c in Step(k, name) <==> c in KindText(k) || c == ':' || c in name;
  }

  lemma Slashed(a: string, b: string, c: string)
    ensures var id := "" + "/" + a + "/" + b + "/" + c;
      "/" <= id && id[1..] == a + "/" + b + "/" + c && id == "/" + (a + "/" + b + "/" + c)
  {
    assert "" + "/" + a + "/" + b + "/" + c == "/" + (a + "/" + b + "/" + c);
  }

  /** The steps of an object's id, and its own id. */
  lemma ObjectSteps(db: string, schema: string, k: Kind, name: string)
    ensures var id := ID(ID(ID("", DatabaseKind, db), SchemaKind, schema), k, name);
      && "/" <= id
      && Split(id[1..]) == Split(Step(DatabaseKind, db)) + Split(Step(SchemaKind, schema)) + Split(Step(k, name))
      && id == "/" + Joined(Split(id[1..]), "/")
  {
    var a, b, c := Step(DatabaseKind, db), Step(SchemaKind, schema), Step(k, name);
    var id := ID(ID(ID("", DatabaseKind, db), SchemaKind, schema), k, name);
    hide Step, Split, Joined;
    Slashed(a, b, c);
    SplitAt(a + "/" + b, c);
    SplitAt(a, b);
    JoinSplit(id[1..]);
  }

  /** An object's id reads back as the object, and as nothing inside one,
      exactly when no name on the way to it holds a slash. */
  lemma ObjectReads(db: string, schema: string, k: Kind, name: string)
    ensures var id := ID(ID(ID("", DatabaseKind, db), SchemaKind, schema), k, name);
      PlaceOf(id) == Some(Read(schema, id, None)) <==> Plain(db) && Plain(schema) && Plain(name)
  {
    ObjectSteps(db, schema, k, name);
    StepSplits(DatabaseKind, db);
    StepSplits(SchemaKind, schema);
    StepSplits(k, name);
    CutAfter(KindText(SchemaKind), schema);
    var id := ID(ID(ID("", DatabaseKind, db), SchemaKind, schema), k, name);
    assert Split(id[1..])[..|Split(id[1..])|] == Split(id[1..]);
  }

  /** The first three of more steps are less than the whole. */
  lemma {:induction false} FewerJoined(parts: seq<string>, n: nat)
    requires 0 < n < |parts|
    ensures |Joined(parts[..n], "/")| < |Joined(parts, "/")|
  {
    if n > 1 {
      FewerJoined(parts[1..], n - 1);
      assert parts[..n][1..] == parts[1..][..n - 1] && parts[..n][0] == parts[0];
    } else {
      assert parts[..1] == [parts[0]] && [parts[0]][1..] == [];
    }
  }

  /** The id of something inside an object, whatever it is called itself, reads back
      as inside that object exactly when no name on the way to the object holds a
      slash. */
  lemma PartReads(db: string, schema: string, k: Kind, name: string, part: Kind, partName: string)
    ensures var id := ID(ID(ID("", DatabaseKind, db), SchemaKind, schema), k, name);
      (PlaceOf(ID(id, part, partName)) == Some(Read(schema, id, Some((KindText(k), name)))))
      <==> Plain(db) && Plain(schema) && Plain(name)
  {
    ObjectSteps(db, schema, k, name);
    StepSplits(DatabaseKind, db);
    StepSplits(SchemaKind, schema);
    StepSplits(k, name);
    CutAfter(KindText(SchemaKind), schema);
    CutAfter(KindText(k), name);
    var id := ID(ID(ID("", DatabaseKind, db), SchemaKind, schema), k, name);
    var last, steps := Step(part, partName), Split(id[1..]);
    assert (id + "/" + last)[1..] == id[1..] + "/" + last;
    if |steps| > 3 { FewerJoined(steps, 3); }
    hide Split, Joined, Cut, KindText;
    SplitAt(id[1..], last);
    assert (steps + Split(last))[..3] == steps[..3];
    if Plain(db) && Plain(schema) && Plain(name) { assert steps[..3] == steps; }
  }

  /** No two kinds are written alike. */
  lemma KindsApart(a: Kind, b: Kind)
    ensures KindText(a) == KindText(b) <==> a == b
  {
    if KindText(a) == KindText(b) { assert |KindText(a)| == |KindText(b)| && KindText(a)[0] == KindText(b)[0] && KindText(a)[1] == KindText(b)[1]; }
  }

  /** An id names one object: with no slash in any name, two ids are the same
      exactly when kind and names are, all the way down. */
  lemma IdsApart(db: string, schema: string, k: Kind, name: string, db2: string, schema2: string, k2: Kind, name2: string)
    requires Plain(db) && Plain(schema) && Plain(name) && Plain(db2) && Plain(schema2) && Plain(name2)
    ensures ID(ID(ID("", DatabaseKind, db), SchemaKind, schema), k, name) == ID(ID(ID("", DatabaseKind, db2), SchemaKind, schema2), k2, name2)
      <==> db == db2 && schema == schema2 && k == k2 && name == name2
  {
    var id, id2 := ID(ID(ID("", DatabaseKind, db), SchemaKind, schema), k, name), ID(ID(ID("", DatabaseKind, db2), SchemaKind, schema2), k2, name2);
    if id == id2 {
      PlainSteps(db, schema, k, name);
      PlainSteps(db2, schema2, k2, name2);
      var steps := Split(id[1..]);
      assert steps[0] == Step(DatabaseKind, db) == Step(DatabaseKind, db2);
      assert steps[1] == Step(SchemaKind, schema) == Step(SchemaKind, schema2);
      assert steps[2] == Step(k, name) == Step(k2, name2);
      hide Split, KindText;
      CutAfter(KindText(DatabaseKind), db);
      CutAfter(KindText(DatabaseKind), db2);
      CutAfter(KindText(SchemaKind), schema);
      CutAfter(KindText(SchemaKind), schema2);
      CutAfter(KindText(k), name);
      CutAfter(KindText(k2), name2);
      KindsApart(k, k2);
    }
  }

  lemma PlainSteps(db: string, schema: string, k: Kind, name: string)
    requires Plain(db) && Plain(schema) && Plain(name)
    ensures var id := ID(ID(ID("", DatabaseKind, db), SchemaKind, schema), k, name);
      |id| > 0 && Split(id[1..]) == [Step(DatabaseKind, db), Step(SchemaKind, schema), Step(k, name)]
  {
    ObjectSteps(db, schema, k, name);
    StepSplits(DatabaseKind, db);
    StepSplits(SchemaKind, schema);
    StepSplits(k, name);
  }
}
