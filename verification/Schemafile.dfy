/** Saved models (internal/schemafile): a database written as one file an object
    and read back compares the same, at every node, with the one that was written. */
module Schemafile {
  import opened Diff
  import opened DiffLaws
  import Strings
  import Wrappers

  /** What Unicode says of letters, digits and case. */
  datatype Unicode = Unicode(letterOrDigit: char -> bool, lower: string -> string)

  // ----- names of files (name.go)

  predicate Kept(u: Unicode, c: char) { u.letterOrDigit(c) || c == '.' || c == '-' || c == '_' }

  /** What is left of a name: a dash for each run of what a file name cannot hold. */
  function Cleaned(u: Unicode, name: string, dashed: bool): string {
    if name == "" then ""
    else if Kept(u, name[0]) then [name[0]] + Cleaned(u, name[1..], false)
    else (if dashed then "" else "-") + Cleaned(u, name[1..], true)
  }

  predicate Trims(c: char) { c == '-' || c == '.' || c == ' ' }

  function Trim(s: string): (t: string)
    ensures t != "" ==> !Trims(t[0]) && !Trims(t[|t| - 1])
    ensures forall c :: c in t ==> c in s
  {
    if s == "" then "" else if Trims(s[0]) then Trim(s[1..]) else if Trims(s[|s| - 1]) then Trim(s[..|s| - 1]) else s
  }

  /** Device names. */
  predicate Reserved(s: string) {
    || s == "con" || s == "prn" || s == "aux" || s == "nul"
    || (|s| == 4 && (s[..3] == "com" || s[..3] == "lpt") && '1' <= s[3] <= '9')
  }

  function FileName(u: Unicode, name: string): string {
    var out := Trim(Cleaned(u, name, false));
    if out == "" || Reserved(u.lower(out)) then "_" + out else out
  }

  lemma CleanedNothing(u: Unicode, name: string, dashed: bool)
    requires name == ""
    ensures Cleaned(u, name, dashed) == ""
  {
  }

  lemma CleanStep(u: Unicode, name: string, i: nat, dashed: bool, b: string)
    requires i < |name|
    ensures b + Cleaned(u, name[i..], dashed)
         == if Kept(u, name[i]) then b + [name[i]] + Cleaned(u, name[i + 1..], false)
            else if dashed then b + Cleaned(u, name[i + 1..], true)
            else b + "-" + Cleaned(u, name[i + 1..], true)
  {
    hide Kept;
    assert name[i..][1..] == name[i + 1..];
    assert name[i..][0] == name[i];
  }

  method FileNameOf(u: Unicode, name: string) returns (out: string)
    ensures out == FileName(u, name)
  {
    hide Cleaned;
    var b, dashed := "", false;
    assert name[0..] == name;
    for i := 0 to |name|
      invariant Cleaned(u, name, false) == b + Cleaned(u, name[i..], dashed)
    {
      CleanStep(u, name, i, dashed, b);
      if Kept(u, name[i]) {
        b, dashed := b + [name[i]], false;
      } else if !dashed {
        b, dashed := b + "-", true;
      }
    }
    CleanedNothing(u, name[|name|..], dashed);
    assert b + "" == b;
    out := Trim(b);
    if out == "" || Reserved(u.lower(out)) { out := "_" + out; }
  }

  lemma {:induction false} CleanedKept(u: Unicode, name: string, dashed: bool)
    ensures forall c :: c in Cleaned(u, name, dashed) ==> Kept(u, c)
  {
    if name != "" {
      CleanedKept(u, name[1..], false);
      CleanedKept(u, name[1..], true);
    }
  }

  /** A file name is never empty, never a device, and all of characters that are
      kept, with no dot at either end: it cannot lead out of its directory. */
  lemma FileNameSafe(u: Unicode, name: string)
    ensures var f := FileName(u, name);
      && f != "" && (forall c :: c in f ==> Kept(u, c))
      && f[0] != '.' && f[|f| - 1] != '.'
      && (f[0] == '_' || !Reserved(u.lower(f)))
  {
    CleanedKept(u, name, false);
  }

  /** What is kept stays as it is, and a run of what is not becomes one dash. */
  lemma {:induction false} RunDashed(u: Unicode, a: string, run: string, b: string)
    requires forall c :: c in a ==> Kept(u, c)
    requires (forall c :: c in run ==> !Kept(u, c)) && (b != "" ==> Kept(u, b[0]))
    ensures Cleaned(u, a + run + b, false) == a + (if run == "" then "" else "-") + Cleaned(u, b, false)
    decreases |a|
  {
    hide Kept;
    if a == "" {
      assert "" + run + b == run + b;
      if run == "" { assert run + b == b; } else { RunGone(u, run, b); }
    } else {
      RunDashed(u, a[1..], run, b);
      assert (a + run + b)[1..] == a[1..] + run + b && (a + run + b)[0] == a[0] && a[0] in a;
      assert a == [a[0]] + a[1..];
    }
  }

  lemma {:induction false} RunGone(u: Unicode, run: string, b: string)
    requires (forall c :: c in run ==> !Kept(u, c)) && (b != "" ==> Kept(u, b[0]))
    ensures run != "" ==> Cleaned(u, run + b, false) == "-" + Cleaned(u, b, false)
    ensures Cleaned(u, run + b, true) == Cleaned(u, b, false)
    decreases |run|
  {
    hide Kept;
    if run == "" {
      assert run + b == b;
    } else {
      RunGone(u, run[1..], b);
      assert (run + b)[1..] == run[1..] + b && (run + b)[0] == run[0] && run[0] in run;
    }
  }

  /** A name of what is kept, with no dash, dot or space at an end and no device, is
      its own file's. */
  lemma PlainFile(u: Unicode, name: string)
    requires name != "" && (forall c :: c in name ==> Kept(u, c)) && !Trims(name[0]) && !Trims(name[|name| - 1])
    ensures FileName(u, name) == if Reserved(u.lower(name)) then "_" + name else name
  {
    RunDashed(u, name, "", "");
    assert name + "" + "" == name;
    assert Trim(name) == name;
  }

  /** Names of nothing that is kept are told apart by nothing. */
  lemma NothingKept(u: Unicode, name: string)
    requires forall c :: c in name ==> !Kept(u, c)
    ensures FileName(u, name) == "_"
  {
    RunDashed(u, "", name, "");
    assert "" + name + "" == name;
    assert Trim("") == "" && "-"[1..] == "";
  }

  ghost predicate FilesApart(u: Unicode, names: seq<string>) {
    forall i, j :: 0 <= i < j < |names| ==> u.lower(FileName(u, names[i])) != u.lower(FileName(u, names[j]))
  }

  /** Refuses names whose files could not live side by side, case or no case. */
  method CheckNames(u: Unicode, names: seq<string>) returns (ok: bool)
    ensures ok <==> FilesApart(u, names)
  {
    var seen: map<string, string> := map[];
    for i := 0 to |names|
      invariant FilesApart(u, names[..i])
      invariant forall f :: f in seen <==> exists j :: 0 <= j < i && u.lower(FileName(u, names[j])) == f
    {
      var f := FileNameOf(u, names[i]);
      f := u.lower(f);
      if f in seen { return false; }
      seen := seen[f := names[i]];
    }
    assert names[..|names|] == names;
    return true;
  }

  // ----- the tree of files (schemafile.go)

  const FORMAT := "ikigai-schema/1"
  const DB_FILE := "database.json"

  datatype RootFile = RootFile(format: string, name: string, charset: string, collate: string, comment: string, schemas: seq<string>)
  datatype OwnFile = OwnFile(name: string, owner: string, comment: string, attrs: Attrs)

  /** One schema's directory: its own file, and a directory of each kind of object. */
  datatype SchemaDir = SchemaDir(
    own: OwnFile, tables: map<string, Table>, views: map<string, View>, routines: map<string, Routine>,
    sequences: map<string, Sequence>, types: map<string, UserType>)
  datatype Tree = Tree(root: RootFile, schemas: map<string, SchemaDir>)

  datatype Error = WouldClash | NotADirectory | WrongFormat(format: string) | Missing(dir: string)
  datatype Result<T> = Ok(value: T) | Err(error: Error)

  function RoutineOwnName(r: Routine): string { r.name }

  function File<T>(u: Unicode, name: T -> string, v: T): string { FileName(u, name(v)) + ".json" }

  function Files<T>(u: Unicode, list: seq<T>, name: T -> string): map<string, T> {
    if list == [] then map[]
    else Files(u, list[..|list| - 1], name)[File(u, name, list[|list| - 1]) := list[|list| - 1]]
  }

  method WriteList<T>(u: Unicode, list: seq<T>, name: T -> string) returns (dir: map<string, T>)
    ensures dir == Files(u, list, name)
  {
    dir := map[];
    for i := 0 to |list|
      invariant dir == Files(u, list[..i], name)
    {
      assert list[..i + 1][..i] == list[..i];
      var f := FileNameOf(u, name(list[i]));
      dir := dir[f + ".json" := list[i]];
    }
    assert list[..|list|] == list;
  }

  /** Row estimates are not saved. */
  function Saved(t: Table): Table { t.(rowsEstimate := 0) }
  function Unknown(t: Table): Table { t.(rowsEstimate := -1) }

  function Mapped<T>(list: seq<T>, f: T -> T): (r: seq<T>)
    ensures |r| == |list| && forall i :: 0 <= i < |list| ==> r[i] == f(list[i])
  {
    seq(|list|, i requires 0 <= i < |list| => f(list[i]))
  }

  function DirOf(u: Unicode, s: Schema): SchemaDir {
    SchemaDir(OwnFile(s.name, s.owner, s.comment, s.attrs),
              Files(u, Mapped(s.tables, Saved), TableName),
              Files(u, s.views, ViewName),
              Files(u, s.routines, RoutineOwnName),
              Files(u, s.sequences, SequenceName),
              Files(u, s.userTypes, UserTypeName))
  }

  function DirsOf(u: Unicode, schemas: seq<Schema>): map<string, SchemaDir> {
    if schemas == [] then map[]
    else
      var last := schemas[|schemas| - 1];
      DirsOf(u, schemas[..|schemas| - 1])[FileName(u, last.name) := DirOf(u, last)]
  }

  function Names<T>(list: seq<T>, name: T -> string): (r: seq<string>)
    ensures |r| == |list| && forall i :: 0 <= i < |list| ==> r[i] == name(list[i])
  {
    seq(|list|, i requires 0 <= i < |list| => name(list[i]))
  }

  function TreeOf(u: Unicode, db: Database): Tree {
    Tree(RootFile(FORMAT, db.name, db.charset, db.collate, db.comment, Names(db.schemas, SchemaName)), DirsOf(u, db.schemas))
  }

  ghost predicate SchemaFits(u: Unicode, s: Schema) {
    && FilesApart(u, Names(s.tables, TableName)) && FilesApart(u, Names(s.views, ViewName))
    && FilesApart(u, Names(s.routines, RoutineOwnName)) && FilesApart(u, Names(s.sequences, SequenceName))
    && FilesApart(u, Names(s.userTypes, UserTypeName))
  }

  /** What can be written: no two objects share a file, and no schema's directory
      is where the database's own file is. */
  ghost predicate Fits(u: Unicode, db: Database) {
    && FilesApart(u, Names(db.schemas, SchemaName))
    && (forall s :: s in db.schemas ==> SchemaFits(u, s))
    && forall s :: s in db.schemas ==> FileName(u, s.name) != DB_FILE
  }

  method CheckSchema(u: Unicode, s: Schema) returns (ok: bool)
    ensures ok <==> SchemaFits(u, s)
  {
    ok := CheckNames(u, Names(s.tables, TableName));
    if !ok { return; }
    ok := CheckNames(u, Names(s.views, ViewName));
    if !ok { return; }
    ok := CheckNames(u, Names(s.routines, RoutineOwnName));
    if !ok { return; }
    ok := CheckNames(u, Names(s.sequences, SequenceName));
    if !ok { return; }
    ok := CheckNames(u, Names(s.userTypes, UserTypeName));
  }

  method CheckModel(u: Unicode, db: Database) returns (ok: bool)
    ensures ok <==> FilesApart(u, Names(db.schemas, SchemaName)) && forall s :: s in db.schemas ==> SchemaFits(u, s)
  {
    ok := CheckNames(u, Names(db.schemas, SchemaName));
    if !ok { return; }
    for i := 0 to |db.schemas|
      invariant forall j :: 0 <= j < i ==> SchemaFits(u, db.schemas[j])
    {
      ok := CheckSchema(u, db.schemas[i]);
      if !ok { return; }
    }
    ok := true;
  }

  /** Writes all of a model or, where it cannot be written, nothing. */
  method Write(u: Unicode, db: Database) returns (r: Result<Tree>)
    ensures r.Ok? <==> Fits(u, db)
    ensures r.Ok? ==> r.value == TreeOf(u, db)
  {
    hide SchemaFits, FilesApart, DirOf, FileName;
    var ok := CheckModel(u, db);
    if !ok { return Err(WouldClash); }
    var dirs: map<string, SchemaDir> := map[];
    for i := 0 to |db.schemas|
      invariant dirs == DirsOf(u, db.schemas[..i])
      invariant forall j :: 0 <= j < i ==> FileName(u, db.schemas[j].name) != DB_FILE
    {
      assert db.schemas[..i + 1][..i] == db.schemas[..i];
      var s := db.schemas[i];
      var at := FileNameOf(u, s.name);
      if at == DB_FILE { return Err(NotADirectory); }
      var dir := WriteSchema(u, s);
      dirs := dirs[at := dir];
    }
    assert db.schemas[..|db.schemas|] == db.schemas;
    return Ok(Tree(RootFile(FORMAT, db.name, db.charset, db.collate, db.comment, Names(db.schemas, SchemaName)), dirs));
  }

  method WriteSchema(u: Unicode, s: Schema) returns (dir: SchemaDir)
    ensures dir == DirOf(u, s)
  {
    var tables := WriteList(u, Mapped(s.tables, Saved), TableName);
    var views := WriteList(u, s.views, ViewName);
    var routines := WriteList(u, s.routines, RoutineOwnName);
    var sequences := WriteList(u, s.sequences, SequenceName);
    var types := WriteList(u, s.userTypes, UserTypeName);
    dir := SchemaDir(OwnFile(s.name, s.owner, s.comment, s.attrs), tables, views, routines, sequences, types);
  }

  // ----- reading it back

  predicate IsJson(f: string) { |f| >= 5 && f[|f| - 5..] == ".json" }

  ghost function ReadFiles<T>(files: seq<string>, dir: map<string, T>): seq<T>
    requires forall f :: f in files ==> f in dir
  {
    if files == [] then []
    else
      var last := files[|files| - 1];
      ReadFiles(files[..|files| - 1], dir) + if IsJson(last) then [dir[last]] else []
  }

  /** All the objects in a directory, by file name. */
  ghost function ReadAll<T>(dir: map<string, T>): seq<T> { ReadFiles(Sorted(dir.Keys), dir) }

  method ReadInto<T>(dir: map<string, T>) returns (into: seq<T>)
    ensures into == ReadAll(dir)
  {
    hide Sorted, IsJson;
    var files := SortNames(dir.Keys);
    into := [];
    for i := 0 to |files|
      invariant into == ReadFiles(files[..i], dir)
    {
      assert files[..i + 1][..i] == files[..i];
      if IsJson(files[i]) { into := into + [dir[files[i]]]; }
    }
    assert files[..|files|] == files;
  }

  ghost function SchemaOf(d: SchemaDir): Schema {
    Schema(d.own.name, d.own.owner, d.own.comment, Mapped(ReadAll(d.tables), Unknown), ReadAll(d.views),
           ReadAll(d.routines), ReadAll(d.sequences), ReadAll(d.types), d.own.attrs)
  }

  method ReadSchema(d: SchemaDir) returns (s: Schema)
    ensures s == SchemaOf(d)
  {
    hide ReadAll;
    var tables := ReadInto(d.tables);
    tables := Mapped(tables, Unknown);
    var views := ReadInto(d.views);
    var routines := ReadInto(d.routines);
    var sequences := ReadInto(d.sequences);
    var types := ReadInto(d.types);
    s := Schema(d.own.name, d.own.owner, d.own.comment, tables, views, routines, sequences, types, d.own.attrs);
  }

  ghost predicate ReadsAs(u: Unicode, tree: Tree, db: Database) {
    && db == Database(tree.root.name, tree.root.charset, tree.root.collate, tree.root.comment, db.schemas)
    && |db.schemas| == |tree.root.schemas|
    && forall i :: 0 <= i < |db.schemas| ==>
      var f := FileName(u, tree.root.schemas[i]); f in tree.schemas && db.schemas[i] == SchemaOf(tree.schemas[f])
  }

  method Read(u: Unicode, tree: Tree) returns (r: Result<Database>)
    ensures r.Ok? ==> ReadsAs(u, tree, r.value)
    ensures r.Ok? <==> tree.root.format == FORMAT && forall n :: n in tree.root.schemas ==> FileName(u, n) in tree.schemas
  {
    hide SchemaOf, FileName;
    if tree.root.format != FORMAT { return Err(WrongFormat(tree.root.format)); }
    var schemas: seq<Schema> := [];
    for i := 0 to |tree.root.schemas|
      invariant |schemas| == i
      invariant forall j :: 0 <= j < i ==>
        var f := FileName(u, tree.root.schemas[j]); f in tree.schemas && schemas[j] == SchemaOf(tree.schemas[f])
    {
      var f := FileNameOf(u, tree.root.schemas[i]);
      if f !in tree.schemas { return Err(Missing(f)); }
      var s := ReadSchema(tree.schemas[f]);
      schemas := schemas + [s];
    }
    return Ok(Database(tree.root.name, tree.root.charset, tree.root.collate, tree.root.comment, schemas));
  }

  // ----- what is written reads back

  lemma {:induction false} FilesHold<T(!new)>(u: Unicode, list: seq<T>, name: T -> string)
    requires FilesApart(u, Names(list, name))
    ensures forall f :: f in Files(u, list, name) ==> Files(u, list, name)[f] in list && f == File(u, name, Files(u, list, name)[f])
    ensures forall v :: v in list ==> File(u, name, v) in Files(u, list, name) && Files(u, list, name)[File(u, name, v)] == v
    decreases |list|
  {
    hide FileName;
    if list != [] {
      var init, last := list[..|list| - 1], list[|list| - 1];
      assert list == init + [last];
      var names := Names(list, name);
      assert forall i :: 0 <= i < |init| ==> Names(init, name)[i] == names[i];
      FilesHold(u, init, name);
      forall v | v in init ensures File(u, name, v) != File(u, name, last) {
        var i :| 0 <= i < |init| && init[i] == v;
        assert names[i] == name(v) && names[|init|] == name(last);
        assert FileName(u, name(v)) != FileName(u, name(last));
        Suffixed(FileName(u, name(v)), FileName(u, name(last)));
      }
    }
  }

  lemma Suffixed(a: string, b: string)
    requires a != b
    ensures a + ".json" != b + ".json"
    ensures IsJson(a + ".json")
  {
    assert (a + ".json")[..|a|] == a && (b + ".json")[..|b|] == b;
    assert (a + ".json")[|a|..] == ".json";
  }

  lemma JsonFile<T>(u: Unicode, name: T -> string, v: T)
    ensures IsJson(File(u, name, v))
  {
    var a := FileName(u, name(v));
    assert (a + ".json")[|a|..] == ".json";
  }

  lemma {:induction false} ReadFilesAre<T>(files: seq<string>, dir: map<string, T>)
    requires forall f :: f in files ==> f in dir && IsJson(f)
    ensures |ReadFiles(files, dir)| == |files| && forall i :: 0 <= i < |files| ==> ReadFiles(files, dir)[i] == dir[files[i]]
    decreases |files|
  {
    hide IsJson;
    if files != [] { ReadFilesAre(files[..|files| - 1], dir); }
  }

  lemma ReadAllAre<T(!new)>(u: Unicode, list: seq<T>, name: T -> string) returns (files: seq<string>, got: seq<T>)
    requires FilesApart(u, Names(list, name))
    ensures got == ReadAll(Files(u, list, name)) && |got| == |files|
    ensures forall i :: 0 <= i < |got| ==> got[i] in list && File(u, name, got[i]) == files[i]
    ensures forall i, j :: 0 <= i < j < |files| ==> files[i] != files[j]
    ensures forall v :: v in list ==> File(u, name, v) in files
  {
    var dir := Files(u, list, name);
    FilesHold(u, list, name);
    files := Sorted(dir.Keys);
    hide Sorted, Files, IsJson, File, FilesApart, AtMost;
    forall f | f in files ensures f in dir && IsJson(f) {
      assert f in dir.Keys;
      JsonFile(u, name, dir[f]);
    }
    ReadFilesAre(files, dir);
    SortedIs(dir.Keys);
    got := ReadAll(dir);
    forall i | 0 <= i < |got| ensures got[i] in list && File(u, name, got[i]) == files[i] { assert files[i] in dir.Keys; }
    forall v | v in list ensures File(u, name, v) in files { assert File(u, name, v) in dir.Keys; }
  }

  /** A list written and read is the same things in some order, whatever it is
      that tells them apart. */
  lemma ListBack<T(!new)>(u: Unicode, list: seq<T>, name: T -> string, key: T -> string)
    requires FilesApart(u, Names(list, name)) && Apart(list, key)
    ensures Shuffled(list, ReadAll(Files(u, list, name)), key)
    ensures Indexed(list, key) == Indexed(ReadAll(Files(u, list, name)), key)
  {
    FilesHold(u, list, name);
    var files, got := ReadAllAre(u, list, name);
    hide Files, File, ReadAll, FilesApart, Indexed;
    forall v | v in list ensures v in got { FoundBack(u, list, name, v, files, got); }
    forall i, j | 0 <= i < j < |got| ensures got[i] != got[j] { assert files[i] != files[j]; }
    hide Names;
    ApartBack(list, got, key);
    IndexedShuffled(list, got, key);
  }

  lemma ApartBack<T(!new)>(list: seq<T>, got: seq<T>, key: T -> string)
    requires Apart(list, key) && (forall i :: 0 <= i < |got| ==> got[i] in list) && forall i, j :: 0 <= i < j < |got| ==> got[i] != got[j]
    requires forall v :: v in list ==> v in got
    ensures Apart(got, key) && Shuffled(list, got, key)
  {
    forall i, j | 0 <= i < j < |got| ensures key(got[i]) != key(got[j]) {
      hide Apart;
      if key(got[i]) == key(got[j]) { KeyOf(list, key, got[i], got[j]); }
    }
  }

  lemma FoundBack<T(!new)>(u: Unicode, list: seq<T>, name: T -> string, v: T, files: seq<string>, got: seq<T>)
    requires FilesApart(u, Names(list, name)) && v in list && |got| == |files| && File(u, name, v) in files
    requires forall i :: 0 <= i < |got| ==> got[i] in list && File(u, name, got[i]) == files[i]
    ensures v in got
  {
    FilesHold(u, list, name);
    hide Files, File;
    var i :| 0 <= i < |files| && files[i] == File(u, name, v);
    assert Files(u, list, name)[files[i]] == v && Files(u, list, name)[files[i]] == got[i];
  }

  lemma KeyOf<T(!new)>(list: seq<T>, key: T -> string, a: T, b: T)
    requires Apart(list, key) && a in list && b in list && key(a) == key(b)
    ensures a == b
  {
    var i :| 0 <= i < |list| && list[i] == a;
    var j :| 0 <= j < |list| && list[j] == b;
  }

  lemma NamesApart<T(!new)>(u: Unicode, list: seq<T>, name: T -> string)
    requires FilesApart(u, Names(list, name))
    ensures Apart(list, name)
  {
    var names := Names(list, name);
    forall i, j | 0 <= i < j < |list| ensures name(list[i]) != name(list[j]) {
      assert u.lower(FileName(u, names[i])) != u.lower(FileName(u, names[j]));
    }
  }

  lemma IndexedLast<T(!new)>(list: seq<T>, name: T -> string)
    requires list != []
    ensures var m, last := Indexed(list[..|list| - 1], name), list[|list| - 1];
      Indexed(list, name) == if name(last) in m then m else m[name(last) := last]
  {
  }

  lemma {:induction false} IndexedMapped<T(!new)>(list: seq<T>, f: T -> T, name: T -> string)
    requires forall v :: name(f(v)) == name(v)
    ensures Indexed(Mapped(list, f), name).Keys == Indexed(list, name).Keys
    ensures forall n :: n in Indexed(list, name) ==> Indexed(Mapped(list, f), name)[n] == f(Indexed(list, name)[n])
    decreases |list|
  {
    hide Mapped;
    if list != [] {
      var init, last := list[..|list| - 1], list[|list| - 1];
      IndexedMapped(init, f, name);
      assert Mapped(list, f)[..|list| - 1] == Mapped(init, f);
      IndexedLast(list, name);
      IndexedLast(Mapped(list, f), name);
      hide Indexed;
      assert name(f(last)) == name(last);
      assert name(last) in Indexed(init, name).Keys <==> name(last) in Indexed(Mapped(init, f), name).Keys;
    }
  }

  lemma ForgottenAlike(t: Table)
    ensures TablesAlike()(t, Unknown(Saved(t)))
  {
  }

  /** Tables come back alike: only their row estimates are forgotten. */
  lemma TablesBack(u: Unicode, tables: seq<Table>)
    requires FilesApart(u, Names(tables, TableName))
    ensures AllAlike(Indexed(tables, TableName),
                     Indexed(Mapped(ReadAll(Files(u, Mapped(tables, Saved), TableName)), Unknown), TableName), TablesAlike())
  {
    var saved := Mapped(tables, Saved);
    assert Names(saved, TableName) == Names(tables, TableName);
    NamesApart(u, saved, TableName);
    var back := ReadAll(Files(u, saved, TableName));
    ListBack(u, saved, TableName, TableName);
    IndexedMapped(tables, Saved, TableName);
    IndexedMapped(back, Unknown, TableName);
    hide FilesApart, Files, ReadAll, Indexed, TableAlike, Apart, Mapped, Shuffled;
    var was, now := Indexed(tables, TableName), Indexed(Mapped(back, Unknown), TableName);
    forall n | n in was ensures TablesAlike()(was[n], now[n]) {
      assert n in Indexed(saved, TableName).Keys;
      ForgottenAlike(was[n]);
    }
  }

  /** No two routines of one schema print alike with their parameters, as two of
      different names can; their files tell their own names apart. */
  ghost predicate RoutinesApart(s: Schema) { Apart(s.routines, RoutineName) }

  lemma AlikeParts(a: Schema, b: Schema)
    requires a.name == b.name && a.owner == b.owner && a.comment == b.comment && a.attrs == b.attrs
    requires AllAlike(Indexed(a.tables, TableName), Indexed(b.tables, TableName), TablesAlike())
    requires Indexed(a.views, ViewName) == Indexed(b.views, ViewName)
    requires Indexed(a.routines, RoutineName) == Indexed(b.routines, RoutineName)
    requires Indexed(a.sequences, SequenceName) == Indexed(b.sequences, SequenceName)
    requires Indexed(a.userTypes, UserTypeName) == Indexed(b.userTypes, UserTypeName)
    ensures SchemaAlike(a, b)
  {
    hide Indexed;
    forall v: View ensures ViewsAlike()(v, v) { }
  }

  lemma SchemaBack(u: Unicode, s: Schema)
    requires SchemaFits(u, s) && RoutinesApart(s)
    ensures SchemaAlike(s, SchemaOf(DirOf(u, s)))
  {
    NamesApart(u, s.views, ViewName);
    NamesApart(u, s.sequences, SequenceName);
    NamesApart(u, s.userTypes, UserTypeName);
    hide FilesApart, Files, ReadAll, Indexed, Apart, Shuffled, AllAlike, SchemaAlike, Names;
    TablesBack(u, s.tables);
    ListBack(u, s.views, ViewName, ViewName);
    ListBack(u, s.routines, RoutineOwnName, RoutineName);
    ListBack(u, s.sequences, SequenceName, SequenceName);
    ListBack(u, s.userTypes, UserTypeName, UserTypeName);
    AlikeParts(s, SchemaOf(DirOf(u, s)));
  }

  lemma {:induction false} DirsHold(u: Unicode, schemas: seq<Schema>, i: nat)
    requires FilesApart(u, Names(schemas, SchemaName)) && i < |schemas|
    ensures var f := FileName(u, schemas[i].name); f in DirsOf(u, schemas) && DirsOf(u, schemas)[f] == DirOf(u, schemas[i])
    decreases |schemas|
  {
    hide FileName, DirOf;
    var k := |schemas| - 1;
    var names := Names(schemas, SchemaName);
    if i < k {
      assert forall j :: 0 <= j < k ==> Names(schemas[..k], SchemaName)[j] == names[j];
      DirsHold(u, schemas[..k], i);
      assert u.lower(FileName(u, names[i])) != u.lower(FileName(u, names[k]));
    }
  }

  lemma {:induction false} IndexedPointwise(a: seq<Schema>, b: seq<Schema>)
    requires |a| == |b| && forall i :: 0 <= i < |a| ==> SchemaAlike(a[i], b[i])
    ensures AllAlike(Indexed(a, SchemaName), Indexed(b, SchemaName), SchemasAlike())
    decreases |a|
  {
    hide AllAlike;
    if a != [] {
      IndexedPointwise(a[..|a| - 1], b[..|a| - 1]);
      AlikeNames(a[|a| - 1], b[|a| - 1]);
      hide SchemaAlike;
      assert AllAlike(Indexed(a[..|a| - 1], SchemaName), Indexed(b[..|a| - 1], SchemaName), SchemasAlike());
      AllAlikeMore(Indexed(a[..|a| - 1], SchemaName), Indexed(b[..|a| - 1], SchemaName), a[|a| - 1], b[|a| - 1]);
    } else {
      NoneAlike(Indexed(a, SchemaName), Indexed(b, SchemaName));
    }
  }

  lemma NoneAlike(a: map<string, Schema>, b: map<string, Schema>)
    requires a == map[] == b
    ensures AllAlike(a, b, SchemasAlike())
  {
  }

  lemma AlikeNames(a: Schema, b: Schema)
    requires SchemaAlike(a, b)
    ensures SchemaName(a) == SchemaName(b) && SchemasAlike()(a, b)
  {
  }

  lemma AllAlikeMore(a: map<string, Schema>, b: map<string, Schema>, s: Schema, t: Schema)
    requires AllAlike(a, b, SchemasAlike()) && SchemasAlike()(s, t) && SchemaName(s) == SchemaName(t)
    ensures AllAlike(if SchemaName(s) in a then a else a[SchemaName(s) := s],
                     if SchemaName(t) in b then b else b[SchemaName(t) := t], SchemasAlike())
  {
    hide SchemaAlike;
    assert SchemaName(s) in a.Keys <==> SchemaName(s) in b.Keys;
    assert a[SchemaName(s) := s].Keys == b[SchemaName(t) := t].Keys;
  }

  /** A model that can be written, and whose routines print apart, reads back alike. */
  lemma ReadAlike(u: Unicode, db: Database, back: Database)
    requires Fits(u, db) && (forall s :: s in db.schemas ==> RoutinesApart(s))
    requires ReadsAs(u, TreeOf(u, db), back)
    ensures DatabaseAlike(db, back)
  {
    forall i | 0 <= i < |db.schemas| ensures SchemaAlike(db.schemas[i], back.schemas[i]) {
      DirsHold(u, db.schemas, i);
      SchemaBack(u, db.schemas[i]);
    }
    hide SchemaAlike, SchemaOf, DirOf, Indexed;
    IndexedPointwise(db.schemas, back.schemas);
  }

  // ----- routines that print alike

  ghost function RoutinesBack(u: Unicode, s: Schema): seq<Routine> { ReadAll(Files(u, s.routines, RoutineOwnName)) }

  /** Of the routines that print alike, the one listed first says the same as the
      one whose file sorts first. */
  ghost predicate RoutinesMeet(u: Unicode, o: Options, s: Schema) {
    var was, now := Indexed(s.routines, RoutineName), Indexed(RoutinesBack(u, s), RoutineName);
    forall n :: n in was && n in now && !o.skips(n) ==> RoutineNode(o, was[n], now[n]).status == Same
  }

  ghost predicate AllMeet(u: Unicode, o: Options, db: Database) {
    forall s :: s in db.schemas && s.name !in o.schemas ==> RoutinesMeet(u, o, s)
  }

  lemma SettledSame(n: Node)
    requires n.detail == []
    ensures AllSame(Settled(n)) <==> forall c :: c in n.children ==> AllSame(c)
  {
  }

  /** Either way round two routines are compared, and all the way down. */
  lemma RoutineSame(o: Options, a: Routine, b: Routine)
    ensures AllSame(RoutineNode(o, a, b)) <==> RoutineNode(o, a, b).status == Same
    ensures AllSame(RoutineNode(o, a, b)) <==> AllSame(RoutineNode(o, b, a))
  {
  }

  lemma {:induction false} MatchedInSame<T(!new)>(names: seq<string>, from: map<string, T>, to: map<string, T>,
                                                  kind: T -> Kind, compare: (T, T) -> Node, skip: string -> bool)
    requires forall n :: n in names ==> n in from && n in to
    ensures (forall c :: c in MatchedIn(names, from, to, kind, compare, skip) ==> AllSame(c))
      <==> forall n :: n in names && !skip(n) ==> AllSame(compare(from[n], to[n]))
  {
    if names != [] {
      var init, last := names[..|names| - 1], names[|names| - 1];
      MatchedInSame(init, from, to, kind, compare, skip);
      assert names == init + [last];
      var all, before := MatchedIn(names, from, to, kind, compare, skip), MatchedIn(init, from, to, kind, compare, skip);
      assert all == before + if skip(last) then [] else [compare(from[last], to[last])];
    }
  }

  lemma MatchedSame<T(!new)>(from: seq<T>, to: seq<T>, name: T -> string, kind: T -> Kind, compare: (T, T) -> Node, skip: string -> bool)
    requires Indexed(from, name).Keys == Indexed(to, name).Keys
    ensures (forall c :: c in Matched(from, to, name, kind, compare, skip) ==> AllSame(c))
      <==> forall n :: n in Indexed(from, name) && n in Indexed(to, name) && !skip(n) ==> AllSame(compare(Indexed(from, name)[n], Indexed(to, name)[n]))
  {
    hide Indexed, AllSame;
    var here, there := Indexed(from, name), Indexed(to, name);
    assert here.Keys + there.Keys == here.Keys;
    MatchedInSame(Sorted(here.Keys + there.Keys), here, there, kind, compare, skip);
    assert forall n :: n in Sorted(here.Keys + there.Keys) <==> n in here.Keys;
  }

  /** The same routines come back, in some order. */
  lemma SameRoutines(u: Unicode, s: Schema)
    requires FilesApart(u, Names(s.routines, RoutineOwnName))
    ensures Indexed(s.routines, RoutineName).Keys == Indexed(RoutinesBack(u, s), RoutineName).Keys
  {
    var files, got := ReadAllAre(u, s.routines, RoutineOwnName);
    hide Files, File, ReadAll, FilesApart, Indexed, RoutineName;
    forall v | v in s.routines ensures v in got { FoundBack(u, s.routines, RoutineOwnName, v, files, got); }
    hide Names;
    SameThings(s.routines, got, RoutineName);
  }

  lemma SameThings<T(!new)>(a: seq<T>, b: seq<T>, name: T -> string)
    requires (forall v :: v in a ==> v in b) && forall i :: 0 <= i < |b| ==> b[i] in a
    ensures Indexed(a, name).Keys == Indexed(b, name).Keys
  {
    var was, now := Indexed(a, name), Indexed(b, name);
    hide Indexed;
    forall n ensures n in was.Keys <==> n in now.Keys { assert n in was <==> n in now; }
  }

  lemma SameNames<T(!new)>(a: seq<T>, b: seq<T>, name: T -> string)
    requires |a| == |b| && forall i :: 0 <= i < |a| ==> name(a[i]) == name(b[i])
    ensures Indexed(a, name).Keys == Indexed(b, name).Keys
  {
    var was, now := Indexed(a, name), Indexed(b, name);
    hide Indexed;
    forall n ensures n in was.Keys <==> n in now.Keys {
      if n in was { var i :| 0 <= i < |a| && a[i] == was[n]; assert name(b[i]) == n; }
      if n in now { var i :| 0 <= i < |b| && b[i] == now[n]; assert name(a[i]) == n; }
    }
  }

  lemma RoutinesSame(u: Unicode, o: Options, s: Schema)
    requires FilesApart(u, Names(s.routines, RoutineOwnName))
    ensures (forall c :: c in Matched(s.routines, RoutinesBack(u, s), RoutineName, Fixed(RoutineKind), RoutineBy(o), o.skips) ==> AllSame(c))
      <==> RoutinesMeet(u, o, s)
    ensures (forall c :: c in Matched(RoutinesBack(u, s), s.routines, RoutineName, Fixed(RoutineKind), RoutineBy(o), o.skips) ==> AllSame(c))
      <==> RoutinesMeet(u, o, s)
  {
    var got := RoutinesBack(u, s);
    SameRoutines(u, s);
    MatchedSame(s.routines, got, RoutineName, Fixed(RoutineKind), RoutineBy(o), o.skips);
    MatchedSame(got, s.routines, RoutineName, Fixed(RoutineKind), RoutineBy(o), o.skips);
    hide Indexed, Matched, AllSame, ReadAll, Files, RoutineNode;
    forall a, b ensures AllSame(RoutineBy(o)(a, b)) <==> RoutineNode(o, a, b).status == Same
      ensures AllSame(RoutineBy(o)(a, b)) <==> AllSame(RoutineBy(o)(b, a)) { RoutineSame(o, a, b); }
  }

  /** The schema with its routines as they come back. */
  ghost function Reordered(u: Unicode, s: Schema): Schema { s.(routines := RoutinesBack(u, s)) }

  lemma ReorderedAlike(u: Unicode, s: Schema)
    requires SchemaFits(u, s)
    ensures SchemaAlike(Reordered(u, s), SchemaOf(DirOf(u, s)))
  {
    NamesApart(u, s.views, ViewName);
    NamesApart(u, s.sequences, SequenceName);
    NamesApart(u, s.userTypes, UserTypeName);
    hide FilesApart, Files, ReadAll, Indexed, Apart, Shuffled, AllAlike, SchemaAlike, Names;
    TablesBack(u, s.tables);
    ListBack(u, s.views, ViewName, ViewName);
    ListBack(u, s.sequences, SequenceName, SequenceName);
    ListBack(u, s.userTypes, UserTypeName, UserTypeName);
    AlikeParts(Reordered(u, s), SchemaOf(DirOf(u, s)));
  }

  /** Nothing but their routines can tell the two apart. */
  lemma ReorderedSame(u: Unicode, o: Options, s: Schema)
    requires FilesApart(u, Names(s.routines, RoutineOwnName))
    ensures AllSame(SchemaNode(o, s, Reordered(u, s))) <==> RoutinesMeet(u, o, s)
    ensures AllSame(SchemaNode(o, Reordered(u, s), s)) <==> RoutinesMeet(u, o, s)
  {
    hide Matched, TableNode, ViewNode, AttrFieldsIn, Sorted, RoutinesMeet, ReadAll, Files, FilesApart;
    AttrFieldsSelf(Sorted(AttrsOf(o, s.attrs).Keys + AttrsOf(o, s.attrs).Keys), AttrsOf(o, s.attrs));
    forall v | v in s.tables ensures AllSame(TableBy(o)(v, v)) { TableSelf(o, v); }
    forall v | v in s.views ensures AllSame(ViewBy(o)(v, v)) { ViewSelf(o, v); }
    MatchedSelf(s.tables, TableName, Fixed(TableKind), TableBy(o), o.skips);
    MatchedSelf(s.views, ViewName, KindOfView, ViewBy(o), o.skips);
    MatchedSelf(s.sequences, SequenceName, Fixed(SequenceKind), SequenceBy(o), o.skips);
    MatchedSelf(s.userTypes, UserTypeName, Fixed(UserTypeKind), UserTypeBy(o), o.skips);
    RoutinesSame(u, o, s);
    hide AllSame;
    SchemaParts(o, s, Reordered(u, s));
    SchemaParts(o, Reordered(u, s), s);
  }

  ghost function Parts(o: Options, a: Schema, b: Schema): seq<Node> {
    Matched(a.tables, b.tables, TableName, Fixed(TableKind), TableBy(o), o.skips)
    + Matched(a.views, b.views, ViewName, KindOfView, ViewBy(o), o.skips)
    + Matched(a.routines, b.routines, RoutineName, Fixed(RoutineKind), RoutineBy(o), o.skips)
    + Matched(a.sequences, b.sequences, SequenceName, Fixed(SequenceKind), SequenceBy(o), o.skips)
    + Matched(a.userTypes, b.userTypes, UserTypeName, Fixed(UserTypeKind), UserTypeBy(o), o.skips)
  }

  lemma SchemaParts(o: Options, a: Schema, b: Schema)
    requires a.name == b.name && a.owner == b.owner && a.comment == b.comment && a.attrs == b.attrs
    ensures AllSame(SchemaNode(o, a, b)) <==> forall c :: c in Parts(o, a, b) ==> AllSame(c)
  {
    hide Matched, AttrFieldsIn, Sorted;
    AttrFieldsSelf(Sorted(AttrsOf(o, a.attrs).Keys + AttrsOf(o, a.attrs).Keys), AttrsOf(o, a.attrs));
    SettledSame(Node(SchemaKind, b.name, Same, [], Parts(o, a, b)));
  }

  /** A schema compares the same with what comes back of it, or that with it. */
  ghost predicate SameBack(u: Unicode, o: Options, s: Schema, forth: bool) {
    var back := SchemaOf(DirOf(u, s));
    AllSame(if forth then SchemaNode(o, s, back) else SchemaNode(o, back, s))
  }

  /** A schema compares the same with what comes back of it, either way round,
      exactly when its routines meet. */
  lemma SchemaCompares(u: Unicode, o: Options, s: Schema)
    requires SchemaFits(u, s)
    ensures SameBack(u, o, s, true) <==> RoutinesMeet(u, o, s)
    ensures SameBack(u, o, s, false) <==> RoutinesMeet(u, o, s)
  {
    ReorderedAlike(u, s);
    ReorderedSame(u, o, s);
    hide SchemaOf, DirOf, SchemaAlike, SchemaNode, AllSame, RoutinesMeet;
    SchemaSelfAlike(s);
    SchemaNodesAlike(o, s, Reordered(u, s), s, SchemaOf(DirOf(u, s)));
    SchemaNodesAlike(o, Reordered(u, s), s, SchemaOf(DirOf(u, s)), s);
  }

  lemma SchemaSelfAlike(s: Schema)
    ensures SchemaAlike(s, s)
  {
    hide Indexed;
  }

  /** Every model that can be written reads back, and compares the same with the
      one that was written at every node, either way round, exactly when of the
      routines of a schema compared that print alike, the one listed first says the
      same as the one whose file sorts first. */
  lemma WriteRead(u: Unicode, o: Options, db: Database, back: Database)
    requires Fits(u, db) && ReadsAs(u, TreeOf(u, db), back)
    ensures AllSame(Compared(o, db, back)) <==> AllMeet(u, o, db)
    ensures AllSame(Compared(o, back, db)) <==> AllMeet(u, o, db)
  {
    hide Fits, ReadsAs, TreeOf, Compared, AllMeet, SchemasSame, Paired;
    SchemasPaired(u, db, back);
    SchemasCompare(u, o, db, back);
    SameTexts(u, db, back);
    DatabaseParts(o, db, back);
    DatabaseParts(o, back, db);
  }

  ghost predicate SchemasSame(o: Options, a: seq<Schema>, b: seq<Schema>) {
    forall c :: c in Matched(a, b, SchemaName, Fixed(SchemaKind), SchemaBy(o), SkipSchema(o)) ==> AllSame(c)
  }

  /** The schemas compare the same exactly when the routines of each do. */
  lemma SchemasCompare(u: Unicode, o: Options, db: Database, back: Database)
    requires Fits(u, db) && Paired(u, db, back)
    ensures SchemasSame(o, db.schemas, back.schemas) <==> AllMeet(u, o, db)
    ensures SchemasSame(o, back.schemas, db.schemas) <==> AllMeet(u, o, db)
  {
    ByName(u, o, db, back);
    BackMeet(u, o, db);
    hide AllMeet, AllBack, ForthBy, SchemasSame, Indexed;
    assert Indexed(db.schemas, SchemaName).Keys == Indexed(back.schemas, SchemaName).Keys;
    MatchedForth(o, db.schemas, back.schemas);
    MatchedForth(o, back.schemas, db.schemas);
  }

  lemma MatchedForth(o: Options, a: seq<Schema>, b: seq<Schema>)
    requires Indexed(a, SchemaName).Keys == Indexed(b, SchemaName).Keys
    ensures SchemasSame(o, a, b) <==> ForthBy(o, Indexed(a, SchemaName), Indexed(b, SchemaName))
  {
    MatchedSame(a, b, SchemaName, Fixed(SchemaKind), SchemaBy(o), SkipSchema(o));
  }

  lemma BackMeet(u: Unicode, o: Options, db: Database)
    requires Fits(u, db)
    ensures AllBack(u, o, db, true) <==> AllMeet(u, o, db)
    ensures AllBack(u, o, db, false) <==> AllMeet(u, o, db)
  {
    hide SchemaFits, FilesApart, RoutinesMeet, SameBack;
    forall s | s in db.schemas
      ensures SameBack(u, o, s, true) <==> RoutinesMeet(u, o, s)
      ensures SameBack(u, o, s, false) <==> RoutinesMeet(u, o, s)
    {
      SchemaCompares(u, o, s);
    }
  }

  ghost predicate ForthBy(o: Options, was: map<string, Schema>, now: map<string, Schema>) {
    forall n :: n in was && n in now && !SkipSchema(o)(n) ==> AllSame(SchemaBy(o)(was[n], now[n]))
  }

  ghost predicate AllBack(u: Unicode, o: Options, db: Database, forth: bool) {
    forall s :: s in db.schemas && s.name !in o.schemas ==> SameBack(u, o, s, forth)
  }

  lemma ByName(u: Unicode, o: Options, db: Database, back: Database)
    requires Paired(u, db, back)
    ensures ForthBy(o, Indexed(db.schemas, SchemaName), Indexed(back.schemas, SchemaName)) <==> AllBack(u, o, db, true)
    ensures ForthBy(o, Indexed(back.schemas, SchemaName), Indexed(db.schemas, SchemaName)) <==> AllBack(u, o, db, false)
  {
    var was, now := Indexed(db.schemas, SchemaName), Indexed(back.schemas, SchemaName);
    hide Indexed, SchemaNode, AllSame, SchemaOf, DirOf;
    forall n | n in was && n in now && !SkipSchema(o)(n)
      ensures was[n] in db.schemas && was[n].name !in o.schemas
      ensures AllSame(SchemaBy(o)(was[n], now[n])) <==> SameBack(u, o, was[n], true)
      ensures AllSame(SchemaBy(o)(now[n], was[n])) <==> SameBack(u, o, was[n], false)
    {
      var s := was[n];
      assert s in db.schemas && s.name == n && now[n] == SchemaOf(DirOf(u, s));
    }
    forall s | s in db.schemas && s.name !in o.schemas
      ensures s.name in was && s.name in now && was[s.name] == s && !SkipSchema(o)(s.name) { }
    hide SameBack, Paired;
  }

  lemma SameTexts(u: Unicode, db: Database, back: Database)
    requires ReadsAs(u, TreeOf(u, db), back)
    ensures back.charset == db.charset && back.collate == db.collate && back.comment == db.comment
  {
    hide SchemaOf, DirsOf;
  }

  lemma DatabaseParts(o: Options, a: Database, b: Database)
    requires a.charset == b.charset && a.collate == b.collate && a.comment == b.comment
    ensures AllSame(Compared(o, a, b))
      <==> SchemasSame(o, a.schemas, b.schemas)
  {
    hide Matched, SchemaNode;
    SettledSame(Node(DatabaseKind, if b.name != "" then b.name else a.name, Same, [],
                     Matched(a.schemas, b.schemas, SchemaName, Fixed(SchemaKind), SchemaBy(o), SkipSchema(o))));
  }

  /** By its name, each schema written is found, and as what it comes back as. */
  ghost predicate Paired(u: Unicode, db: Database, back: Database) {
    var was, now := Indexed(db.schemas, SchemaName), Indexed(back.schemas, SchemaName);
    && was.Keys == now.Keys
    && (forall s :: s in db.schemas ==> s.name in was && s.name in now && was[s.name] == s && now[s.name] == SchemaOf(DirOf(u, s)))
    && (forall n :: n in was ==> was[n] in db.schemas && was[n].name == n)
  }

  lemma BackAt(u: Unicode, db: Database, back: Database, i: nat)
    requires FilesApart(u, Names(db.schemas, SchemaName)) && ReadsAs(u, TreeOf(u, db), back) && i < |db.schemas|
    ensures |back.schemas| == |db.schemas| && back.schemas[i] == SchemaOf(DirOf(u, db.schemas[i]))
    ensures back.schemas[i].name == db.schemas[i].name
  {
    DirsHold(u, db.schemas, i);
  }

  lemma SchemasPaired(u: Unicode, db: Database, back: Database)
    requires Fits(u, db) && ReadsAs(u, TreeOf(u, db), back)
    ensures Paired(u, db, back)
  {
    NamesApart(u, db.schemas, SchemaName);
    assert |back.schemas| == |db.schemas|;
    hide SchemaOf, DirOf, DirsOf, Indexed, FilesApart, SchemaFits, ReadsAs, TreeOf;
    forall i | 0 <= i < |db.schemas|
      ensures back.schemas[i] == SchemaOf(DirOf(u, db.schemas[i])) && back.schemas[i].name == db.schemas[i].name
    {
      BackAt(u, db, back, i);
    }
    hide Fits;
    ZippedPaired(u, db, back);
  }

  lemma ZippedPaired(u: Unicode, db: Database, back: Database)
    requires Apart(db.schemas, SchemaName) && |back.schemas| == |db.schemas|
    requires forall i :: 0 <= i < |db.schemas| ==>
               back.schemas[i] == SchemaOf(DirOf(u, db.schemas[i])) && back.schemas[i].name == db.schemas[i].name
    ensures Paired(u, db, back)
  {
    hide SchemaOf, DirOf, Indexed;
    var was, now := Indexed(db.schemas, SchemaName), Indexed(back.schemas, SchemaName);
    assert Apart(back.schemas, SchemaName);
    forall i | 0 <= i < |db.schemas|
      ensures var s := db.schemas[i]; s.name in was && s.name in now && was[s.name] == s && now[s.name] == back.schemas[i]
    {
      IndexedHolds(db.schemas, SchemaName, db.schemas[i]);
      IndexedHolds(back.schemas, SchemaName, back.schemas[i]);
    }
    hide Apart;
    SameNames(db.schemas, back.schemas, SchemaName);
  }

  /** Routines that print apart meet. */
  lemma ApartMeet(u: Unicode, o: Options, s: Schema)
    requires FilesApart(u, Names(s.routines, RoutineOwnName)) && RoutinesApart(s)
    ensures RoutinesMeet(u, o, s)
  {
    ListBack(u, s.routines, RoutineOwnName, RoutineName);
  }

  // ----- two routines that print alike

  function LowerCase(s: string): string {
    seq(|s|, i requires 0 <= i < |s| => if 'A' <= s[i] <= 'Z' then (s[i] as int + 32) as char else s[i])
  }

  function Ascii(): Unicode {
    Unicode((c: char) => 'a' <= c <= 'z' || 'A' <= c <= 'Z' || '0' <= c <= '9', LowerCase)
  }

  function Taking(name: string, typ: string, language: string): Routine {
    Routine(name, "function", language, [Parameter("x", DataType(typ, true, ""), "", "", false)], Wrappers.None, "", "")
  }

  /** A dash of the name's own stands beside the one written for what follows it. */
  lemma DashesStand()
    ensures FileName(Ascii(), "a- b") == "a--b"
  {
    var u := Ascii();
    assert "a- b"[1..] == "- b" && "- b"[1..] == " b" && " b"[1..] == "b" && "b"[1..] == "";
    assert Cleaned(u, "b", true) == "b" && Cleaned(u, " b", false) == "-b" && Cleaned(u, "- b", false) == "--b";
    assert Cleaned(u, "a- b", false) == "a--b";
    assert Trim("a--b") == "a--b";
    assert LowerCase("a--b") == "a--b";
  }

  /** `f` of an `a(b` and `f(a` of a `b`. */
  function Clashing(): seq<Routine> { [Taking("f", "a(b", "sql"), Taking("f(a", "b", "c")] }

  lemma TakingPrints(name: string, typ: string, language: string)
    requires typ != "" && !Strings.Space(typ[0]) && !Strings.Space(typ[|typ| - 1])
    ensures RoutineName(Taking(name, typ, language)) == name + "(" + typ + ")"
  {
    var p := Parameter("x", DataType(typ, true, ""), "", "", false);
    var text := "" + " " + typ;
    assert text[1..] == typ && text[0] == ' ';
    assert Strings.Trimmed(typ) == typ && Strings.Trimmed(text) == typ;
    assert ParameterTexts([p])[0] == typ;
    assert ParameterTexts([p]) == [typ];
  }

  lemma ClashingPrint()
    ensures RoutineName(Clashing()[0]) == RoutineName(Clashing()[1]) == "f(a(b)"
  {
    TakingPrints("f", "a(b", "sql");
    TakingPrints("f(a", "b", "c");
    assert "f" + "(" + "a(b" + ")" == "f(a(b)" == "f(a" + "(" + "b" + ")";
  }

  lemma ClashingFiles()
    ensures FileName(Ascii(), "f") == "f" && FileName(Ascii(), "f(a") == "f-a"
    ensures Ascii().lower("f") == "f" && Ascii().lower("f-a") == "f-a"
  {
    var u := Ascii();
    assert "f"[1..] == "" && "f(a"[1..] == "(a" && "(a"[1..] == "a" && "a"[1..] == "";
    assert Cleaned(u, "a", true) == "a" by { assert Cleaned(u, "", false) == ""; }
    assert Cleaned(u, "(a", false) == "-a";
    assert Cleaned(u, "f(a", false) == "f-a";
    assert Cleaned(u, "f", false) == "f";
    assert LowerCase("f") == "f" && LowerCase("f-a") == "f-a";
  }

  lemma ClashingNames()
    ensures |Clashing()| == 2
    ensures File(Ascii(), RoutineOwnName, Clashing()[0]) == "f.json" && File(Ascii(), RoutineOwnName, Clashing()[1]) == "f-a.json"
    ensures FilesApart(Ascii(), Names(Clashing(), RoutineOwnName))
    ensures "f.json"[1] != "f-a.json"[1]
  {
    ClashingFiles();
    hide FileName, LowerCase;
    assert "f"[..] == "f" && |"f"| != |"f-a"|;
  }

  lemma ClashingBack(s: Schema)
    requires s.routines == Clashing()
    ensures FilesApart(Ascii(), Names(s.routines, RoutineOwnName))
    ensures RoutinesBack(Ascii(), s) == [Clashing()[1], Clashing()[0]]
  {
    var u, r := Ascii(), Clashing();
    ClashingFiles();
    ClashingNames();
    hide FileName, LowerCase, Clashing, Ascii, RoutineOwnName;
    var f, g := File(u, RoutineOwnName, r[0]), File(u, RoutineOwnName, r[1]);
    JsonFile(u, RoutineOwnName, r[0]);
    JsonFile(u, RoutineOwnName, r[1]);
    FilesTwo(u, r);
    TwoSorted(f, g);
    ReadTwo(Files(u, r, RoutineOwnName), f, g);
  }

  lemma ReadTwo(dir: map<string, Routine>, f: string, g: string)
    requires dir.Keys == {f, g} && Sorted({f, g}) == [g, f] && IsJson(f) && IsJson(g)
    ensures ReadAll(dir) == [dir[g], dir[f]]
  {
    hide IsJson, Sorted;
    assert f in dir.Keys && g in dir.Keys;
    assert [g, f][..1] == [g] && [g][..0] == [];
    assert ReadFiles([g], dir) == [dir[g]];
    assert ReadFiles([g, f], dir) == [dir[g]] + [dir[f]];
  }

  lemma FilesTwo(u: Unicode, r: seq<Routine>)
    requires |r| == 2 && File(u, RoutineOwnName, r[0]) != File(u, RoutineOwnName, r[1])
    ensures Files(u, r, RoutineOwnName) == map[File(u, RoutineOwnName, r[0]) := r[0], File(u, RoutineOwnName, r[1]) := r[1]]
    ensures Files(u, r, RoutineOwnName).Keys == {File(u, RoutineOwnName, r[0]), File(u, RoutineOwnName, r[1])}
  {
    hide File;
    assert r[..1] == [r[0]] && r[..1][..0] == [];
    assert Files(u, r[..1][..0], RoutineOwnName) == map[];
    assert Files(u, r[..1], RoutineOwnName) == map[File(u, RoutineOwnName, r[0]) := r[0]];
  }

  lemma TwoSorted(f: string, g: string)
    requires f == "f.json" && g == "f-a.json"
    ensures Sorted({f, g}) == [g, f]
  {
    assert f[1..] == ".json" && g[1..] == "-a.json";
    assert AtMost(g, f);
    AtMostTotal(g, g);
    AtMostTotal(f, f);
    assert g != f && {f, g} - {g} == {f};
    LeastFirst(g, {f, g});
    LeastFirst(f, {f});
    assert {f} - {f} == {};
  }

  /** A model with both can be written, and what reads back of it does not compare
      the same: the one of the two that counts is not the one that was. */
  lemma RoutinesClash(o: Options, back: Database) returns (db: Database)
    requires !o.skips("f(a(b)") && "s" !in o.schemas
    ensures Fits(Ascii(), db)
    ensures ReadsAs(Ascii(), TreeOf(Ascii(), db), back) ==> !AllSame(Compared(o, db, back))
  {
    var s := Schema("s", "", "", [], [], Clashing(), [], [], map[]);
    db := Database("d", "", "", "", [s]);
    ClashingBack(s);
    ClashingMeet(o, s);
    SchemaFile(s);
    OneSchema(Ascii(), o, db, s, back);
  }

  lemma OneSchema(u: Unicode, o: Options, db: Database, s: Schema, back: Database)
    requires db.schemas == [s] && s.name !in o.schemas && SchemaFits(u, s)
    requires FilesApart(u, Names([s], SchemaName)) && FileName(u, s.name) != DB_FILE && !RoutinesMeet(u, o, s)
    ensures Fits(u, db)
    ensures ReadsAs(u, TreeOf(u, db), back) ==> !AllSame(Compared(o, db, back))
  {
    hide SchemaFits, FilesApart, FileName, RoutinesMeet, Compared, ReadsAs, AllSame, TreeOf;
    assert db.schemas[0] == s && s in db.schemas;
    assert !AllMeet(u, o, db);
    if ReadsAs(u, TreeOf(u, db), back) { WriteRead(u, o, db, back); }
  }

  lemma SchemaFile(s: Schema)
    requires s.name == "s" && s.tables == [] && s.views == [] && s.sequences == [] && s.userTypes == []
    ensures FileName(Ascii(), s.name) == "s" != DB_FILE
    ensures FilesApart(Ascii(), Names(s.tables, TableName)) && FilesApart(Ascii(), Names(s.views, ViewName))
    ensures FilesApart(Ascii(), Names(s.sequences, SequenceName)) && FilesApart(Ascii(), Names(s.userTypes, UserTypeName))
    ensures FilesApart(Ascii(), Names([s], SchemaName))
  {
    assert "s"[1..] == "";
    assert Cleaned(Ascii(), "s", false) == "s";
    assert LowerCase("s") == "s" && |"s"| == 1 && |DB_FILE| == 13;
  }

  lemma ClashingMeet(o: Options, s: Schema)
    requires s.routines == Clashing() && !o.skips("f(a(b)") && RoutinesBack(Ascii(), s) == [Clashing()[1], Clashing()[0]]
    ensures !RoutinesMeet(Ascii(), o, s)
  {
    var r := Clashing();
    ClashingPrint();
    hide RoutineName, RoutinesBack;
    assert r[..1] == [r[0]] && r[..1][..0] == [];
    var back := [r[1], r[0]];
    assert back[..1] == [r[1]] && back[..1][..0] == [];
    assert Indexed(r, RoutineName)["f(a(b)"] == r[0] && Indexed(back, RoutineName)["f(a(b)"] == r[1];
    assert "sql"[0] != "c"[0];
    assert r[0].language != r[1].language;
    var n := RoutineNode(o, r[0], r[1]);
    assert Field("language", r[0].language, r[1].language) in n.detail;
  }

  /** And it does read back: what Read asks of a tree, Write has put there. */
  lemma WrittenReads(u: Unicode, db: Database)
    requires Fits(u, db)
    ensures var tree := TreeOf(u, db);
      tree.root.format == FORMAT && forall n :: n in tree.root.schemas ==> FileName(u, n) in tree.schemas
  {
    var tree := TreeOf(u, db);
    forall n | n in tree.root.schemas ensures FileName(u, n) in tree.schemas {
      var i :| 0 <= i < |db.schemas| && tree.root.schemas[i] == n;
      DirsHold(u, db.schemas, i);
    }
  }
}
