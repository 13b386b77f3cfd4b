/** What completion knows of a connection's objects (internal/app/schema.go):
    lookups answer from memory, loads run beside them and land later, and an
    Invalidate may come at any moment. A load puts several questions to the
    source, each at its own time and each of which may fail. Each of these is one
    step, and a run is any order of them. */
module SchemaCache {
  import opened Wrappers

  // ----- what the source is asked

  datatype Kind = Database | Schema | Folder | Table | View | MaterializedView | Column | Routine | Other

  /** A node the source lists. Its name is the last of its path. */
  datatype Node = Node(kind: Kind, path: seq<string>, typ: string, current: bool)

  datatype Question = AtRoot | Under(path: seq<string>) | InClass(path: seq<string>, class_: Kind)

  /** What the source would say at one moment. */
  type Truth = map<Question, seq<Node>>

  datatype Key = Root | SchemasOf(db: string) | ObjectsOf(path: seq<string>) | ColumnsOf(path: seq<string>) | RoutinesOf(path: seq<string>)

  function Says(truth: Truth, q: Question): seq<Node> { if q in truth then truth[q] else [] }

  const CLASSES := [Table, View, MaterializedView]

  predicate IsObjectClass(k: Kind) { k in CLASSES }

  /** The questions a load puts, in turn. */
  function Asks(key: Key): (qs: seq<Question>)
    ensures |qs| == if key.ObjectsOf? then 4 else 1
  {
    match key
    case Root => [AtRoot]
    case SchemasOf(db) => [Under([db])]
    case ObjectsOf(path) => [Under(path), InClass(path, Table), InClass(path, View), InClass(path, MaterializedView)]
    case ColumnsOf(path) => [Under(path)]
    case RoutinesOf(path) => [InClass(path, Routine)]
  }

  function NameOf(n: Node): string { if n.path == [] then "" else n.path[|n.path| - 1] }

  // ----- what is kept of the answers

  datatype Item = Item(name: string, kind: Kind, typ: string)

  /** What is cached under a key; `current` is the database in use. */
  datatype Held = Held(items: seq<Item>, current: string)

  datatype Reply = Nodes(nodes: seq<Node>) | Failed

  function ItemOf(n: Node): Item { Item(NameOf(n), n.kind, if n.kind == Column then n.typ else "") }

  function Of(nodes: seq<Node>, kind: Kind): seq<Item> {
    if nodes == [] then []
    else Of(nodes[..|nodes| - 1], kind) + if nodes[|nodes| - 1].kind == kind then [ItemOf(nodes[|nodes| - 1])] else []
  }

  function CurrentOf(nodes: seq<Node>): string {
    if nodes == [] then ""
    else
      var n := nodes[|nodes| - 1];
      if n.kind == Database && n.current then NameOf(n) else CurrentOf(nodes[..|nodes| - 1])
  }

  /** The database that folders at the root are of, where a source has just one. */
  function FlatOf(nodes: seq<Node>): string {
    if nodes == [] then ""
    else
      var n := nodes[|nodes| - 1];
      if n.kind == Folder && |n.path| >= 2 then n.path[0] else FlatOf(nodes[..|nodes| - 1])
  }

  predicate Named(items: seq<Item>, name: string) { exists i :: 0 <= i < |items| && items[i].name == name }

  /** The class the i-th answer about objects is of; the first is of any. */
  predicate OfClass(i: nat, kind: Kind) { IsObjectClass(kind) && (i == 0 || (i <= |CLASSES| && kind == CLASSES[i - 1])) }

  function Take(items: seq<Item>, nodes: seq<Node>, i: nat): seq<Item> {
    if nodes == [] then items
    else
      var got, n := Take(items, nodes[..|nodes| - 1], i), nodes[|nodes| - 1];
      if OfClass(i, n.kind) && !Named(got, NameOf(n)) then got + [ItemOf(n)] else got
  }

  function Gathered(replies: seq<Reply>): seq<Item> {
    if replies == [] then []
    else
      var i := |replies| - 1;
      var got := Gathered(replies[..i]);
      if replies[i].Failed? then got else Take(got, replies[i].nodes, i)
  }

  function Known(entries: map<Key, Held>, key: Key): map<Key, Held> {
    if key in entries then entries else entries[key := Held([], "")]
  }

  /** What a landing makes of the entries. A listing of databases or schemas that
      failed keeps what there was; any other failure is an empty answer. */
  function Recorded(entries: map<Key, Held>, key: Key, replies: seq<Reply>): map<Key, Held>
    requires |replies| == |Asks(key)|
  {
    match key
    case Root =>
      if replies[0].Failed? then Known(entries, key)
      else
        var nodes := replies[0].nodes;
        var dbs, flat := Of(nodes, Database), FlatOf(nodes);
        if dbs == [] && flat != "" then
          entries[Root := Held([Item(flat, Database, "")], flat)][SchemasOf(flat) := Held([], "")]
        else entries[Root := Held(dbs, CurrentOf(nodes))]
    case SchemasOf(db) =>
      if replies[0].Failed? then Known(entries, key) else entries[key := Held(Of(replies[0].nodes, Schema), "")]
    case ObjectsOf(path) => entries[key := Held(Gathered(replies), "")]
    case ColumnsOf(path) => entries[key := Held(if replies[0].Failed? then [] else Of(replies[0].nodes, Column), "")]
    case RoutinesOf(path) => entries[key := Held(if replies[0].Failed? then [] else Of(replies[0].nodes, Routine), "")]
  }

  /** The keys a landing may write: its own, and with the databases of a source
      without a schema level, that one database's schemas. */
  function Writes(key: Key, replies: seq<Reply>): set<Key>
    requires |replies| == |Asks(key)|
  {
    if key == Root && replies[0].Nodes? && Of(replies[0].nodes, Database) == [] && FlatOf(replies[0].nodes) != "" then
      {Root, SchemasOf(FlatOf(replies[0].nodes))}
    else {key}
  }

  // ----- the steps

  /** A load on its way: what for, which generation asked, and its answers so far. */
  datatype Load = Load(key: Key, gen: nat, replies: seq<Reply>)

  /** Time is a place in the history of what the source has said. */
  datatype State = State(
    gen: nat, entries: map<Key, Held>, loading: set<Key>, flying: seq<Load>,
    history: seq<Truth>, invalidated: nat, late: map<Key, nat>)

  datatype Event =
    | Wanted(key: Key)                  // a lookup
    | Answers(load: nat, fails: bool)   // the source answers a load's next question, off the lock
    | Lands(load: nat)                  // a load that has its answers takes the lock
    | Invalidated                       // the names may all have changed
    | Changed(truth: Truth)             // they have

  function Start(truth: Truth): State { State(0, map[], {}, [], [truth], 0, map[]) }

  function Without<T>(s: seq<T>, i: nat): seq<T>
    requires i < |s|
  {
    s[..i] + s[i + 1..]
  }

  function Late(s: State, k: Key): nat { if k in s.late then s.late[k] else 0 }

  /** The load has something left to ask, or nothing. */
  predicate Asking(l: Load) { |l.replies| < |Asks(l.key)| }
  predicate Ready(l: Load) { |l.replies| == |Asks(l.key)| }

  function Replied(l: Load, truth: Truth, fails: bool): Load
    requires Asking(l)
  {
    l.(replies := l.replies + [if fails then Failed else Nodes(Says(truth, Asks(l.key)[|l.replies|]))])
  }

  /** What the step does: nothing, where it cannot happen. `late` counts, for each
      key, the loads of an older generation that have landed since the last Invalidate. */
  function Next(s: State, e: Event): State
    requires |s.history| > 0
  {
    match e
    case Wanted(key) =>
      if key in s.entries || key in s.loading then s
      else s.(loading := s.loading + {key}, flying := s.flying + [Load(key, s.gen, [])])
    case Answers(i, fails) =>
      if i >= |s.flying| || !Asking(s.flying[i]) then s
      else s.(flying := s.flying[i := Replied(s.flying[i], s.history[|s.history| - 1], fails)])
    case Lands(i) =>
      if i >= |s.flying| || !Ready(s.flying[i]) then s
      else
        var l := s.flying[i];
        var landed := s.(loading := s.loading - {l.key}, flying := Without(s.flying, i));
        if l.gen == s.gen then landed.(entries := Recorded(s.entries, l.key, l.replies))
        else landed.(late := s.late[l.key := Late(s, l.key) + 1])
    case Invalidated =>
      s.(gen := s.gen + 1, entries := map[], loading := {}, invalidated := |s.history| - 1, late := map[])
    case Changed(truth) => s.(history := s.history + [truth])
  }

  function Run(truth: Truth, es: seq<Event>): (s: State)
    ensures |s.history| > 0
  {
    if es == [] then Start(truth) else Next(Run(truth, es[..|es| - 1]), es[|es| - 1])
  }

  // ----- freshness

  /** The node, among the answers to the key's i-th question, says this of the key. */
  predicate Bears(key: Key, i: nat, n: Node, item: Item) {
    match key
    case Root =>
      || (n.kind == Database && item == ItemOf(n))
      || (n.kind == Folder && |n.path| >= 2 && item == Item(n.path[0], Database, ""))
    case SchemasOf(_) => n.kind == Schema && item == ItemOf(n)
    case ObjectsOf(_) => OfClass(i, n.kind) && item == ItemOf(n)
    case ColumnsOf(_) => n.kind == Column && item == ItemOf(n)
    case RoutinesOf(_) => n.kind == Routine && item == ItemOf(n)
  }

  predicate BearsCurrent(n: Node, db: string) {
    (n.kind == Database && n.current && NameOf(n) == db) || (n.kind == Folder && |n.path| >= 2 && n.path[0] == db)
  }

  /** Among these answers to the key's i-th question is one that says it. */
  ghost predicate Among(key: Key, i: nat, nodes: seq<Node>, item: Item) { exists n :: n in nodes && Bears(key, i, n, item) }
  ghost predicate CurrentAmong(nodes: seq<Node>, db: string) { exists n :: n in nodes && BearsCurrent(n, db) }

  /** The source, asked one of the key's questions, would have said it. */
  ghost predicate Tells(truth: Truth, key: Key, item: Item) {
    exists i :: 0 <= i < |Asks(key)| && Among(key, i, Says(truth, Asks(key)[i]), item)
  }

  /** It said so at some time since the latest Invalidate. */
  ghost predicate Fresh(s: State, key: Key, item: Item) {
    exists at :: s.invalidated <= at < |s.history| && Tells(s.history[at], key, item)
  }

  ghost predicate FreshCurrent(s: State, db: string) {
    exists at :: s.invalidated <= at < |s.history| && CurrentAmong(Says(s.history[at], AtRoot), db)
  }

  ghost predicate HeldFresh(s: State, key: Key, h: Held) {
    && (forall item :: item in h.items ==> Fresh(s, key, item))
    && (h.current != "" ==> FreshCurrent(s, h.current))
  }

  /** The reply is a failure, or what the source said at one time since. */
  ghost predicate ReplyFresh(s: State, q: Question, r: Reply) {
    r.Nodes? ==> exists at :: s.invalidated <= at < |s.history| && r.nodes == Says(s.history[at], q)
  }

  ghost predicate LoadFresh(s: State, l: Load) {
    && l.gen <= s.gen && |l.replies| <= |Asks(l.key)|
    && (l.gen == s.gen ==> forall i :: 0 <= i < |l.replies| ==> ReplyFresh(s, Asks(l.key)[i], l.replies[i]))
  }

  ghost predicate AllFresh(s: State) {
    && s.invalidated < |s.history|
    && (forall k :: k in s.entries ==> HeldFresh(s, k, s.entries[k]))
    && (forall i :: 0 <= i < |s.flying| ==> LoadFresh(s, s.flying[i]))
  }

  lemma {:induction false} OfSaid(nodes: seq<Node>, kind: Kind, item: Item)
    ensures item in Of(nodes, kind) <==> exists n :: n in nodes && n.kind == kind && item == ItemOf(n)
  {
    if nodes != [] {
      var init, last := nodes[..|nodes| - 1], nodes[|nodes| - 1];
      assert nodes == init + [last];
      OfSaid(init, kind, item);
    }
  }

  lemma {:induction false} CurrentSaid(nodes: seq<Node>)
    ensures CurrentOf(nodes) != "" ==> exists n :: n in nodes && n.kind == Database && n.current && NameOf(n) == CurrentOf(nodes)
  {
    if nodes != [] { CurrentSaid(nodes[..|nodes| - 1]); }
  }

  lemma {:induction false} FlatSaid(nodes: seq<Node>)
    ensures FlatOf(nodes) != "" ==> exists n :: n in nodes && n.kind == Folder && |n.path| >= 2 && n.path[0] == FlatOf(nodes)
  {
    if nodes != [] { FlatSaid(nodes[..|nodes| - 1]); }
  }

  /** What is taken of an answer about objects is what was there and what the
      answer says, each name once and none of the right class left out. */
  lemma {:induction false} TakeIs(items: seq<Item>, nodes: seq<Node>, i: nat)
    ensures items <= Take(items, nodes, i)
    ensures forall item :: item in Take(items, nodes, i) ==> item in items || exists n :: n in nodes && OfClass(i, n.kind) && item == ItemOf(n)
    ensures forall n :: n in nodes && OfClass(i, n.kind) ==> Named(Take(items, nodes, i), NameOf(n))
    ensures Once(items) ==> Once(Take(items, nodes, i))
  {
    if nodes != [] {
      var init, last := nodes[..|nodes| - 1], nodes[|nodes| - 1];
      TakeIs(items, init, i);
      var got, all := Take(items, init, i), Take(items, nodes, i);
      assert got <= all;
      forall n | n in nodes && OfClass(i, n.kind) ensures Named(all, NameOf(n)) {
        if n in init { NamedStill(got, all, NameOf(n)); }
        else if !Named(got, NameOf(n)) { assert all[|all| - 1].name == NameOf(n); }
        else { NamedStill(got, all, NameOf(n)); }
      }
    }
  }

  lemma NamedStill(a: seq<Item>, b: seq<Item>, name: string)
    requires a <= b && Named(a, name)
    ensures Named(b, name)
  {
    var i :| 0 <= i < |a| && a[i].name == name;
    assert b[i].name == name;
  }

  /** No name stands twice. */
  predicate Once(items: seq<Item>) { forall i, j :: 0 <= i < j < |items| ==> items[i].name != items[j].name }

  /** A container's objects, gathered: exactly what the answers name of their
      classes, each name once, whatever answers failed. */
  lemma {:induction false} GatheredIs(path: seq<string>, replies: seq<Reply>)
    requires |replies| <= 4
    ensures Once(Gathered(replies))
    ensures forall item :: item in Gathered(replies) ==>
              exists i :: 0 <= i < |replies| && replies[i].Nodes? && Among(ObjectsOf(path), i, replies[i].nodes, item)
    ensures forall i, n :: 0 <= i < |replies| && replies[i].Nodes? && n in replies[i].nodes && OfClass(i, n.kind)
              ==> Named(Gathered(replies), NameOf(n))
  {
    if replies != [] {
      var last := |replies| - 1;
      var init, got := replies[..last], Gathered(replies[..last]);
      GatheredIs(path, init);
      if replies[last].Nodes? { TakeIs(got, replies[last].nodes, last); }
      forall item | item in Gathered(replies)
        ensures exists i :: 0 <= i < |replies| && replies[i].Nodes? && Among(ObjectsOf(path), i, replies[i].nodes, item)
      {
        if item in got {
          var i :| 0 <= i < |init| && init[i].Nodes? && Among(ObjectsOf(path), i, init[i].nodes, item);
          assert replies[i] == init[i];
        } else {
          assert Among(ObjectsOf(path), last, replies[last].nodes, item);
        }
      }
      forall i, n | 0 <= i < |replies| && replies[i].Nodes? && n in replies[i].nodes && OfClass(i, n.kind)
        ensures Named(Gathered(replies), NameOf(n))
      {
        if i < last {
          assert init[i] == replies[i];
          NamedStill(got, Gathered(replies), NameOf(n));
        }
      }
    }
  }

  /** What an answer says is what the source said when it gave it. */
  lemma AmongFresh(s: State, key: Key, i: nat, r: Reply, item: Item)
    requires i < |Asks(key)| && r.Nodes? && ReplyFresh(s, Asks(key)[i], r) && Among(key, i, r.nodes, item)
    ensures Fresh(s, key, item)
  {
    var at :| s.invalidated <= at < |s.history| && r.nodes == Says(s.history[at], Asks(key)[i]);
    assert Tells(s.history[at], key, item);
  }

  /** The kind of node a key other than a container's objects is read from. */
  function KindOf(key: Key): Kind {
    match key
    case Root => Database
    case SchemasOf(_) => Schema
    case ObjectsOf(_) => Other
    case ColumnsOf(_) => Column
    case RoutinesOf(_) => Routine
  }

  lemma OfFresh(s: State, key: Key, r: Reply, kind: Kind)
    requires r.Nodes? && ReplyFresh(s, Asks(key)[0], r)
    requires !key.ObjectsOf? && kind == KindOf(key)
    ensures forall item :: item in Of(r.nodes, kind) ==> Fresh(s, key, item)
  {
    forall item | item in Of(r.nodes, kind) ensures Fresh(s, key, item) {
      OfSaid(r.nodes, kind, item);
      var n :| n in r.nodes && n.kind == kind && item == ItemOf(n);
      assert Bears(key, 0, n, item);
      AmongFresh(s, key, 0, r, item);
    }
  }

  lemma CurrentFresh(s: State, r: Reply, db: string)
    requires r.Nodes? && ReplyFresh(s, AtRoot, r) && CurrentAmong(r.nodes, db)
    ensures FreshCurrent(s, db)
  {
    var at :| s.invalidated <= at < |s.history| && r.nodes == Says(s.history[at], AtRoot);
    assert CurrentAmong(Says(s.history[at], AtRoot), db);
  }

  lemma RootFresh(s: State, r: Reply)
    requires r.Nodes? && ReplyFresh(s, AtRoot, r)
    ensures HeldFresh(s, Root, Held(Of(r.nodes, Database), CurrentOf(r.nodes)))
    ensures FlatOf(r.nodes) != "" ==> HeldFresh(s, Root, Held([Item(FlatOf(r.nodes), Database, "")], FlatOf(r.nodes)))
  {
    OfFresh(s, Root, r, Database);
    CurrentSaid(r.nodes);
    FlatSaid(r.nodes);
    if CurrentOf(r.nodes) != "" {
      var n :| n in r.nodes && n.kind == Database && n.current && NameOf(n) == CurrentOf(r.nodes);
      assert BearsCurrent(n, CurrentOf(r.nodes));
      CurrentFresh(s, r, CurrentOf(r.nodes));
    }
    if FlatOf(r.nodes) != "" {
      var n :| n in r.nodes && n.kind == Folder && |n.path| >= 2 && n.path[0] == FlatOf(r.nodes);
      assert BearsCurrent(n, FlatOf(r.nodes)) && Bears(Root, 0, n, Item(FlatOf(r.nodes), Database, ""));
      CurrentFresh(s, r, FlatOf(r.nodes));
      AmongFresh(s, Root, 0, r, Item(FlatOf(r.nodes), Database, ""));
    }
  }

  lemma ObjectsFresh(s: State, path: seq<string>, replies: seq<Reply>)
    requires |replies| == 4 && forall i :: 0 <= i < 4 ==> ReplyFresh(s, Asks(ObjectsOf(path))[i], replies[i])
    ensures HeldFresh(s, ObjectsOf(path), Held(Gathered(replies), ""))
  {
    GatheredIs(path, replies);
    forall item | item in Gathered(replies) ensures Fresh(s, ObjectsOf(path), item) {
      var i :| 0 <= i < |replies| && replies[i].Nodes? && Among(ObjectsOf(path), i, replies[i].nodes, item);
      AmongFresh(s, ObjectsOf(path), i, replies[i], item);
    }
  }

  /** A landing of the present generation writes what is fresh. */
  lemma RecordedFresh(s: State, l: Load)
    requires AllFresh(s) && LoadFresh(s, l) && l.gen == s.gen && Ready(l)
    ensures forall k :: k in Recorded(s.entries, l.key, l.replies) ==> HeldFresh(s, k, Recorded(s.entries, l.key, l.replies)[k])
  {
    assert ReplyFresh(s, Asks(l.key)[0], l.replies[0]);
    hide HeldFresh, ReplyFresh, Gathered, Of, FlatOf, CurrentOf;
    NothingFresh(s);
    match l.key {
      case Root => if l.replies[0].Nodes? { RootFresh(s, l.replies[0]); }
      case SchemasOf(_) => if l.replies[0].Nodes? { OneFresh(s, l.key, l.replies[0], Schema); }
      case ObjectsOf(path) => ObjectsFresh(s, path, l.replies);
      case ColumnsOf(_) => if l.replies[0].Nodes? { OneFresh(s, l.key, l.replies[0], Column); }
      case RoutinesOf(_) => if l.replies[0].Nodes? { OneFresh(s, l.key, l.replies[0], Routine); }
    }
  }

  lemma NothingFresh(s: State)
    ensures forall k :: HeldFresh(s, k, Held([], ""))
  {
  }

  lemma OneFresh(s: State, key: Key, r: Reply, kind: Kind)
    requires r.Nodes? && ReplyFresh(s, Asks(key)[0], r)
    requires key != Root && !key.ObjectsOf? && kind == KindOf(key)
    ensures HeldFresh(s, key, Held(Of(r.nodes, kind), ""))
  {
    OfFresh(s, key, r, kind);
  }

  /** What was fresh is fresh when the source says more. */
  lemma StillFresh(s: State, t: State)
    requires s.invalidated == t.invalidated && s.history <= t.history && s.gen == t.gen
    ensures forall k, h :: HeldFresh(s, k, h) ==> HeldFresh(t, k, h)
    ensures forall l :: LoadFresh(s, l) ==> LoadFresh(t, l)
  {
    forall k, item | Fresh(s, k, item) ensures Fresh(t, k, item) {
      var at :| s.invalidated <= at < |s.history| && Tells(s.history[at], k, item);
      assert t.history[at] == s.history[at];
    }
    forall db | FreshCurrent(s, db) ensures FreshCurrent(t, db) {
      var at :| s.invalidated <= at < |s.history| && CurrentAmong(Says(s.history[at], AtRoot), db);
      assert t.history[at] == s.history[at];
    }
    forall q, r | ReplyFresh(s, q, r) ensures ReplyFresh(t, q, r) {
      if r.Nodes? {
        var at :| s.invalidated <= at < |s.history| && r.nodes == Says(s.history[at], q);
        assert t.history[at] == s.history[at];
      }
    }
  }

  lemma RepliedFresh(s: State, l: Load, fails: bool)
    requires s.invalidated < |s.history| && LoadFresh(s, l) && Asking(l)
    ensures LoadFresh(s, Replied(l, s.history[|s.history| - 1], fails))
  {
    var now := |s.history| - 1;
    var m := Replied(l, s.history[now], fails);
    if l.gen == s.gen {
      forall i | 0 <= i < |m.replies| ensures ReplyFresh(s, Asks(l.key)[i], m.replies[i]) {
        if i == |l.replies| && !fails { assert m.replies[i].nodes == Says(s.history[now], Asks(l.key)[i]); }
        else if i < |l.replies| { assert m.replies[i] == l.replies[i]; }
      }
    }
  }

  lemma LandsFresh(s: State, i: nat)
    requires AllFresh(s) && i < |s.flying| && Ready(s.flying[i])
    ensures AllFresh(Next(s, Lands(i)))
  {
    var t := Next(s, Lands(i));
    if s.flying[i].gen == s.gen { RecordedFresh(s, s.flying[i]); }
    hide HeldFresh, Recorded, LoadFresh;
    StillFresh(s, t);
    forall j | 0 <= j < |t.flying| ensures LoadFresh(t, t.flying[j]) {
      assert t.flying[j] == s.flying[if j < i then j else j + 1];
    }
  }

  lemma NextFresh(s: State, e: Event)
    requires AllFresh(s)
    ensures AllFresh(Next(s, e))
  {
    var t := Next(s, e);
    match e {
      case Wanted(key) => StillFresh(s, t);
      case Answers(i, fails) =>
        StillFresh(s, t);
        if i < |s.flying| && Asking(s.flying[i]) { RepliedFresh(s, s.flying[i], fails); }
      case Lands(i) => if i < |s.flying| && Ready(s.flying[i]) { LandsFresh(s, i); }
      case Invalidated =>
        forall j | 0 <= j < |t.flying| ensures LoadFresh(t, t.flying[j]) { assert LoadFresh(s, s.flying[j]); }
      case Changed(truth) => StillFresh(s, t);
    }
  }

  /** Whatever the order of lookups, answers, failures, landings, changes and
      Invalidates: each cached name is one the source said, asked about that key,
      at some time since the latest Invalidate. */
  lemma {:induction false} EveryNameFresh(truth: Truth, es: seq<Event>)
    ensures AllFresh(Run(truth, es))
    ensures var s := Run(truth, es); forall k, item :: k in s.entries && item in s.entries[k].items ==> Fresh(s, k, item)
  {
    if es != [] {
      EveryNameFresh(truth, es[..|es| - 1]);
      NextFresh(Run(truth, es[..|es| - 1]), es[|es| - 1]);
    }
  }

  lemma RecordedKeys(entries: map<Key, Held>, key: Key, replies: seq<Reply>)
    requires |replies| == |Asks(key)|
    ensures Recorded(entries, key, replies).Keys == entries.Keys + Writes(key, replies)
    ensures forall k :: k in entries && k !in Writes(key, replies) ==> Recorded(entries, key, replies)[k] == entries[k]
  {
    hide Of, FlatOf, Gathered, CurrentOf;
    var got := Recorded(entries, key, replies);
    forall k ensures k in got <==> k in entries || k in Writes(key, replies) { }
  }

  /** A landing of an older generation writes nothing; one of the present writes
      its own key and, for a source of folders, the schemas of its one database, and leaves every other key as it was. */
  lemma OldLoadsWriteNothing(truth: Truth, es: seq<Event>, i: nat)
    requires i < |Run(truth, es).flying| && Ready(Run(truth, es).flying[i])
    ensures var s := Run(truth, es); var l := s.flying[i]; var t := Next(s, Lands(i));
      && l.gen <= s.gen && l.key !in t.loading
      && (l.gen < s.gen ==> t.entries == s.entries)
      && (l.gen == s.gen ==>
            && t.entries.Keys == s.entries.Keys + Writes(l.key, l.replies)
            && forall k :: k in s.entries && k !in Writes(l.key, l.replies) ==> t.entries[k] == s.entries[k])
  {
    EveryNameFresh(truth, es);
    var l := Run(truth, es).flying[i];
    assert LoadFresh(Run(truth, es), l);
    RecordedKeys(Run(truth, es).entries, l.key, l.replies);
    hide Recorded, Writes, Run;
  }

  /** What is known stays known until an Invalidate. */
  lemma KnownStays(s: State, e: Event, k: Key)
    requires |s.history| > 0 && k in s.entries && e != Invalidated
    ensures k in Next(s, e).entries
  {
    hide Gathered, Of, FlatOf, CurrentOf;
  }

  // ----- one load at a time

  /** How many loads of the key the present generation has on its way. */
  function Flying(flying: seq<Load>, k: Key, gen: nat): nat {
    if flying == [] then 0
    else Flying(flying[..|flying| - 1], k, gen) + if flying[|flying| - 1].key == k && flying[|flying| - 1].gen == gen then 1 else 0
  }

  lemma {:induction false} FlyingParts(a: seq<Load>, b: seq<Load>, k: Key, gen: nat)
    ensures Flying(a + b, k, gen) == Flying(a, k, gen) + Flying(b, k, gen)
  {
    if b == [] {
      assert a + b == a;
    } else {
      assert (a + b)[..|a + b| - 1] == a + b[..|b| - 1];
      FlyingParts(a, b[..|b| - 1], k, gen);
    }
  }

  lemma FlyingOne(l: Load, k: Key, gen: nat)
    ensures Flying([l], k, gen) == if l.key == k && l.gen == gen then 1 else 0
  {
  }

  lemma FlyingAt(flying: seq<Load>, i: nat, k: Key, gen: nat)
    requires i < |flying|
    ensures Flying(flying, k, gen) == Flying(Without(flying, i), k, gen) + Flying([flying[i]], k, gen)
    ensures forall l: Load :: Flying(flying[i := l], k, gen) == Flying(Without(flying, i), k, gen) + Flying([l], k, gen)
  {
    var a, b := flying[..i], flying[i + 1..];
    forall l: Load ensures Flying(a + [l] + b, k, gen) == Flying(a + b, k, gen) + Flying([l], k, gen) {
      FlyingParts(a + [l], b, k, gen);
      FlyingParts(a, [l], k, gen);
      FlyingParts(a, b, k, gen);
    }
    assert flying == a + [flying[i]] + b;
    assert forall l: Load :: flying[i := l] == a + [l] + b;
  }

  lemma {:induction false} NoneFlying(flying: seq<Load>, k: Key, gen: nat)
    requires forall l :: l in flying ==> l.gen < gen
    ensures Flying(flying, k, gen) == 0
  {
    if flying != [] { NoneFlying(flying[..|flying| - 1], k, gen); }
  }

  /** A marked key has a load on its way; an unmarked one has at most as many as
      loads of it have landed late, a marked one at most one more. */
  predicate Counted(s: State, k: Key) {
    var n := Flying(s.flying, k, s.gen);
    if k in s.loading then n <= 1 + Late(s, k) else n <= Late(s, k)
  }

  /** Counted, and exactly when none has landed late. */
  predicate CountedWell(s: State, k: Key) {
    Counted(s, k) && (Late(s, k) == 0 && k in s.loading ==> Flying(s.flying, k, s.gen) == 1)
  }

  lemma WantedCounted(s: State, key: Key, k: Key)
    requires |s.history| > 0 && CountedWell(s, k)
    ensures CountedWell(Next(s, Wanted(key)), k)
  {
    FlyingParts(s.flying, [Load(key, s.gen, [])], k, s.gen);
    FlyingOne(Load(key, s.gen, []), k, s.gen);
    hide Flying;
  }

  lemma AnswersCounted(s: State, i: nat, fails: bool, k: Key)
    requires |s.history| > 0 && CountedWell(s, k)
    ensures CountedWell(Next(s, Answers(i, fails)), k)
  {
    var t := Next(s, Answers(i, fails));
    if i < |s.flying| && Asking(s.flying[i]) {
      FlyingAt(s.flying, i, k, s.gen);
      FlyingOne(s.flying[i], k, s.gen);
      FlyingOne(t.flying[i], k, s.gen);
      assert t.flying == s.flying[i := t.flying[i]];
      hide Flying, Next, Without;
    }
  }

  lemma LandsCounted(s: State, i: nat, k: Key)
    requires |s.history| > 0 && CountedWell(s, k)
    ensures CountedWell(Next(s, Lands(i)), k)
  {
    if i < |s.flying| && Ready(s.flying[i]) {
      FlyingAt(s.flying, i, k, s.gen);
      FlyingOne(s.flying[i], k, s.gen);
      hide Flying, Without, Recorded;
    }
  }

  lemma NextCounted(s: State, e: Event, k: Key)
    requires AllFresh(s) && CountedWell(s, k)
    ensures CountedWell(Next(s, e), k)
  {
    match e {
      case Wanted(key) => WantedCounted(s, key, k);
      case Answers(i, fails) => AnswersCounted(s, i, fails, k);
      case Lands(i) => LandsCounted(s, i, k);
      case Invalidated =>
        forall l | l in s.flying ensures l.gen < s.gen + 1 {
          var i :| 0 <= i < |s.flying| && s.flying[i] == l;
          assert LoadFresh(s, s.flying[i]);
        }
        NoneFlying(s.flying, k, s.gen + 1);
      case Changed(truth) =>
    }
  }

  /** In any run, a key has one load of the present generation on its way if it is
      marked and none if it is not, so long as no load of it from before the
      latest Invalidate has landed since; and never more than one besides those. */
  lemma {:induction false} LoadsCounted(truth: Truth, es: seq<Event>, k: Key)
    ensures var s := Run(truth, es); var n := Flying(s.flying, k, s.gen);
      && n <= 1 + Late(s, k)
      && (Late(s, k) == 0 ==> n == if k in s.loading then 1 else 0)
      && CountedWell(s, k)
  {
    if es != [] {
      LoadsCounted(truth, es[..|es| - 1], k);
      EveryNameFresh(truth, es[..|es| - 1]);
      NextCounted(Run(truth, es[..|es| - 1]), es[|es| - 1], k);
    }
  }

  /** The mark of a key says what it should: one load of it is on its way, or none. */
  predicate Accurate(s: State, k: Key) { Flying(s.flying, k, s.gen) == if k in s.loading then 1 else 0 }

  /** A load of an older generation lands on the mark of a newer one's. */
  predicate Robs(s: State, e: Event, k: Key) {
    && e.Lands? && e.load < |s.flying| && Ready(s.flying[e.load])
    && s.flying[e.load].key == k && s.flying[e.load].gen != s.gen && k in s.loading
  }

  /** Nothing else makes a mark wrong. */
  lemma NextAccurate(s: State, e: Event, k: Key)
    requires AllFresh(s) && Accurate(s, k)
    ensures Accurate(Next(s, e), k) <==> !Robs(s, e, k)
  {
    match e {
      case Wanted(key) =>
        FlyingParts(s.flying, [Load(key, s.gen, [])], k, s.gen);
        FlyingOne(Load(key, s.gen, []), k, s.gen);
        hide Flying;
      case Answers(i, fails) => AnswersAccurate(s, i, fails, k);
      case Lands(i) =>
        if i < |s.flying| && Ready(s.flying[i]) {
          FlyingAt(s.flying, i, k, s.gen);
          FlyingOne(s.flying[i], k, s.gen);
          hide Flying, Without, Recorded;
        }
      case Invalidated => InvalidatedAccurate(s, k);
      case Changed(truth) =>
    }
  }

  lemma AnswersAccurate(s: State, i: nat, fails: bool, k: Key)
    requires |s.history| > 0 && Accurate(s, k)
    ensures Accurate(Next(s, Answers(i, fails)), k)
  {
    var t := Next(s, Answers(i, fails));
    if i < |s.flying| && Asking(s.flying[i]) {
      FlyingAt(s.flying, i, k, s.gen);
      FlyingOne(s.flying[i], k, s.gen);
      FlyingOne(t.flying[i], k, s.gen);
      assert t.flying == s.flying[i := t.flying[i]];
      hide Flying, Next, Without;
    }
  }

  /** An Invalidate makes every mark right, wrong as it may have been. */
  lemma InvalidatedAccurate(s: State, k: Key)
    requires AllFresh(s)
    ensures Accurate(Next(s, Invalidated), k)
  {
    forall l | l in s.flying ensures l.gen < s.gen + 1 {
      var i :| 0 <= i < |s.flying| && s.flying[i] == l;
      assert LoadFresh(s, s.flying[i]);
    }
    NoneFlying(s.flying, k, s.gen + 1);
  }

  ghost predicate AccurateAt(truth: Truth, es: seq<Event>, n: nat, k: Key)
    requires n <= |es|
  {
    Accurate(Run(truth, es[..n]), k)
  }

  ghost predicate RobbedAt(truth: Truth, es: seq<Event>, i: nat, k: Key)
    requires i < |es|
  {
    Robs(Run(truth, es[..i]), es[i], k)
  }

  lemma StepAccurate(truth: Truth, es: seq<Event>, i: nat, k: Key)
    requires i < |es|
    ensures AccurateAt(truth, es, i, k) ==> (AccurateAt(truth, es, i + 1, k) <==> !RobbedAt(truth, es, i, k))
    ensures es[i] == Invalidated ==> AccurateAt(truth, es, i + 1, k)
  {
    EveryNameFresh(truth, es[..i]);
    RunStep(truth, es[..i], es[i]);
    assert es[..i + 1] == es[..i] + [es[i]];
    var s := Run(truth, es[..i]);
    hide Run, Next, AllFresh;
    if Accurate(s, k) { NextAccurate(s, es[i], k); }
    if es[i] == Invalidated { InvalidatedAccurate(s, k); }
  }

  /** From the start, or from any Invalidate, the marks are right for good. */
  lemma BeginsAccurate(truth: Truth, es: seq<Event>, from: nat, k: Key)
    requires from <= |es| && (from == 0 || es[from - 1] == Invalidated)
    ensures AccurateAt(truth, es, from, k)
  {
    if from == 0 { RunNothing(truth); assert es[..0] == []; } else { StepAccurate(truth, es, from - 1, k); }
  }

  /** From wherever the mark of a key is right, as it is at the start and after any
      Invalidate, a key has one load of the present generation on its way when it
      is marked and none when it is not, at every step of the run, exactly when no
      load of an older generation lands on the mark of a newer one's. */
  lemma {:induction false} OneAtATime(truth: Truth, es: seq<Event>, from: nat, upTo: nat, k: Key)
    requires from <= upTo <= |es| && AccurateAt(truth, es, from, k)
    ensures (forall n :: from <= n <= upTo ==> AccurateAt(truth, es, n, k))
      <==> forall i :: from <= i < upTo ==> !RobbedAt(truth, es, i, k)
    decreases upTo - from
  {
    hide AccurateAt, RobbedAt;
    if from < upTo {
      OneAtATime(truth, es, from, upTo - 1, k);
      StepAccurate(truth, es, upTo - 1, k);
    }
  }

  // ----- a list that is whole

  /** The node, among the answers to the key's i-th question, would put this in the
      key's list. A database that only folders tell of is put there in want of one. */
  predicate Lists(key: Key, i: nat, n: Node, item: Item) { Bears(key, i, n, item) && (key == Root ==> n.kind == Database) }

  ghost predicate Listed(key: Key, i: nat, nodes: seq<Node>, item: Item) { exists n :: n in nodes && Lists(key, i, n, item) }

  /** Asked that question at any time since the latest Invalidate, the source would
      have listed it. */
  ghost predicate AllAlong(s: State, key: Key, i: nat, item: Item)
    requires i < |Asks(key)|
  {
    forall at :: s.invalidated <= at < |s.history| ==> Listed(key, i, Says(s.history[at], Asks(key)[i]), item)
  }

  predicate FoldersOnly(nodes: seq<Node>, db: string) { Of(nodes, Database) == [] && FlatOf(nodes) == db }

  /** Nor was the database ever, since, one that only folders at the root told of. */
  ghost predicate NeverFlat(s: State, key: Key) {
    key.SchemasOf? && key.db != "" ==>
      forall at :: s.invalidated <= at < |s.history| ==> !FoldersOnly(Says(s.history[at], AtRoot), key.db)
  }

  /** Every name the source would have listed all along is there. */
  ghost predicate Whole(s: State, key: Key, h: Held) {
    NeverFlat(s, key) ==>
      forall i: nat, item :: i < |Asks(key)| && AllAlong(s, key, i, item) ==> Named(h.items, item.name)
  }

  /** Its answers are no failures. */
  ghost predicate Answered(s: State, l: Load) {
    l.gen == s.gen ==> forall i :: 0 <= i < |l.replies| ==> l.replies[i].Nodes?
  }

  ghost predicate AllWhole(s: State) {
    && (forall k :: k in s.entries ==> Whole(s, k, s.entries[k]))
    && (forall i :: 0 <= i < |s.flying| ==> Answered(s, s.flying[i]))
  }

  /** No question was answered with a failure since the latest Invalidate. */
  predicate Unfailing(es: seq<Event>) {
    if es == [] then true
    else
      var e := es[|es| - 1];
      e == Invalidated || (!(e.Answers? && e.fails) && Unfailing(es[..|es| - 1]))
  }

  /** The more times are asked about, the less is all along. */
  lemma StillWhole(s: State, t: State)
    requires s.invalidated == t.invalidated && s.history <= t.history && s.gen == t.gen && s.invalidated < |s.history|
    ensures forall k, h :: Whole(s, k, h) ==> Whole(t, k, h)
    ensures forall l :: Answered(s, l) ==> Answered(t, l)
  {
    assert forall at :: 0 <= at < |s.history| ==> t.history[at] == s.history[at];
    forall k, i: nat, item | i < |Asks(k)| && AllAlong(t, k, i, item) ensures AllAlong(s, k, i, item) {
      forall at | s.invalidated <= at < |s.history| ensures Listed(k, i, Says(s.history[at], Asks(k)[i]), item) {
        assert Listed(k, i, Says(t.history[at], Asks(k)[i]), item);
      }
    }
    forall k | NeverFlat(t, k) ensures NeverFlat(s, k) {
      if k.SchemasOf? && k.db != "" {
        forall at | s.invalidated <= at < |s.history| ensures !FoldersOnly(Says(s.history[at], AtRoot), k.db) {
          assert !FoldersOnly(Says(t.history[at], AtRoot), k.db);
        }
      }
    }
  }

  /** One kind's names, as they were listed. */
  lemma OfWhole(s: State, key: Key, r: Reply, kind: Kind, item: Item)
    requires r.Nodes? && ReplyFresh(s, Asks(key)[0], r) && AllAlong(s, key, 0, item)
    requires !key.ObjectsOf? && kind == KindOf(key)
    ensures Named(Of(r.nodes, kind), item.name)
  {
    var at :| s.invalidated <= at < |s.history| && r.nodes == Says(s.history[at], Asks(key)[0]);
    assert Listed(key, 0, Says(s.history[at], Asks(key)[0]), item);
    var n :| n in r.nodes && Lists(key, 0, n, item);
    OfSaid(r.nodes, kind, ItemOf(n));
    assert ItemOf(n) in Of(r.nodes, kind);
    var j :| 0 <= j < |Of(r.nodes, kind)| && Of(r.nodes, kind)[j] == ItemOf(n);
  }

  lemma GatheredWhole(s: State, path: seq<string>, replies: seq<Reply>, i: nat, item: Item)
    requires |replies| == 4 && i < 4 && replies[i].Nodes? && ReplyFresh(s, Asks(ObjectsOf(path))[i], replies[i])
    requires AllAlong(s, ObjectsOf(path), i, item)
    ensures Named(Gathered(replies), item.name)
  {
    var q := Asks(ObjectsOf(path))[i];
    var at :| s.invalidated <= at < |s.history| && replies[i].nodes == Says(s.history[at], q);
    assert Listed(ObjectsOf(path), i, Says(s.history[at], q), item);
    var n :| n in replies[i].nodes && Lists(ObjectsOf(path), i, n, item);
    GatheredIs(path, replies);
  }

  /** A landing of answers that are no failures writes what is whole. */
  lemma RecordedWhole(s: State, l: Load, k: Key)
    requires AllFresh(s) && AllWhole(s) && LoadFresh(s, l) && Answered(s, l) && l.gen == s.gen && Ready(l)
    requires k in Recorded(s.entries, l.key, l.replies)
    ensures Whole(s, k, Recorded(s.entries, l.key, l.replies)[k])
  {
    assert ReplyFresh(s, Asks(l.key)[0], l.replies[0]) && l.replies[0].Nodes?;
    RecordedKeys(s.entries, l.key, l.replies);
    if k in Writes(l.key, l.replies) && NeverFlat(s, k) {
      if k != l.key { FlatWhole(s, l); }
      forall i: nat, item | i < |Asks(k)| && AllAlong(s, k, i, item)
        ensures Named(Recorded(s.entries, l.key, l.replies)[k].items, item.name)
      {
        assert ReplyFresh(s, Asks(k)[i], l.replies[i]) && l.replies[i].Nodes?;
        hide AllFresh, AllWhole, LoadFresh, ReplyFresh, AllAlong, Gathered, Of, FlatOf, CurrentOf;
        match k {
          case ObjectsOf(path) => GatheredWhole(s, path, l.replies, i, item);
          case Root => RootWhole(s, l.replies[0], item);
          case SchemasOf(_) => OfWhole(s, k, l.replies[0], Schema, item);
          case ColumnsOf(_) => OfWhole(s, k, l.replies[0], Column, item);
          case RoutinesOf(_) => OfWhole(s, k, l.replies[0], Routine, item);
        }
      }
    }
  }

  /** The schemas of a database that only folders tell of are written as none. */
  lemma FlatWhole(s: State, l: Load)
    requires l.key == Root && |l.replies| == 1 && l.replies[0].Nodes? && ReplyFresh(s, AtRoot, l.replies[0])
    requires Writes(Root, l.replies) != {Root}
    ensures !NeverFlat(s, SchemasOf(FlatOf(l.replies[0].nodes)))
  {
    var at :| s.invalidated <= at < |s.history| && l.replies[0].nodes == Says(s.history[at], AtRoot);
    assert FoldersOnly(Says(s.history[at], AtRoot), FlatOf(l.replies[0].nodes));
  }

  lemma RootWhole(s: State, r: Reply, item: Item)
    requires r.Nodes? && ReplyFresh(s, AtRoot, r) && AllAlong(s, Root, 0, item)
    ensures Named(Of(r.nodes, Database), item.name) && Of(r.nodes, Database) != []
  {
    OfWhole(s, Root, r, Database, item);
  }

  lemma RepliedAnswered(s: State, l: Load)
    requires |s.history| > 0 && Answered(s, l) && Asking(l)
    ensures Answered(s, Replied(l, s.history[|s.history| - 1], false))
  {
  }

  lemma NextWhole(s: State, e: Event)
    requires AllFresh(s) && AllWhole(s) && !(e.Answers? && e.fails)
    ensures AllWhole(Next(s, e))
  {
    var t := Next(s, e);
    match e {
      case Wanted(key) => StillWhole(s, t);
      case Answers(i, fails) =>
        StillWhole(s, t);
        if i < |s.flying| && Asking(s.flying[i]) { RepliedAnswered(s, s.flying[i]); }
      case Lands(i) =>
        if i < |s.flying| && Ready(s.flying[i]) {
          LandsWhole(s, i);
        }
      case Invalidated => InvalidatedWhole(s);
      case Changed(truth) => StillWhole(s, t);
    }
  }

  lemma LandsWhole(s: State, i: nat)
    requires AllFresh(s) && AllWhole(s) && i < |s.flying| && Ready(s.flying[i])
    ensures AllWhole(Next(s, Lands(i)))
  {
    var t, l := Next(s, Lands(i)), s.flying[i];
    assert LoadFresh(s, l) && Answered(s, l);
    StillWhole(s, t);
    if l.gen == s.gen {
      forall k | k in t.entries ensures Whole(s, k, t.entries[k]) { RecordedWhole(s, l, k); }
    }
    hide Whole, Recorded, AllFresh, Answered;
    forall j | 0 <= j < |t.flying| ensures Answered(s, t.flying[j]) {
      assert t.flying[j] == s.flying[if j < i then j else j + 1];
    }
  }

  /** After an Invalidate nothing is cached, and no load asked before it counts. */
  lemma InvalidatedWhole(s: State)
    requires AllFresh(s)
    ensures AllWhole(Next(s, Invalidated))
  {
    forall i | 0 <= i < |s.flying| ensures s.flying[i].gen <= s.gen { assert LoadFresh(s, s.flying[i]); }
  }

  /** Where no question has failed since the latest Invalidate, a name that the
      source would have listed for a question of a key at every time since is in
      every cached list of that key. */
  lemma {:induction false} EveryNameThere(truth: Truth, es: seq<Event>)
    requires Unfailing(es)
    ensures AllWhole(Run(truth, es))
  {
    if es != [] {
      var init, e := es[..|es| - 1], es[|es| - 1];
      EveryNameFresh(truth, init);
      if e == Invalidated {
        InvalidatedWhole(Run(truth, init));
      } else {
        EveryNameThere(truth, init);
        NextWhole(Run(truth, init), e);
      }
    }
  }

  // ----- the database in use

  predicate InUse(n: Node) { n.kind == Database && n.current }
  predicate OfFolder(n: Node) { n.kind == Folder && |n.path| >= 2 }

  /** The last database these nodes mark as the one in use. */
  ghost predicate LastInUse(nodes: seq<Node>, db: string) {
    exists i :: 0 <= i < |nodes| && InUse(nodes[i]) && NameOf(nodes[i]) == db && forall j :: i < j < |nodes| ==> !InUse(nodes[j])
  }

  /** No database, and the last folder below one is below this. */
  ghost predicate LastFolder(nodes: seq<Node>, db: string) {
    && (forall j :: 0 <= j < |nodes| ==> nodes[j].kind != Database)
    && exists i :: 0 <= i < |nodes| && OfFolder(nodes[i]) && nodes[i].path[0] == db && forall j :: i < j < |nodes| ==> !OfFolder(nodes[j])
  }

  lemma {:induction false} CurrentIs(nodes: seq<Node>, db: string)
    requires LastInUse(nodes, db)
    ensures CurrentOf(nodes) == db && Of(nodes, Database) != []
  {
    var i :| 0 <= i < |nodes| && InUse(nodes[i]) && NameOf(nodes[i]) == db && forall j :: i < j < |nodes| ==> !InUse(nodes[j]);
    var init := nodes[..|nodes| - 1];
    if i < |init| {
      assert InUse(init[i]) && NameOf(init[i]) == db;
      CurrentIs(init, db);
      assert !InUse(nodes[|nodes| - 1]);
    }
  }

  lemma {:induction false} FlatIs(nodes: seq<Node>, db: string)
    requires LastFolder(nodes, db)
    ensures FlatOf(nodes) == db && Of(nodes, Database) == []
  {
    var i :| 0 <= i < |nodes| && OfFolder(nodes[i]) && nodes[i].path[0] == db && forall j :: i < j < |nodes| ==> !OfFolder(nodes[j]);
    var init := nodes[..|nodes| - 1];
    if i < |init| {
      assert OfFolder(init[i]) && init[i].path[0] == db;
      FlatIs(init, db);
      assert !OfFolder(nodes[|nodes| - 1]);
    } else {
      NoneOf(init);
    }
  }

  lemma {:induction false} NoneOf(nodes: seq<Node>)
    requires forall j :: 0 <= j < |nodes| ==> nodes[j].kind != Database
    ensures Of(nodes, Database) == []
  {
    if nodes != [] { NoneOf(nodes[..|nodes| - 1]); }
  }

  /** At every time since the latest Invalidate it is the one the source says is in use. */
  ghost predicate InUseAllAlong(s: State, db: string) {
    forall at :: s.invalidated <= at < |s.history| ==> LastInUse(Says(s.history[at], AtRoot), db)
  }

  ghost predicate FolderAllAlong(s: State, db: string) {
    forall at :: s.invalidated <= at < |s.history| ==> LastFolder(Says(s.history[at], AtRoot), db)
  }

  /** What is held of the databases has the one in use, or the one there is. */
  ghost predicate Told(s: State, h: Held) {
    && (forall db :: InUseAllAlong(s, db) ==> h.current == db)
    && (forall db :: FolderAllAlong(s, db) && db != "" ==> h == Held([Item(db, Database, "")], db))
  }

  ghost predicate RootTold(s: State) { Root in s.entries ==> Told(s, s.entries[Root]) }

  lemma StillTold(s: State, t: State, h: Held)
    requires s.invalidated == t.invalidated && s.history <= t.history && Told(s, h)
    ensures Told(t, h)
  {
    assert forall at :: 0 <= at < |s.history| ==> t.history[at] == s.history[at];
    hide LastInUse, LastFolder, Says;
    forall db | InUseAllAlong(t, db) ensures InUseAllAlong(s, db) {
      forall at | s.invalidated <= at < |s.history| ensures LastInUse(Says(s.history[at], AtRoot), db) {
        assert LastInUse(Says(t.history[at], AtRoot), db);
      }
    }
    forall db | FolderAllAlong(t, db) ensures FolderAllAlong(s, db) {
      forall at | s.invalidated <= at < |s.history| ensures LastFolder(Says(s.history[at], AtRoot), db) {
        assert LastFolder(Says(t.history[at], AtRoot), db);
      }
    }
  }

  /** A landing of the databases writes the one in use. */
  lemma RecordedTold(s: State, r: Reply)
    requires r.Nodes? && ReplyFresh(s, AtRoot, r)
    ensures Told(s, Recorded(s.entries, Root, [r])[Root])
  {
    var at :| s.invalidated <= at < |s.history| && r.nodes == Says(s.history[at], AtRoot);
    hide Of, CurrentOf, FlatOf, LastInUse, LastFolder;
    var h := Recorded(s.entries, Root, [r])[Root];
    forall db | InUseAllAlong(s, db) ensures h.current == db {
      assert LastInUse(Says(s.history[at], AtRoot), db);
      CurrentIs(r.nodes, db);
    }
    forall db | FolderAllAlong(s, db) && db != "" ensures h == Held([Item(db, Database, "")], db) {
      assert LastFolder(Says(s.history[at], AtRoot), db);
      FlatIs(r.nodes, db);
    }
  }

  lemma LandsTold(s: State, i: nat)
    requires AllFresh(s) && AllWhole(s) && RootTold(s) && i < |s.flying| && Ready(s.flying[i])
    ensures RootTold(Next(s, Lands(i)))
  {
    var t, l := Next(s, Lands(i)), s.flying[i];
    assert LoadFresh(s, l) && Answered(s, l);
    if l.gen == s.gen && Root in t.entries {
      RecordedKeys(s.entries, l.key, l.replies);
      if l.key == Root {
        assert ReplyFresh(s, AtRoot, l.replies[0]) && l.replies == [l.replies[0]];
        RecordedTold(s, l.replies[0]);
      }
      hide Recorded;
      StillTold(s, t, t.entries[Root]);
    } else if Root in s.entries {
      StillTold(s, t, s.entries[Root]);
    }
  }

  lemma NextTold(s: State, e: Event)
    requires AllFresh(s) && AllWhole(s) && RootTold(s)
    ensures RootTold(Next(s, e))
  {
    if e.Lands? && e.load < |s.flying| && Ready(s.flying[e.load]) {
      LandsTold(s, e.load);
    } else if e != Invalidated && Root in s.entries {
      hide Told, AllFresh, AllWhole, Recorded;
      StillTold(s, Next(s, e), s.entries[Root]);
    }
  }

  /** Where no question has failed since the latest Invalidate, the database the
      source has said is in use at every time since is the cached one, and so is
      the one database of a source that has only told of folders. */
  lemma {:induction false} CurrentThere(truth: Truth, es: seq<Event>)
    requires Unfailing(es)
    ensures var s := Run(truth, es); Root in s.entries ==> Told(s, s.entries[Root])
  {
    if es != [] {
      var init, e := es[..|es| - 1], es[|es| - 1];
      if e != Invalidated {
        EveryNameFresh(truth, init);
        EveryNameThere(truth, init);
        CurrentThere(truth, init);
        hide AllFresh, AllWhole, Told;
        NextTold(Run(truth, init), e);
      }
    }
  }

  // ----- what is not promised

  /** The answers the source gives to a load's first n questions, were it not to change. */
  function Replies(truth: Truth, k: Key, n: nat): seq<Reply>
    requires n <= |Asks(k)|
  {
    seq(n, i requires 0 <= i < n => Nodes(Says(truth, Asks(k)[i])))
  }

  function Failures(n: nat): seq<Reply> { seq(n, i => Failed) }

  /** A load asked for, and its first n questions answered, or failed. */
  lemma {:induction false} Asked(truth: Truth, k: Key, n: nat, fails: bool) returns (es: seq<Event>)
    requires n <= |Asks(k)|
    ensures Run(truth, es) == State(0, map[], {k}, [Load(k, 0, if fails then Failures(n) else Replies(truth, k, n))], [truth], 0, map[])
    decreases n
  {
    hide Run, Says;
    if n == 0 {
      RunNothing(truth);
      es := RunTo(truth, [], Start(truth), Wanted(k), State(0, map[], {k}, [Load(k, 0, [])], [truth], 0, map[]));
    } else {
      es := Asked(truth, k, n - 1, fails);
      var was := Load(k, 0, if fails then Failures(n - 1) else Replies(truth, k, n - 1));
      var now := Load(k, 0, if fails then Failures(n) else Replies(truth, k, n));
      assert Replied(was, truth, fails).replies == now.replies;
      es := RunTo(truth, es, State(0, map[], {k}, [was], [truth], 0, map[]), Answers(0, fails),
                  State(0, map[], {k}, [now], [truth], 0, map[]));
    }
  }

  /** A load whose questions all fail lands as an empty answer, whatever the
      source has to say: the names are not lost, and are not asked for again
      until an Invalidate. */
  lemma FailureIsEmpty(truth: Truth, k: Key) returns (es: seq<Event>)
    ensures var s := Run(truth, es); k in s.entries && s.entries[k].items == [] && s.history == [truth]
  {
    var n := |Asks(k)|;
    es := Asked(truth, k, n, true);
    hide Run, Says;
    var l := Load(k, 0, Failures(n));
    NoneGathered(n);
    es := RunTo(truth, es, State(0, map[], {k}, [l], [truth], 0, map[]), Lands(0),
                State(0, map[k := Held([], "")], {}, [], [truth], 0, map[]));
  }

  lemma {:induction false} NoneGathered(n: nat)
    ensures Gathered(Failures(n)) == []
  {
    if n > 0 {
      NoneGathered(n - 1);
      assert Failures(n)[..n - 1] == Failures(n - 1);
    }
  }

  /** A list of objects need not be one the source ever had: its questions are
      answered one at a time, and here a table goes and a view comes between them. */
  lemma TornList(path: seq<string>) returns (truth: Truth, es: seq<Event>, a: Item, b: Item)
    ensures var s := Run(truth, es);
      && ObjectsOf(path) in s.entries && s.entries[ObjectsOf(path)].items == [a, b]
      && forall at :: 0 <= at < |s.history| ==> !(Tells(s.history[at], ObjectsOf(path), a) && Tells(s.history[at], ObjectsOf(path), b))
  {
    var k, table, view := ObjectsOf(path), Node(Table, path + ["a"], "", false), Node(View, path + ["b"], "", false);
    var later: Truth := map[InClass(path, View) := [view]];
    truth, a, b := map[InClass(path, Table) := [table]], ItemOf(table), ItemOf(view);
    TornTells(path, truth, later, a, b);
    TornGathered(table, view);
    es := Asked(truth, k, 2, false);
    var whole := [Nodes([]), Nodes([table]), Nodes([view]), Nodes([])];
    assert Replies(truth, k, 2) == whole[..2];
    TornReplies(path, later, view, whole);
    hide Run, Gathered, Tells, Next, Says;
    es := RunTo(truth, es, Torn(truth, [truth], k, whole[..2]), Changed(later), Torn(truth, [truth, later], k, whole[..2]));
    es := RunTo(truth, es, Torn(truth, [truth, later], k, whole[..2]), Answers(0, false), Torn(truth, [truth, later], k, whole[..3]));
    es := RunTo(truth, es, Torn(truth, [truth, later], k, whole[..3]), Answers(0, false), Torn(truth, [truth, later], k, whole));
    TornLands(truth, later, k, whole);
    es := RunTo(truth, es, Torn(truth, [truth, later], k, whole), Lands(0),
                State(0, map[k := Held([a, b], "")], {}, [], [truth, later], 0, map[]));
  }

  function Torn(truth: Truth, history: seq<Truth>, k: Key, replies: seq<Reply>): State {
    State(0, map[], {k}, [Load(k, 0, replies)], history, 0, map[])
  }

  lemma TornReplies(path: seq<string>, later: Truth, view: Node, whole: seq<Reply>)
    requires later == map[InClass(path, View) := [view]] && |whole| == 4 && whole[2] == Nodes([view]) && whole[3] == Nodes([])
    ensures forall truth, k :: k == ObjectsOf(path) ==>
              && Next(Torn(truth, [truth], k, whole[..2]), Changed(later)) == Torn(truth, [truth, later], k, whole[..2])
              && Next(Torn(truth, [truth, later], k, whole[..2]), Answers(0, false)) == Torn(truth, [truth, later], k, whole[..3])
              && Next(Torn(truth, [truth, later], k, whole[..3]), Answers(0, false)) == Torn(truth, [truth, later], k, whole)
  {
    var k := ObjectsOf(path);
    assert [later] == [later];
    assert Says(later, Asks(k)[2]) == [view] && Says(later, Asks(k)[3]) == [];
    assert whole[..2] + [Nodes([view])] == whole[..3] && whole[..3] + [Nodes([])] == whole;
    assert Replied(Load(k, 0, whole[..2]), later, false) == Load(k, 0, whole[..3]);
    assert Replied(Load(k, 0, whole[..3]), later, false) == Load(k, 0, whole);
    forall truth: Truth ensures [truth] + [later] == [truth, later] && [truth, later][1] == later { }
  }

  lemma TornLands(truth: Truth, later: Truth, k: Key, whole: seq<Reply>)
    requires k.ObjectsOf? && |whole| == 4
    ensures Next(Torn(truth, [truth, later], k, whole), Lands(0))
         == State(0, map[k := Held(Gathered(whole), "")], {}, [], [truth, later], 0, map[])
  {
    hide Gathered;
  }

  lemma TornGathered(table: Node, view: Node)
    requires table.kind == Table && view.kind == View && NameOf(table) == "a" && NameOf(view) == "b"
    ensures Gathered([Nodes([]), Nodes([table]), Nodes([view]), Nodes([])]) == [ItemOf(table), ItemOf(view)]
  {
    GatheredMore([], Nodes([]));
    GatheredMore([Nodes([])], Nodes([table]));
    GatheredMore([Nodes([]), Nodes([table])], Nodes([view]));
    GatheredMore([Nodes([]), Nodes([table]), Nodes([view])], Nodes([]));
    TakeOne([], table, 1);
    TakeOne([ItemOf(table)], view, 2);
    hide Gathered, Take, NameOf;
    assert [] + [Nodes([])] == [Nodes([])] && [Nodes([])] + [Nodes([table])] == [Nodes([]), Nodes([table])];
    assert [Nodes([]), Nodes([table])] + [Nodes([view])] == [Nodes([]), Nodes([table]), Nodes([view])];
    assert [Nodes([]), Nodes([table]), Nodes([view])] + [Nodes([])] == [Nodes([]), Nodes([table]), Nodes([view]), Nodes([])];
    TakeNone();
    assert [] + [ItemOf(table)] == [ItemOf(table)];
    assert [ItemOf(table)] + [ItemOf(view)] == [ItemOf(table), ItemOf(view)];
  }

  lemma GatheredMore(replies: seq<Reply>, r: Reply)
    ensures Gathered([]) == []
    ensures Gathered(replies + [r]) == if r.Failed? then Gathered(replies) else Take(Gathered(replies), r.nodes, |replies|)
  {
    assert (replies + [r])[..|replies|] == replies;
  }

  lemma TakeNone()
    ensures forall items, i :: Take(items, [], i) == items
  {
  }

  lemma TakeOne(items: seq<Item>, n: Node, i: nat)
    ensures Take(items, [n], i) == if OfClass(i, n.kind) && !Named(items, NameOf(n)) then items + [ItemOf(n)] else items
  {
    assert [n][..0] == [];
  }

  lemma TornTells(path: seq<string>, truth: Truth, later: Truth, a: Item, b: Item)
    requires truth == map[InClass(path, Table) := [Node(Table, path + ["a"], "", false)]]
    requires later == map[InClass(path, View) := [Node(View, path + ["b"], "", false)]]
    requires a.kind == Table && b.kind == View
    ensures !Tells(truth, ObjectsOf(path), b) && !Tells(later, ObjectsOf(path), a)
  {
  }

  /** A load from before an Invalidate takes the mark of the one begun after it,
      and then the key is asked for twice at once. */
  lemma TwiceAtOnce(truth: Truth, k: Key) returns (es: seq<Event>)
    ensures var s := Run(truth, es); Flying(s.flying, k, s.gen) == 2 && Late(s, k) == 1
  {
    var n := |Asks(k)|;
    var l, read := Load(k, 1, []), Load(k, 0, Replies(truth, k, n));
    es := Asked(truth, k, n, false);
    hide Flying, Run, Says, Late, Next, Replies;
    var s3, s4 := State(1, map[], {}, [read], [truth], 0, map[]), State(1, map[], {k}, [read, l], [truth], 0, map[]);
    var s5, s6 := State(1, map[], {}, [l], [truth], 0, map[k := 1]), State(1, map[], {k}, [l, l], [truth], 0, map[k := 1]);
    MarkTaken(truth, k, read, l);
    es := RunTo(truth, es, State(0, map[], {k}, [read], [truth], 0, map[]), Invalidated, s3);
    es := RunTo(truth, es, s3, Wanted(k), s4);
    es := RunTo(truth, es, s4, Lands(0), s5);
    es := RunTo(truth, es, s5, Wanted(k), s6);
    FlyingParts([l], [l], k, 1);
    FlyingOne(l, k, 1);
    assert [l] + [l] == [l, l];
    LateOne(s6, k);
  }

  lemma MarkTaken(truth: Truth, k: Key, read: Load, l: Load)
    requires read.key == k && read.gen == 0 && Ready(read) && l == Load(k, 1, [])
    ensures Next(State(0, map[], {k}, [read], [truth], 0, map[]), Invalidated) == State(1, map[], {}, [read], [truth], 0, map[])
    ensures Next(State(1, map[], {}, [read], [truth], 0, map[]), Wanted(k)) == State(1, map[], {k}, [read, l], [truth], 0, map[])
    ensures Next(State(1, map[], {k}, [read, l], [truth], 0, map[]), Lands(0)) == State(1, map[], {}, [l], [truth], 0, map[k := 1])
    ensures Next(State(1, map[], {}, [l], [truth], 0, map[k := 1]), Wanted(k)) == State(1, map[], {k}, [l, l], [truth], 0, map[k := 1])
  {
    hide Late;
    LateNothing(State(1, map[], {k}, [read, l], [truth], 0, map[]), k);
    assert Without([read, l], 0) == [l];
  }

  lemma LateNothing(s: State, k: Key)
    requires s.late == map[]
    ensures Late(s, k) == 0
  {
  }

  lemma LateOne(s: State, k: Key)
    requires s.late == map[k := 1]
    ensures Late(s, k) == 1
  {
  }

  lemma RunNothing(truth: Truth)
    ensures Run(truth, []) == Start(truth)
  {
  }

  /** One more step of a run, to a state that is written out. */
  lemma RunTo(truth: Truth, es: seq<Event>, s: State, e: Event, t: State) returns (more: seq<Event>)
    requires Run(truth, es) == s && Next(s, e) == t
    ensures Run(truth, more) == t
  {
    RunStep(truth, es, e);
    more := es + [e];
  }

  lemma RunStep(truth: Truth, es: seq<Event>, e: Event)
    ensures Run(truth, es + [e]) == Next(Run(truth, es), e)
  {
    assert (es + [e])[..|es|] == es;
  }

  // ----- reading the answers

  /** The databases at the root, the one the connection is in, and the one a
      source without databases is. */
  method ReadRoot(nodes: seq<Node>) returns (dbs: seq<Item>, current: string, flat: string)
    ensures dbs == Of(nodes, Database) && current == CurrentOf(nodes) && flat == FlatOf(nodes)
  {
    dbs, current, flat := [], "", "";
    for i := 0 to |nodes|
      invariant dbs == Of(nodes[..i], Database) && current == CurrentOf(nodes[..i]) && flat == FlatOf(nodes[..i])
    {
      assert nodes[..i + 1][..i] == nodes[..i];
      var n := nodes[i];
      if n.kind == Database {
        dbs := dbs + [ItemOf(n)];
        if n.current { current := NameOf(n); }
      } else if n.kind == Folder && |n.path| >= 2 {
        flat := n.path[0];
      }
    }
    assert nodes[..|nodes|] == nodes;
  }

  method ReadKind(nodes: seq<Node>, kind: Kind) returns (items: seq<Item>)
    ensures items == Of(nodes, kind)
  {
    items := [];
    for i := 0 to |nodes|
      invariant items == Of(nodes[..i], kind)
    {
      assert nodes[..i + 1][..i] == nodes[..i];
      if nodes[i].kind == kind { items := items + [ItemOf(nodes[i])]; }
    }
    assert nodes[..|nodes|] == nodes;
  }

  /** The objects of every answer that did not fail, each name once. */
  method ReadObjects(replies: seq<Reply>) returns (objs: seq<Item>)
    ensures objs == Gathered(replies)
  {
    objs := [];
    for i := 0 to |replies|
      invariant objs == Gathered(replies[..i])
    {
      assert replies[..i + 1][..i] == replies[..i];
      if replies[i].Nodes? { objs := TakeNodes(objs, replies[i].nodes, i); }
    }
    assert replies[..|replies|] == replies;
  }

  method TakeNodes(objs: seq<Item>, nodes: seq<Node>, i: nat) returns (out: seq<Item>)
    ensures out == Take(objs, nodes, i)
  {
    out := objs;
    for k := 0 to |nodes|
      invariant out == Take(objs, nodes[..k], i)
    {
      assert nodes[..k + 1][..k] == nodes[..k];
      var n := nodes[k];
      if OfClass(i, n.kind) && !Named(out, NameOf(n)) { out := out + [ItemOf(n)]; }
    }
    assert nodes[..|nodes|] == nodes;
  }

  // ----- the cache itself

  /** The cache, the loads it has begun and the source they read. Each method is
      one section under the lock, or one answer from the source. */
  class Cache {
    var gen: nat
    var entries: map<Key, Held>
    var loading: set<Key>
    var flying: seq<Load>
    var history: seq<Truth>
    ghost var invalidated: nat
    ghost var late: map<Key, nat>

    ghost function Now(): State
      reads this
    {
      State(gen, entries, loading, flying, history, invalidated, late)
    }

    ghost predicate Valid()
      reads this
    {
      |history| > 0
    }

    constructor (truth: Truth)
      ensures Valid() && Now() == Start(truth)
    {
      gen, entries, loading, flying, history := 0, map[], {}, [], [truth];
      invalidated, late := 0, map[];
    }

    /** A lookup answers from memory at once, and begins a load where it has no answer. */
    method Lookup(key: Key) returns (items: seq<Item>, known: bool)
      requires Valid()
      modifies this
      ensures Valid() && Now() == Next(old(Now()), Wanted(key))
      ensures known <==> key in old(entries)
      ensures items == if known then old(entries)[key].items else []
    {
      if key in entries { return entries[key].items, true; }
      Begin(key);
      return [], false;
    }

    method Begin(key: Key)
      requires Valid() && key !in entries
      modifies this
      ensures Valid() && Now() == Next(old(Now()), Wanted(key))
    {
      if key in loading { return; }
      loading := loading + {key};
      flying := flying + [Load(key, gen, [])];
    }

    /** The source answers a load's next question, or fails to. */
    method AnswerLoad(i: nat, fails: bool)
      requires Valid()
      modifies this
      ensures Valid() && Now() == Next(old(Now()), Answers(i, fails))
    {
      if i >= |flying| || !Asking(flying[i]) { return; }
      flying := flying[i := Replied(flying[i], history[|history| - 1], fails)];
    }

    method Land(i: nat)
      requires Valid()
      modifies this
      ensures Valid() && Now() == Next(old(Now()), Lands(i))
    {
      if i >= |flying| || !Ready(flying[i]) { return; }
      var l := flying[i];
      flying := flying[..i] + flying[i + 1..];
      loading := loading - {l.key};
      var stale := l.gen != gen;
      if !stale { entries := Record(l.key, l.replies); }
      else { late := late[l.key := Late(Now(), l.key) + 1]; }
    }

    /** What a load leaves behind. */
    method Record(key: Key, replies: seq<Reply>) returns (to: map<Key, Held>)
      requires |replies| == |Asks(key)|
      ensures to == Recorded(entries, key, replies)
    {
      match key {
        case Root =>
          if replies[0].Failed? { return Known(entries, key); }
          var dbs, current, flat := ReadRoot(replies[0].nodes);
          to := entries[key := Held(dbs, current)];
          if dbs == [] && flat != "" {
            to := entries[key := Held([Item(flat, Database, "")], flat)][SchemasOf(flat) := Held([], "")];
          }
        case SchemasOf(_) =>
          if replies[0].Failed? { return Known(entries, key); }
          var items := ReadKind(replies[0].nodes, Schema);
          to := entries[key := Held(items, "")];
        case ObjectsOf(_) =>
          var items := ReadObjects(replies);
          to := entries[key := Held(items, "")];
        case ColumnsOf(_) =>
          var items := [];
          if replies[0].Nodes? { items := ReadKind(replies[0].nodes, Column); }
          to := entries[key := Held(items, "")];
        case RoutinesOf(_) =>
          var items := [];
          if replies[0].Nodes? { items := ReadKind(replies[0].nodes, Routine); }
          to := entries[key := Held(items, "")];
      }
    }

    method Invalidate()
      requires Valid()
      modifies this
      ensures Valid() && Now() == Next(old(Now()), Invalidated)
    {
      gen, entries, loading := gen + 1, map[], {};
      invalidated, late := |history| - 1, map[];
    }

    method Change(truth: Truth)
      requires Valid()
      modifies this
      ensures Valid() && Now() == Next(old(Now()), Changed(truth))
    {
      history := history + [truth];
    }
  }
}
