/** Renames first (internal/app/ddl.go:31-64): once they are made, the rest of a
    change is rendered by matching columns by name, and a name must then be its
    own column's. */
module PlanDdl {
  import opened TableDesign

  datatype Step = Step(from: string, to: string)

  predicate IsRename(c: ColumnChange, fold: string -> string) {
    c.Altered? && fold(c.from.name) != fold(c.to.name)
  }

  function Renames(changes: seq<ColumnChange>, fold: string -> string): seq<Step> {
    if changes == [] then []
    else
      var c := changes[|changes| - 1];
      Renames(changes[..|changes| - 1], fold) + if IsRename(c, fold) then [Step(c.from.name, c.to.name)] else []
  }

  /** What a name has become once the renames are made in turn. */
  function Renamed(steps: seq<Step>, n: string): string {
    if steps == [] then n
    else
      var m, s := Renamed(steps[..|steps| - 1], n), steps[|steps| - 1];
      if m == s.from then s.to else m
  }

  /** The renames, and the table they leave. Each is to whatever now goes by the name. */
  method PlanRenames(from: seq<Column>, changes: seq<ColumnChange>, fold: string -> string)
    returns (steps: seq<Step>, work: seq<Column>)
    ensures steps == Renames(changes, fold)
    ensures |work| == |from| && forall j :: 0 <= j < |from| ==> work[j] == from[j].(name := Renamed(steps, from[j].name))
  {
    hide Renamed;
    steps, work := [], from;
    forall j | 0 <= j < |from| ensures Renamed([], from[j].name) == from[j].name { RenamedNothing(from[j].name); }
    for k := 0 to |changes|
      invariant steps == Renames(changes[..k], fold)
      invariant |work| == |from| && forall j :: 0 <= j < |from| ==> work[j] == from[j].(name := Renamed(steps, from[j].name))
    {
      assert changes[..k + 1][..k] == changes[..k];
      var c := changes[k];
      if !IsRename(c, fold) { continue; }
      var s := Step(c.from.name, c.to.name);
      work := RenameAll(work, s);
      forall j | 0 <= j < |from|
        ensures Renamed(steps + [s], from[j].name) == if Renamed(steps, from[j].name) == s.from then s.to else Renamed(steps, from[j].name)
      {
        RenamedMore(steps, s, from[j].name);
      }
      steps := steps + [s];
    }
    assert changes[..|changes|] == changes;
  }

  method RenameAll(columns: seq<Column>, s: Step) returns (out: seq<Column>)
    ensures |out| == |columns|
    ensures forall j :: 0 <= j < |columns| ==> out[j] == if columns[j].name == s.from then columns[j].(name := s.to) else columns[j]
  {
    out := columns;
    for i := 0 to |columns|
      invariant |out| == |columns|
      invariant forall j :: 0 <= j < i ==> out[j] == if columns[j].name == s.from then columns[j].(name := s.to) else columns[j]
      invariant forall j :: i <= j < |columns| ==> out[j] == columns[j]
    {
      if out[i].name == s.from { out := out[i := out[i].(name := s.to)]; }
    }
  }

  lemma RenamedNothing(n: string)
    ensures Renamed([], n) == n
  {
  }

  lemma RenamedMore(steps: seq<Step>, s: Step, n: string)
    ensures Renamed(steps + [s], n) == if Renamed(steps, n) == s.from then s.to else Renamed(steps, n)
  {
    assert (steps + [s])[..|steps|] == steps;
  }

  // ----- a design's renames

  /** A design: what was read, what is wanted, and which came from which. */
  datatype Plan = Plan(from: seq<Column>, to: seq<Column>, origin: seq<int>)

  ghost predicate IsPlan(p: Plan) {
    && |p.to| == |p.origin| && Ordered(p.origin, |p.from|) && NamesApart(p.from)
    && forall i, j :: 0 <= i < j < |p.to| ==> p.to[i].name != p.to[j].name
  }

  /** The column came from one of another name, more than its case apart. */
  predicate RenamedAt(p: Plan, fold: string -> string, i: int)
    requires |p.to| == |p.origin| && Within(p.origin, |p.from|)
  {
    0 <= i < |p.to| && p.origin[i] >= 0 && fold(p.from[p.origin[i]].name) != fold(p.to[i].name)
  }

  /** A column is renamed here from that name. */
  predicate RenamedFrom(p: Plan, fold: string -> string, i: int, n: string)
    requires |p.to| == |p.origin| && Within(p.origin, |p.from|)
  {
    RenamedAt(p, fold, i) && p.from[p.origin[i]].name == n
  }

  function StepsOf(p: Plan, fold: string -> string, i: nat): seq<Step>
    requires i <= |p.to| == |p.origin| && Within(p.origin, |p.from|)
  {
    if i == 0 then []
    else StepsOf(p, fold, i - 1) + if RenamedAt(p, fold, i - 1) then [Step(p.from[p.origin[i - 1]].name, p.to[i - 1].name)] else []
  }

  /** A name after the first `i` columns' renames. */
  function After(p: Plan, fold: string -> string, i: nat, n: string): string
    requires i <= |p.to| == |p.origin| && Within(p.origin, |p.from|)
  {
    Renamed(StepsOf(p, fold, i), n)
  }

  lemma AfterMore(p: Plan, fold: string -> string, i: nat, n: string)
    requires i < |p.to| == |p.origin| && Within(p.origin, |p.from|)
    ensures After(p, fold, i + 1, n)
         == if RenamedFrom(p, fold, i, After(p, fold, i, n)) then p.to[i].name else After(p, fold, i, n)
  {
    var steps := StepsOf(p, fold, i);
    if RenamedAt(p, fold, i) { RenamedMore(steps, Step(p.from[p.origin[i]].name, p.to[i].name), n); }
    else { assert steps + [] == steps; }
  }

  lemma {:induction false} NoDropRenames(from: seq<Column>, origin: seq<int>, fold: string -> string)
    ensures Renames(Drops(from, origin), fold) == []
  {
    if from != [] {
      NoDropRenames(from[..|from| - 1], origin, fold);
      var init, d := Drops(from[..|from| - 1], origin), Dropped(from[|from| - 1]);
      if |from| - 1 in origin { assert init + [] == init; } else { RenamesJoin(init, [d], fold); RenamesOne(d, fold); }
    }
  }

  lemma RenamesOne(c: ColumnChange, fold: string -> string)
    ensures Renames([c], fold) == if IsRename(c, fold) then [Step(c.from.name, c.to.name)] else []
  {
    assert [c][..0] == [];
  }

  lemma {:induction false} RenamesJoin(a: seq<ColumnChange>, b: seq<ColumnChange>, fold: string -> string)
    ensures Renames(a + b, fold) == Renames(a, fold) + Renames(b, fold)
  {
    if b == [] {
      assert a + b == a;
    } else {
      assert (a + b)[..|a + b| - 1] == a + b[..|b| - 1];
      RenamesJoin(a, b[..|b| - 1], fold);
    }
  }

  /** The renames among the changes are the columns' own, in their order. */
  lemma {:induction false} RenamesAre(p: Plan, fold: string -> string, i: nat)
    requires i <= |p.to| == |p.origin| && Within(p.origin, |p.from|)
    ensures Renames(Rest(p.from, p.to, p.origin, i), fold) == StepsOf(p, fold, i)
  {
    hide ChangeAt, RenamedAt, Renames;
    if i == 0 {
      RenamesNothing(fold);
    } else {
      RenamesAre(p, fold, i - 1);
      RenamesHere(p, fold, i - 1);
      RenamesJoin(Rest(p.from, p.to, p.origin, i - 1), ChangeAt(p.from, p.to[i - 1], p.origin[i - 1]), fold);
    }
  }

  lemma RenamesNothing(fold: string -> string)
    ensures Renames([], fold) == []
  {
  }

  lemma RenamesHere(p: Plan, fold: string -> string, i: nat)
    requires i < |p.to| == |p.origin| && Within(p.origin, |p.from|)
    ensures Renames(ChangeAt(p.from, p.to[i], p.origin[i]), fold)
         == if RenamedAt(p, fold, i) then [Step(p.from[p.origin[i]].name, p.to[i].name)] else []
  {
    var c := ChangeAt(p.from, p.to[i], p.origin[i]);
    if c != [] { RenamesOne(c[0], fold); assert c == [c[0]]; }
  }

  // ----- matching by name

  /** Matched by name, each column that stays is its own and no other. */
  ghost predicate PairsRight(p: Plan, steps: seq<Step>)
    requires |p.to| == |p.origin|
  {
    forall j, i :: 0 <= j < |p.from| && 0 <= i < |p.to| ==> (Renamed(steps, p.from[j].name) == p.to[i].name <==> p.origin[i] == j)
  }

  /** No rename is of case alone; and a column that takes the name another was read
      under takes it from one renamed away, and, if it is renamed itself, renamed
      away before it. */
  ghost predicate Clear(p: Plan, fold: string -> string)
    requires |p.to| == |p.origin| && Within(p.origin, |p.from|)
  {
    && (forall i :: 0 <= i < |p.to| && p.origin[i] >= 0 ==> p.from[p.origin[i]].name == p.to[i].name || RenamedAt(p, fold, i))
    && (forall i, j :: 0 <= i < |p.to| && 0 <= j < |p.from| && p.to[i].name == p.from[j].name && p.origin[i] != j ==> Makes(p, fold, i, j))
  }

  ghost predicate Makes(p: Plan, fold: string -> string, i: int, j: int)
    requires |p.to| == |p.origin| && Within(p.origin, |p.from|) && 0 <= i < |p.to|
  {
    exists k :: 0 <= k < |p.to| && p.origin[k] == j && RenamedAt(p, fold, k) && (p.origin[i] < 0 || k < i)
  }

  /** A name stays while nothing is renamed from it. */
  lemma {:induction false} Stays(p: Plan, fold: string -> string, a: nat, b: nat, x: string, n: string)
    requires a <= b <= |p.to| == |p.origin| && Within(p.origin, |p.from|)
    requires After(p, fold, a, x) == n
    requires forall k :: a <= k < b ==> !RenamedFrom(p, fold, k, n)
    ensures After(p, fold, b, x) == n
    decreases b - a
  {
    if a < b {
      hide After, RenamedFrom, Within;
      AfterMore(p, fold, a, x);
      Stays(p, fold, a + 1, b, x, n);
    }
  }

  /** Two names become one for good. */
  lemma {:induction false} StayOne(p: Plan, fold: string -> string, a: nat, b: nat, x: string, y: string)
    requires a <= b <= |p.to| == |p.origin| && Within(p.origin, |p.from|)
    requires After(p, fold, a, x) == After(p, fold, a, y)
    ensures After(p, fold, b, x) == After(p, fold, b, y)
    decreases b - a
  {
    if a < b {
      hide After;
      AfterMore(p, fold, a, x);
      AfterMore(p, fold, a, y);
      StayOne(p, fold, a + 1, b, x, y);
    }
  }

  lemma AfterNone(p: Plan, fold: string -> string, n: string)
    requires |p.to| == |p.origin| && Within(p.origin, |p.from|)
    ensures After(p, fold, 0, n) == n
  {
  }

  lemma Sizes(p: Plan)
    requires IsPlan(p)
    ensures |p.to| == |p.origin| && Within(p.origin, |p.from|)
  {
  }

  /** Two columns that came from one are one; two read under one name are one. */
  lemma OriginApart(p: Plan, i: nat, k: nat)
    requires IsPlan(p) && i < |p.to| && k < |p.to|
    ensures p.origin[i] == p.origin[k] >= 0 ==> i == k
  {
  }

  lemma NameApart(p: Plan, i: nat, j: nat)
    requires IsPlan(p) && i < |p.from| && j < |p.from|
    ensures p.from[i].name == p.from[j].name ==> i == j
  {
  }

  /** The name of an original column after the first `i` columns' renames, were
      each of its own column alone. */
  function Own(p: Plan, fold: string -> string, i: nat, j: nat): string
    requires i <= |p.to| == |p.origin| && Within(p.origin, |p.from|) && j < |p.from|
  {
    if i == 0 then p.from[j].name
    else if p.origin[i - 1] == j && RenamedAt(p, fold, i - 1) then p.to[i - 1].name
    else Own(p, fold, i - 1, j)
  }

  /** It is its own still, or one that a rename before gave it. */
  lemma {:induction false} OwnIs(p: Plan, fold: string -> string, i: nat, j: nat)
    requires i <= |p.to| == |p.origin| && Within(p.origin, |p.from|) && j < |p.from|
    ensures (exists k :: 0 <= k < i && p.origin[k] == j && RenamedAt(p, fold, k) && Own(p, fold, i, j) == p.to[k].name)
      || (Own(p, fold, i, j) == p.from[j].name && forall k :: 0 <= k < i && p.origin[k] == j ==> !RenamedAt(p, fold, k))
  {
    hide RenamedAt, Within;
    if i > 0 { OwnIs(p, fold, i - 1, j); }
  }

  /** Where it is clear, each rename is of its own column alone. */
  lemma {:induction false} ClearAfter(p: Plan, fold: string -> string, i: nat, j: nat)
    requires IsPlan(p) && Clear(p, fold) && i <= |p.to| && j < |p.from|
    ensures After(p, fold, i, p.from[j].name) == Own(p, fold, i, j)
    decreases i
  {
    hide After, Clear, IsPlan, Within, RenamedAt, RenamedFrom, Own;
    Sizes(p);
    OwnMore(p, fold, i, j);
    if i == 0 {
      AfterNone(p, fold, p.from[j].name);
    } else {
      ClearAfter(p, fold, i - 1, j);
      AfterMore(p, fold, i - 1, p.from[j].name);
      ClearStep(p, fold, i - 1, j);
    }
  }

  lemma OwnMore(p: Plan, fold: string -> string, i: nat, j: nat)
    requires i <= |p.to| == |p.origin| && Within(p.origin, |p.from|) && j < |p.from|
    ensures i == 0 ==> Own(p, fold, i, j) == p.from[j].name
    ensures i > 0 ==> Own(p, fold, i, j) == if p.origin[i - 1] == j && RenamedAt(p, fold, i - 1) then p.to[i - 1].name else Own(p, fold, i - 1, j)
  {
  }

  /** A rename is from a column's name exactly when it is that column's. */
  lemma ClearStep(p: Plan, fold: string -> string, i: nat, j: nat)
    requires IsPlan(p) && Clear(p, fold) && i < |p.to| && j < |p.from|
    ensures RenamedFrom(p, fold, i, Own(p, fold, i, j)) <==> RenamedAt(p, fold, i) && p.origin[i] == j
  {
    if RenamedAt(p, fold, i) {
      NotTaken(p, fold, i, j);
      if p.origin[i] == j { NotYet(p, fold, i, j); }
    }
    hide Own, Clear;
  }

  /** A column has its own name until it is renamed. */
  lemma NotYet(p: Plan, fold: string -> string, i: nat, j: nat)
    requires IsPlan(p) && i < |p.to| && p.origin[i] == j
    ensures Own(p, fold, i, j) == p.from[j].name
  {
    OnlyAt(p, j, i);
    OwnIs(p, fold, i, j);
  }

  /** Nothing else goes by the name a rename is from. */
  lemma NotTaken(p: Plan, fold: string -> string, i: nat, j: nat)
    requires IsPlan(p) && Clear(p, fold) && j < |p.from| && RenamedAt(p, fold, i)
    ensures p.origin[i] != j ==> Own(p, fold, i, j) != p.from[p.origin[i]].name
  {
    OwnIs(p, fold, i, j);
    NameApart(p, j, p.origin[i]);
    forall k | 0 <= k < i && p.origin[k] == j ensures p.to[k].name != p.from[p.origin[i]].name || p.origin[i] == j {
      NotMade(p, fold, k, i);
    }
  }

  /** Nothing takes a name before the rename from it. */
  lemma NotMade(p: Plan, fold: string -> string, k: nat, i: nat)
    requires IsPlan(p) && Clear(p, fold) && k < i < |p.to| && p.origin[i] >= 0 && p.origin[k] >= 0
    ensures p.to[k].name != p.from[p.origin[i]].name || p.origin[k] == p.origin[i]
  {
    forall m | 0 <= m < |p.to| ensures !(p.origin[m] == p.origin[i] && m < k) { OriginApart(p, m, i); }
    assert !Makes(p, fold, k, p.origin[i]);
  }

  lemma ClearMakes(p: Plan, fold: string -> string, i: nat, j: nat)
    requires IsPlan(p) && Clear(p, fold) && i < |p.to| && j < |p.from|
    ensures p.to[i].name == p.from[j].name && p.origin[i] != j ==> Makes(p, fold, i, j)
  {
  }

  lemma ClearPairs(p: Plan, fold: string -> string)
    requires IsPlan(p) && Clear(p, fold)
    ensures PairsRight(p, StepsOf(p, fold, |p.to|))
  {
    var steps := StepsOf(p, fold, |p.to|);
    forall j, i | 0 <= j < |p.from| && 0 <= i < |p.to| ensures Renamed(steps, p.from[j].name) == p.to[i].name <==> p.origin[i] == j {
      ClearAfter(p, fold, |p.to|, j);
      OwnPairs(p, fold, j, i);
    }
  }

  /** Its own name is that of the column that came from it, and of no other. */
  lemma OwnPairs(p: Plan, fold: string -> string, j: nat, i: nat)
    requires IsPlan(p) && Clear(p, fold) && j < |p.from| && i < |p.to|
    ensures Own(p, fold, |p.to|, j) == p.to[i].name <==> p.origin[i] == j
  {
    OwnIs(p, fold, |p.to|, j);
    ClearMakes(p, fold, i, j);
    if k :| 0 <= k < |p.to| && p.origin[k] == j && RenamedAt(p, fold, k) && Own(p, fold, |p.to|, j) == p.to[k].name {
      OriginApart(p, i, k);
    }
  }

  lemma PairsNoCase(p: Plan, fold: string -> string, i: nat)
    requires IsPlan(p) && PairsRight(p, StepsOf(p, fold, |p.to|)) && i < |p.to| && p.origin[i] >= 0
    ensures p.from[p.origin[i]].name == p.to[i].name || RenamedAt(p, fold, i)
  {
    var o := p.origin[i];
    if !RenamedAt(p, fold, i) { KeepsName(p, fold, o, |p.to|); }
  }

  /** A column no rename before `b` is of has its own name there. */
  lemma KeepsName(p: Plan, fold: string -> string, j: nat, b: nat)
    requires IsPlan(p) && j < |p.from| && b <= |p.to|
    requires forall k :: 0 <= k < b && p.origin[k] == j ==> !RenamedAt(p, fold, k)
    ensures After(p, fold, b, p.from[j].name) == p.from[j].name
  {
    AfterNone(p, fold, p.from[j].name);
    forall k | 0 <= k < b && RenamedAt(p, fold, k) ensures !RenamedFrom(p, fold, k, p.from[j].name) {
      NameApart(p, p.origin[k], j);
    }
    Stays(p, fold, 0, b, p.from[j].name, p.from[j].name);
  }

  lemma PairsMake(p: Plan, fold: string -> string, i: nat, j: nat)
    requires IsPlan(p) && PairsRight(p, StepsOf(p, fold, |p.to|)) && i < |p.to| && j < |p.from|
    requires p.to[i].name == p.from[j].name && p.origin[i] != j
    ensures Makes(p, fold, i, j)
  {
    var end := |p.to|;
    if k :| 0 <= k < end && p.origin[k] == j && RenamedAt(p, fold, k) {
      if p.origin[i] >= 0 && k > i {
        var o := p.origin[i];
        PairsNoCase(p, fold, i);
        NameDiffers(p, i, j);
        assert RenamedAt(p, fold, i);
        OnlyAt(p, o, i);
        KeepsName(p, fold, o, i);
        AfterMore(p, fold, i, p.from[o].name);
        OnlyAt(p, j, k);
        KeepsName(p, fold, j, k);
        TakesUntil(p, fold, i, j, k);
        StayOne(p, fold, k, end, p.from[o].name, p.from[j].name);
      }
    } else {
      KeepsName(p, fold, j, end);
    }
  }

  lemma NameDiffers(p: Plan, i: nat, j: nat)
    requires IsPlan(p) && i < |p.to| && j < |p.from| && p.origin[i] >= 0 && p.origin[i] != j && p.to[i].name == p.from[j].name
    ensures p.from[p.origin[i]].name != p.to[i].name
  {
  }

  lemma OnlyAt(p: Plan, j: nat, k: nat)
    requires IsPlan(p) && k < |p.to| && p.origin[k] == j
    ensures forall m :: 0 <= m < k ==> p.origin[m] != j
  {
    forall m | 0 <= m < k ensures p.origin[m] != j { OriginApart(p, m, k); }
  }

  /** A name taken before its owner is renamed is kept until then. */
  lemma TakesUntil(p: Plan, fold: string -> string, i: nat, j: nat, k: nat)
    requires IsPlan(p) && j < |p.from| && i < k < |p.to| && p.origin[k] == j && RenamedAt(p, fold, i)
    requires After(p, fold, i + 1, p.from[p.origin[i]].name) == p.from[j].name
    ensures After(p, fold, k, p.from[p.origin[i]].name) == p.from[j].name
  {
    OnlyAt(p, j, k);
    Sizes(p);
    hide IsPlan, After, Renamed, StepsOf;
    forall m | i + 1 <= m < k && RenamedAt(p, fold, m) ensures !RenamedFrom(p, fold, m, p.from[j].name) {
      NameApart(p, p.origin[m], j);
    }
    Stays(p, fold, i + 1, k, p.from[p.origin[i]].name, p.from[j].name);
  }

  /** After the renames, matching by name pairs each column that stays with its
      own, and no other with any, exactly when the renames are clear. */
  lemma RenamesPair(p: Plan, fold: string -> string)
    requires IsPlan(p)
    ensures PairsRight(p, Renames(ChangesOf(p.from, p.to, p.origin), fold)) <==> Clear(p, fold)
  {
    NoDropRenames(p.from, p.origin, fold);
    RenamesAre(p, fold, |p.to|);
    RenamesJoin(Drops(p.from, p.origin), Rest(p.from, p.to, p.origin, |p.to|), fold);
    var steps := StepsOf(p, fold, |p.to|);
    assert [] + steps == steps;
    Sizes(p);
    hide Drops, Rest, StepsOf, Renames, IsPlan, Renamed;
    if Clear(p, fold) { ClearPairs(p, fold); }
    if PairsRight(p, steps) {
      hide PairsRight;
      forall i | 0 <= i < |p.to| && p.origin[i] >= 0 ensures p.from[p.origin[i]].name == p.to[i].name || RenamedAt(p, fold, i) {
        PairsNoCase(p, fold, i);
      }
      forall i, j | 0 <= i < |p.to| && 0 <= j < |p.from| && p.to[i].name == p.from[j].name && p.origin[i] != j
        ensures Makes(p, fold, i, j)
      {
        PairsMake(p, fold, i, j);
      }
    }
  }
}
