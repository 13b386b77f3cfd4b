/** The order a schema's views can be created in (internal/app/script.go): a
    depth-first sort that gives up, rather than guess, when it meets a cycle. */
module Script {

  /** An object, by the string its reference prints as. */
  type Ref = string

  /** What a source answers when asked what selects from an object. */
  datatype Dependents = Listed(refs: seq<Ref>) | Failed

  datatype Mark = Unseen | OnStack | Done

  // ----- the graph

  /** after[i] has the place of everything that selects from object i. */
  type Graph = seq<seq<nat>>

  ghost predicate IsGraph(after: Graph) {
    forall i, k :: 0 <= i < |after| && 0 <= k < |after[i]| ==> after[i][k] < |after|
  }

  ghost predicate Edge(after: Graph, i: nat, j: nat) {
    i < |after| && j in after[i]
  }

  ghost predicate IsPath(after: Graph, path: seq<nat>) {
    forall k :: 0 <= k < |path| - 1 ==> Edge(after, path[k], path[k + 1])
  }

  ghost predicate IsCycle(after: Graph, path: seq<nat>) {
    |path| >= 2 && path[0] == path[|path| - 1] && IsPath(after, path)
  }

  ghost predicate Cyclic(after: Graph) {
    exists path :: IsCycle(after, path)
  }

  ghost predicate Distinct(s: seq<nat>) {
    forall i, j :: 0 <= i < j < |s| ==> s[i] != s[j]
  }

  /** s lists every place below n once. */
  ghost predicate IsPermutation(s: seq<nat>, n: nat) {
    Distinct(s) && forall x: nat :: x in s <==> x < n
  }

  /** Whatever an object in s selects into comes later than it. */
  ghost predicate Topological(after: Graph, s: seq<nat>) {
    forall a, b :: 0 <= a < |s| && 0 <= b < |s| && Edge(after, s[a], s[b]) ==> a < b
  }

  /** A graph that can be put in order has no cycle: along a path, places only rise. */
  lemma OrderedIsAcyclic(after: Graph, s: seq<nat>)
    requires IsPermutation(s, |after|) && Topological(after, s)
    ensures !Cyclic(after)
  {
    forall path ensures !IsCycle(after, path) {
      if IsCycle(after, path) {
        assert Edge(after, path[0], path[1]);
        assert path[0] in s;
        var a :| 0 <= a < |s| && s[a] == path[0];
        PathRises(after, s, path, a, a);
      }
    }
  }

  lemma {:induction false} PathRises(after: Graph, s: seq<nat>, path: seq<nat>, a: nat, b: nat)
    requires IsPermutation(s, |after|) && Topological(after, s)
    requires |path| >= 2 && IsPath(after, path)
    requires a < |s| && b < |s| && s[a] == path[0] && s[b] == path[|path| - 1]
    ensures a < b
    decreases |path|
  {
    var m := |path| - 1;
    assert Edge(after, path[m - 1], path[m]);
    if m > 1 {
      assert path[m - 1] in s;
      var c :| 0 <= c < |s| && s[c] == path[m - 1];
      var front := path[..m];
      forall k | 0 <= k < |front| - 1 ensures Edge(after, front[k], front[k + 1]) {
        assert Edge(after, path[k], path[k + 1]);
      }
      PathRises(after, s, front, a, c);
    }
  }

  // ----- the search

  /** What the search has settled: finished objects are listed once, each after
      everything that selects from it. */
  ghost predicate Settled(after: Graph, marks: seq<Mark>, out: seq<nat>) {
    && |marks| == |after| && Distinct(out)
    && (forall x: nat :: x in out <==> x < |marks| && marks[x] == Done)
    && (forall k, j :: 0 <= k < |out| && Edge(after, out[k], j) ==> j in out[..k])
  }

  /** The objects being visited form a path, each selected from by the next. */
  ghost predicate OnPath(after: Graph, marks: seq<Mark>, path: seq<nat>) {
    && |marks| == |after| && IsPath(after, path)
    && (forall x: nat :: x in path <==> x < |marks| && marks[x] == OnStack)
  }

  function UnseenIn(marks: seq<Mark>): set<nat> {
    set x: nat | x < |marks| && marks[x] == Unseen
  }

  /** The state the visiting closure shares with the loop that calls it. */
  class Sorter {
    const after: Graph
    var marks: seq<Mark>
    var out: seq<nat>

    constructor (after: Graph)
      ensures this.after == after
      ensures out == [] && marks == seq(|after|, _ => Unseen)
    {
      this.after := after;
      marks := seq(|after|, _ => Unseen);
      out := [];
    }

    /** Visits object i and everything that selects from it. A no is a cycle. */
    method Visit(i: nat, ghost path: seq<nat>) returns (ok: bool)
      requires IsGraph(after) && i < |after|
      requires Settled(after, marks, out) && OnPath(after, marks, path)
      requires path != [] ==> Edge(after, path[|path| - 1], i)
      modifies this
      ensures !ok ==> Cyclic(after)
      ensures ok ==> Settled(after, marks, out) && OnPath(after, marks, path) && marks[i] == Done
      ensures ok ==> old(out) <= out && UnseenIn(marks) <= UnseenIn(old(marks))
      decreases UnseenIn(marks)
    {
      if marks[i] == Done { return true; }
      if marks[i] == OnStack {
        CycleFound(after, marks, path, i);
        return false; // it is still being visited
      }
      ghost var before, seen := marks, out;
      marks := marks[i := OnStack];
      StackGrows(after, before, path, i, out);
      var n := 0;
      while n < |after[i]|
        invariant n <= |after[i]|
        invariant Settled(after, marks, out) && OnPath(after, marks, path + [i])
        invariant seen <= out && UnseenIn(marks) <= UnseenIn(before) - {i}
        invariant forall k :: 0 <= k < n ==> after[i][k] in out
      {
        ghost var j := after[i][n];
        assert (path + [i])[|path|] == i && Edge(after, i, j);
        ok := Visit(after[i][n], path + [i]);
        if !ok { return false; }
        n := n + 1;
      }
      StackShrinks(after, marks, path, i, out);
      marks := marks[i := Done];
      out := out + [i];
      ok := true;
    }
  }

  lemma CycleFound(after: Graph, marks: seq<Mark>, path: seq<nat>, i: nat)
    requires OnPath(after, marks, path) && i < |marks| && marks[i] == OnStack
    requires path != [] ==> Edge(after, path[|path| - 1], i)
    ensures Cyclic(after)
  {
    var m :| 0 <= m < |path| && path[m] == i;
    var loop := path[m..] + [i];
    forall k | 0 <= k < |loop| - 1 ensures Edge(after, loop[k], loop[k + 1]) {
      if m + k + 1 < |path| {
        assert Edge(after, path[m + k], path[m + k + 1]);
      }
    }
    assert IsCycle(after, loop);
  }

  lemma StackGrows(after: Graph, marks: seq<Mark>, path: seq<nat>, i: nat, out: seq<nat>)
    requires Settled(after, marks, out) && OnPath(after, marks, path)
    requires i < |marks| && marks[i] == Unseen
    requires path != [] ==> Edge(after, path[|path| - 1], i)
    ensures Settled(after, marks[i := OnStack], out)
    ensures OnPath(after, marks[i := OnStack], path + [i])
    ensures UnseenIn(marks[i := OnStack]) == UnseenIn(marks) - {i}
  {
    var longer := path + [i];
    forall k | 0 <= k < |longer| - 1 ensures Edge(after, longer[k], longer[k + 1]) {
      if k < |path| - 1 { assert Edge(after, path[k], path[k + 1]); }
    }
  }

  lemma StackShrinks(after: Graph, marks: seq<Mark>, path: seq<nat>, i: nat, out: seq<nat>)
    requires Settled(after, marks, out) && OnPath(after, marks, path + [i])
    requires i !in path && i < |after|
    requires forall k :: 0 <= k < |after[i]| ==> after[i][k] in out
    ensures Settled(after, marks[i := Done], out + [i])
    ensures OnPath(after, marks[i := Done], path)
    ensures UnseenIn(marks[i := Done]) == UnseenIn(marks)
  {
    var longer, more := path + [i], out + [i];
    assert i in longer;
    assert marks[i] == OnStack;
    forall k | 0 <= k < |path| - 1 ensures Edge(after, path[k], path[k + 1]) {
      assert Edge(after, longer[k], longer[k + 1]);
    }
    forall x: nat ensures x in path <==> x < |marks| && marks[i := Done][x] == OnStack {
      assert x in longer <==> x in path || x == i;
    }
    forall x: nat ensures x in more <==> x < |marks| && marks[i := Done][x] == Done {
      assert x in more <==> x in out || x == i;
    }
    forall k, j | 0 <= k < |more| && Edge(after, more[k], j) ensures j in more[..k] {
      assert more[..k] == if k < |out| then out[..k] else out;
    }
  }

  lemma AllSettled(after: Graph, marks: seq<Mark>, out: seq<nat>)
    requires IsGraph(after) && Settled(after, marks, out)
    requires forall x :: 0 <= x < |marks| ==> marks[x] == Done
    ensures IsPermutation(Reversed(out), |after|) && Topological(after, Reversed(out))
  {
    ReversedAt(out);
    var s := Reversed(out);
    forall x: nat ensures x in s <==> x < |after| {
      if x in out {
        var k :| 0 <= k < |out| && out[k] == x;
        assert s[|out| - 1 - k] == x;
      }
    }
    forall a, b | 0 <= a < |s| && 0 <= b < |s| && Edge(after, s[a], s[b]) ensures a < b {
      var k := |out| - 1 - a;
      assert s[b] in out[..k];
    }
  }

  function Reversed<T>(s: seq<T>): (r: seq<T>)
    ensures |r| == |s|
  {
    if s == [] then [] else Reversed(s[1..]) + [s[0]]
  }

  lemma {:induction false} ReversedAt<T>(s: seq<T>)
    ensures forall k :: 0 <= k < |s| ==> Reversed(s)[k] == s[|s| - 1 - k]
  {
    if s != [] {
      ReversedAt(s[1..]);
    }
  }

  // ----- the order

  /** Where each reference stands; a reference listed twice stands at its last place. */
  function Places(refs: seq<Ref>): (here: map<Ref, nat>)
    ensures forall r :: r in here <==> r in refs
    ensures forall r :: r in here ==> here[r] < |refs| && refs[here[r]] == r
  {
    if refs == [] then map[]
    else Places(refs[..|refs| - 1])[refs[|refs| - 1] := |refs| - 1]
  }

  /** The places, among the objects being ordered, of those selecting from object i. */
  function SelectingFrom(here: map<Ref, nat>, deps: seq<Ref>, i: nat): (js: seq<nat>)
    ensures forall j: nat :: j in js <==> j != i && exists d :: d in deps && d in here && here[d] == j
  {
    if deps == [] then []
    else
      var rest := SelectingFrom(here, deps[..|deps| - 1], i);
      var d := deps[|deps| - 1];
      if d in here && here[d] != i then rest + [here[d]] else rest
  }

  /** Which of refs select from which, as the source tells it. */
  function GraphOf(refs: seq<Ref>, deps: seq<seq<Ref>>): (after: Graph)
    requires |deps| == |refs|
    ensures |after| == |refs| && IsGraph(after)
    ensures forall i: nat, j: nat :: i < |refs| ==> (Edge(after, i, j) <==>
              j != i && exists d :: d in deps[i] && d in Places(refs) && Places(refs)[d] == j)
  {
    var after := seq(|refs|, i requires 0 <= i < |refs| => SelectingFrom(Places(refs), deps[i], i));
    assert IsGraph(after) by {
      forall i, k | 0 <= i < |after| && 0 <= k < |after[i]| ensures after[i][k] < |after| {
        assert after[i][k] in after[i];
      }
    }
    after
  }

  /** refs rearranged. */
  function Pick(refs: seq<Ref>, order: seq<nat>): seq<Ref>
    requires forall k :: 0 <= k < |order| ==> order[k] < |refs|
  {
    seq(|order|, k requires 0 <= k < |order| => refs[order[k]])
  }

  ghost predicate InOrder(refs: seq<Ref>, after: Graph, ordered: seq<Ref>)
    requires |after| == |refs|
  {
    exists order :: IsPermutation(order, |refs|) && Topological(after, order)
      && (forall k :: 0 <= k < |order| ==> order[k] < |refs|) && ordered == Pick(refs, order)
  }

  /** Rearranged so that nothing comes before what it selects from, whenever that
      can be done; otherwise, or where the source cannot say, untouched. */
  method InDependencyOrder(refs: seq<Ref>, asked: seq<Dependents>) returns (ordered: seq<Ref>)
    requires |asked| == |refs|
    ensures |refs| < 2 || (exists i :: 0 <= i < |asked| && asked[i].Failed?) ==> ordered == refs
    ensures |refs| >= 2 && (forall i :: 0 <= i < |asked| ==> asked[i].Listed?) ==>
              var after := GraphOf(refs, seq(|asked|, i requires 0 <= i < |asked| => asked[i].refs));
              if Cyclic(after) then ordered == refs else InOrder(refs, after, ordered)
  {
    if |refs| < 2 { return refs; }
    var deps: seq<seq<Ref>> := [];
    for i := 0 to |refs|
      invariant |deps| == i
      invariant forall k :: 0 <= k < i ==> asked[k].Listed? && deps[k] == asked[k].refs
    {
      if asked[i].Failed? { return refs; }
      deps := deps + [asked[i].refs];
    }
    assert deps == seq(|asked|, i requires 0 <= i < |asked| => asked[i].refs);
    var after := GraphOf(refs, deps);
    var s := new Sorter(after);
    for i := 0 to |refs|
      invariant s.after == after && fresh(s)
      invariant Settled(after, s.marks, s.out) && OnPath(after, s.marks, [])
      invariant forall k :: 0 <= k < i ==> k in s.out
    {
      var ok := s.Visit(i, []);
      if !ok { return refs; }
    }
    AllSettled(after, s.marks, s.out);
    var order := Reversed(s.out); // dependents were finished first
    OrderedIsAcyclic(after, order);
    forall k | 0 <= k < |order| ensures order[k] < |refs| {
      assert order[k] in order;
    }
    ordered := Pick(refs, order);
  }
}
