/** The conversation with a plugin (plugin/serve.go, internal/plugin/host.go,
    internal/plugin/source.go): many requests at once over one stream of lines,
    each answered by its own columns, rows and ending. */
module Plugin {
  import opened Wrappers

  /** What one line says. A field that is empty is left out of it, so a line of no
      columns, or an error of no words, says nothing. */
  datatype Body = Columns(columns: seq<string>) | Row(values: seq<string>) | Done | Error(text: string) | Nothing
  datatype Line = Line(id: nat, body: Body)

  function OnWire(b: Body): Body { if b == Columns([]) || b == Row([]) || b == Error("") then Nothing else b }

  /** How far the plugin has got with a request: whether its columns have been
      said, which is all a row asks, and whether its handler has returned. */
  datatype Phase = Phase(said: bool, ended: bool)

  /** What a plugin does about a request. */
  datatype Deed = SayColumns(columns: seq<string>) | SayRow(values: seq<string>) | Return(error: Option<string>)

  datatype World = World(
    said: seq<Line>, out: seq<Line>, phases: map<nat, Phase>,      // the plugin, and what is on the wire of it
    next: nat, read: nat, held: Option<Line>, waiting: set<nat>,   // the host
    got: map<nat, seq<Body>>, closed: set<nat>, over: bool, crashed: bool)

  datatype Event =
    | Ask                        // the host sends a request
    | Does(id: nat, deed: Deed)  // the plugin works on one
    | Look                       // the host's reader takes a line and looks up who waits for it
    | Hand                       // and hands it over
    | Stop(id: nat)              // a caller gives up
    | Finish                     // the conversation ends, and every caller's channel is closed

  function Start(): World { World([], [], map[], 0, 0, None, {}, map[], {}, false, false) }

  /** What the plugin writes for a deed, if it may. Columns are refused a second
      time and a row before them; neither asks whether the handler has returned. */
  function Written(p: Phase, d: Deed): Option<Body> {
    match d
    case SayColumns(cols) => if p.said then None else Some(Columns(cols))
    case SayRow(vals) => if p.said && vals != [] then Some(Row(vals)) else None
    case Return(e) => if p.ended then None else Some(if e.None? then Done else Error(e.value))
  }

  function After(p: Phase, d: Deed): Phase {
    match d
    case SayColumns(_) => p.(said := true)
    case SayRow(_) => p
    case Return(_) => p.(ended := true)
  }

  function Held(w: World, id: nat): seq<Body> {
    if w.held.Some? && w.held.value.id == id then [w.held.value.body] else []
  }

  function Got(w: World, id: nat): seq<Body> { if id in w.got then w.got[id] else [] }

  function Next(w: World, e: Event): World
    requires w.read <= |w.out|
  {
    if w.crashed then w else
    match e
    case Ask =>
      if w.over then w
      else w.(phases := w.phases[w.next := Phase(false, false)], waiting := w.waiting + {w.next}, got := w.got[w.next := []], next := w.next + 1)
    case Does(id, d) =>
      if id !in w.phases then w
      else
        var b := Written(w.phases[id], d);
        w.(phases := w.phases[id := After(w.phases[id], d)],
           said := if b.None? then w.said else w.said + [Line(id, b.value)],
           out := if b.None? then w.out else w.out + [Line(id, OnWire(b.value))])
    case Look =>
      if w.held.Some? || w.read == |w.out| then w
      else w.(read := w.read + 1, held := if w.out[w.read].id in w.waiting then Some(w.out[w.read]) else None)
    case Hand =>
      if w.held.None? then w
      else
        var l := w.held.value;
        if l.id in w.closed then w.(crashed := true)
        else w.(held := None, got := w.got[l.id := Got(w, l.id) + [l.body]])
    case Stop(id) => w.(waiting := w.waiting - {id})
    case Finish => w.(over := true, closed := w.closed + w.waiting, waiting := {})
  }

  function Run(es: seq<Event>): (w: World)
    ensures w.read <= |w.out|
  {
    if es == [] then Start() else Next(Run(es[..|es| - 1]), es[|es| - 1])
  }

  // ----- what the plugin says of one request

  function Of(out: seq<Line>, id: nat): seq<Body> {
    if out == [] then []
    else Of(out[..|out| - 1], id) + if out[|out| - 1].id == id then [out[|out| - 1].body] else []
  }

  lemma OfMore(out: seq<Line>, l: Line, id: nat)
    ensures Of(out + [l], id) == Of(out, id) + if l.id == id then [l.body] else []
  {
    assert (out + [l])[..|out|] == out;
  }

  predicate AreRows(bs: seq<Body>) { forall i :: 0 <= i < |bs| ==> bs[i].Row? && bs[i].values != [] }

  predicate IsEnding(b: Body) { b.Done? || b.Error? }

  /** One set of columns and then rows. */
  ghost predicate Started(bs: seq<Body>) { exists cols, rows :: AreRows(rows) && bs == [Columns(cols)] + rows }

  /** And then one ending; or an ending alone. */
  ghost predicate Whole(bs: seq<Body>) {
    bs != [] && IsEnding(bs[|bs| - 1]) && (|bs| == 1 || Started(bs[..|bs| - 1]))
  }

  /** As far as it has got: one set of columns, then rows, then exactly one ending. */
  ghost predicate Conversation(bs: seq<Body>, p: Phase) {
    if p.ended then Whole(bs) else if p.said then Started(bs) else bs == []
  }

  /** A whole conversation with columns or rows after its ending. */
  ghost predicate Overrun(bs: seq<Body>) {
    exists whole, after :: bs == whole + after && Whole(whole) && after != [] && AreLate(after)
  }

  predicate AreLate(bs: seq<Body>) { forall i :: 0 <= i < |bs| ==> bs[i].Columns? || bs[i].Row? }

  lemma LastIs(bs: seq<Body>)
    ensures Whole(bs) ==> bs != [] && IsEnding(bs[|bs| - 1])
    ensures Overrun(bs) ==> bs != [] && !IsEnding(bs[|bs| - 1])
  {
    if Overrun(bs) {
      var whole, after :| bs == whole + after && Whole(whole) && after != [] && AreLate(after);
      assert bs[|bs| - 1] == after[|after| - 1];
    }
  }

  lemma EndsWhole(bs: seq<Body>, last: Body)
    requires (bs == [] || Started(bs)) && IsEnding(last)
    ensures Whole(bs + [last])
  {
    assert (bs + [last])[..|bs|] == bs;
  }

  /** What a deed does to what has been said of its request. */
  lemma ConversationGoesOn(bs: seq<Body>, p: Phase, d: Deed)
    requires Conversation(bs, p)
    ensures var b := Written(p, d);
      if b.None? then Conversation(bs, After(p, d))
      else if p.ended then Overrun(bs + [b.value]) && After(p, d).ended
      else Conversation(bs + [b.value], After(p, d))
  {
    var b := Written(p, d);
    if b.Some? {
      if p.ended {
        assert AreLate([b.value]);
      } else {
        match d {
          case SayColumns(cols) => assert AreRows([]) && bs + [Columns(cols)] == [Columns(cols)] + [];
          case SayRow(vals) =>
            var cols, rows :| AreRows(rows) && bs == [Columns(cols)] + rows;
            assert AreRows(rows + [Row(vals)]) && bs + [Row(vals)] == [Columns(cols)] + (rows + [Row(vals)]);
          case Return(e) => EndsWhole(bs, b.value);
        }
      }
    }
  }

  lemma OverrunGoesOn(bs: seq<Body>, p: Phase, d: Deed)
    requires Overrun(bs) && p.ended
    ensures After(p, d).ended && (Written(p, d).Some? ==> Overrun(bs + [Written(p, d).value]))
  {
    if Written(p, d).Some? {
      var whole, after :| bs == whole + after && Whole(whole) && after != [] && AreLate(after);
      var more := after + [Written(p, d).value];
      assert AreLate(more) && bs + [Written(p, d).value] == whole + more;
    }
  }

  /** The lines on the wire are the lines said, less the fields that are empty. */
  ghost predicate WireHolds(w: World) {
    && |w.out| == |w.said| && (forall i :: 0 <= i < |w.out| ==> w.out[i] == Line(w.said[i].id, OnWire(w.said[i].body)))
    && (forall i :: 0 <= i < |w.said| ==> w.said[i].id < w.next)
    && (forall id: nat :: id in w.phases <==> id < w.next)
  }

  function Wire(bs: seq<Body>): (r: seq<Body>)
    ensures |r| == |bs| && forall i :: 0 <= i < |r| ==> r[i] == OnWire(bs[i])
  {
    seq(|bs|, i requires 0 <= i < |bs| => OnWire(bs[i]))
  }

  lemma {:induction false} WireOf(said: seq<Line>, out: seq<Line>, id: nat)
    requires |out| == |said| && forall i :: 0 <= i < |out| ==> out[i] == Line(said[i].id, OnWire(said[i].body))
    ensures Of(out, id) == Wire(Of(said, id))
  {
    if out != [] { WireOf(said[..|said| - 1], out[..|out| - 1], id); }
  }

  lemma {:induction false} NothingOf(out: seq<Line>, id: nat)
    requires forall i :: 0 <= i < |out| ==> out[i].id != id
    ensures Of(out, id) == []
  {
    if out != [] { NothingOf(out[..|out| - 1], id); }
  }

  /** In this state the deed writes columns or a row of a request that has returned. */
  predicate LateNow(w: World, e: Event, id: nat) {
    && !w.crashed && e.Does? && e.id == id && id in w.phases
    && w.phases[id].ended && Written(w.phases[id], e.deed).Some?
  }

  ghost predicate LateAt(es: seq<Event>, i: nat, id: nat)
    requires i < |es|
  {
    LateNow(Run(es[..i]), es[i], id)
  }

  /** The source went on writing to a request after its handler had returned. */
  ghost predicate WrittenLate(es: seq<Event>, id: nat) { exists i :: 0 <= i < |es| && LateAt(es, i, id) }

  lemma LateBefore(es: seq<Event>, i: nat, id: nat)
    requires i + 1 < |es|
    ensures LateAt(es, i, id) <==> LateAt(es[..|es| - 1], i, id)
  {
    assert es[..|es| - 1][..i] == es[..i];
  }

  lemma LateStep(es: seq<Event>, id: nat)
    requires es != []
    ensures WrittenLate(es, id) <==> (WrittenLate(es[..|es| - 1], id) || LateNow(Run(es[..|es| - 1]), es[|es| - 1], id))
  {
    assert LateAt(es, |es| - 1, id) <==> LateNow(Run(es[..|es| - 1]), es[|es| - 1], id);
    hide LateAt, LateNow, Run;
    var init := es[..|es| - 1];
    if i :| 0 <= i < |init| && LateAt(init, i, id) { LateBefore(es, i, id); }
    if i :| 0 <= i < |es| && LateAt(es, i, id) { if i < |init| { LateBefore(es, i, id); } }
  }

  /** What has been said of a request, and whether any of it came late. */
  ghost predicate Says(w: World, id: nat, late: bool) {
    id in w.phases ==>
      if late then Overrun(Of(w.said, id)) && w.phases[id].ended else Conversation(Of(w.said, id), w.phases[id])
  }

  lemma NextSays(w: World, e: Event, id: nat, late: bool)
    requires w.read <= |w.out| && WireHolds(w) && Says(w, id, late) && (late ==> id in w.phases)
    ensures WireHolds(Next(w, e)) && Says(Next(w, e), id, late || LateNow(w, e, id))
  {
    hide Conversation, Overrun, Written, After, OnWire, Of;
    if w.crashed { return; }
    match e {
      case Ask => if id == w.next { NothingOf(w.said, id); NotBegun(); }
      case Does(k, d) =>
        if k in w.phases {
          var b := Written(w.phases[k], d);
          if b.Some? { OfMore(w.said, Line(k, b.value), id); }
          if k == id {
            var bs := Of(w.said, id);
            if late { OverrunGoesOn(bs, w.phases[id], d); } else { ConversationGoesOn(bs, w.phases[id], d); }
          } else if b.Some? {
            assert Of(w.said, id) + [] == Of(w.said, id);
          }
        }
      case _ =>
    }
  }

  lemma NotBegun()
    ensures Conversation([], Phase(false, false))
  {
  }

  lemma {:induction false} RunSays(es: seq<Event>, id: nat)
    ensures WireHolds(Run(es)) && Says(Run(es), id, WrittenLate(es, id))
    ensures WrittenLate(es, id) ==> id in Run(es).phases
  {
    if es != [] {
      var init := es[..|es| - 1];
      RunSays(init, id);
      LateStep(es, id);
      NextSays(Run(init), es[|es| - 1], id, WrittenLate(init, id));
      hide WireHolds, Says, WrittenLate;
    }
  }

  /** In every interleaving of requests, what the plugin says of each is one set
      of columns, then rows, then exactly one ending, as far as it has got,
      exactly when its source wrote nothing to it after its handler returned. What
      is on the wire is that, less its empty fields. */
  lemma EachIsAConversation(es: seq<Event>, id: nat)
    requires id in Run(es).phases
    ensures var w := Run(es); Conversation(Of(w.said, id), w.phases[id]) <==> !WrittenLate(es, id)
    ensures var w := Run(es); WrittenLate(es, id) ==> Overrun(Of(w.said, id))
    ensures var w := Run(es); Of(w.out, id) == Wire(Of(w.said, id))
  {
    RunSays(es, id);
    var w := Run(es);
    WireOf(w.said, w.out, id);
    hide Run, Of, Whole, WrittenLate;
    LastIs(Of(w.said, id));
  }

  /** And a source can: a row kept being written after Done is on the wire after it. */
  lemma RowAfterDone() returns (es: seq<Event>)
    ensures Run(es).out == [Line(0, Columns(["c"])), Line(0, Done), Line(0, Row(["v"]))]
    ensures WrittenLate(es, 0) && 0 in Run(es).phases && !Conversation(Of(Run(es).said, 0), Run(es).phases[0])
  {
    hide Run, Conversation, Of, WrittenLate;
    var c, d, v := Line(0, Columns(["c"])), Line(0, Done), Line(0, Row(["v"]));
    RunNothing();
    es := RunTo([], Start(), Ask, Told([], Phase(false, false)));
    es := RunTo(es, Told([], Phase(false, false)), Does(0, SayColumns(["c"])), Told([c], Phase(true, false)));
    es := RunTo(es, Told([c], Phase(true, false)), Does(0, Return(None)), Told([c, d], Phase(true, true)));
    ghost var before := es;
    es := RunTo(es, Told([c, d], Phase(true, true)), Does(0, SayRow(["v"])), Told([c, d, v], Phase(true, true)));
    assert es == before + [Does(0, SayRow(["v"]))];
    assert es[..|es| - 1] == before && es[|es| - 1] == Does(0, SayRow(["v"]));
    LateStep(es, 0);
    EachIsAConversation(es, 0);
  }

  /** One request, of which these lines have been said. */
  function Told(lines: seq<Line>, p: Phase): World {
    World(lines, lines, map[0 := p], 1, 0, None, {0}, map[0 := []], {}, false, false)
  }

  // ----- what the host hands its callers

  /** A caller has been handed what was said to it, in order: all that has been
      read while it waits, and a beginning of that once it does not. */
  ghost predicate HostHolds(w: World) {
    && w.read <= |w.out|
    && (forall i :: 0 <= i < |w.out| ==> w.out[i].id < w.next)
    && (forall id: nat :: id in w.waiting || id in w.got || id in w.phases ==> id < w.next)
    && (w.held.Some? ==> w.held.value.id < w.next)
    && (forall id :: id in w.waiting ==> Got(w, id) + Held(w, id) == Of(w.out[..w.read], id))
    && (forall id :: Got(w, id) + Held(w, id) <= Of(w.out[..w.read], id))
  }

  lemma ReadMore(w: World, id: nat)
    requires w.read < |w.out|
    ensures Of(w.out[..w.read + 1], id) == Of(w.out[..w.read], id) + if w.out[w.read].id == id then [w.out[w.read].body] else []
  {
    assert w.out[..w.read + 1] == w.out[..w.read] + [w.out[w.read]];
    OfMore(w.out[..w.read], w.out[w.read], id);
  }

  /** A step that neither reads nor hands over keeps what callers have. */
  lemma SameHost(w: World, t: World)
    requires HostHolds(w) && t.read == w.read && w.read <= |t.out| && t.out[..w.read] == w.out[..w.read] && t.next >= w.next
    requires forall i :: 0 <= i < |t.out| ==> t.out[i].id < t.next
    requires (forall id: nat :: id in t.phases ==> id < t.next) && t.waiting <= w.waiting && t.held == w.held && t.got == w.got
    ensures HostHolds(t)
  {
    hide Of;
    forall k ensures Got(t, k) == Got(w, k) && Held(t, k) == Held(w, k) { }
  }

  lemma AskHost(w: World)
    requires HostHolds(w) && !w.over && !w.crashed
    ensures HostHolds(Next(w, Ask))
  {
    hide Of;
    var t := Next(w, Ask);
    NothingRead(w, w.next);
    forall k ensures k != w.next ==> Got(t, k) == Got(w, k) && Held(t, k) == Held(w, k) { }
    assert Held(t, w.next) == [];
  }

  lemma LookHost(w: World)
    requires HostHolds(w) && !w.crashed && w.held.None? && w.read < |w.out|
    ensures HostHolds(Next(w, Look))
  {
    hide Of;
    var t := Next(w, Look);
    forall k ensures Got(t, k) + Held(t, k) <= Of(t.out[..t.read], k)
      ensures k in t.waiting ==> Got(t, k) + Held(t, k) == Of(t.out[..t.read], k)
    {
      ReadMore(w, k);
      assert Got(w, k) + Held(w, k) == Got(w, k) == Got(t, k);
    }
  }

  lemma HandHost(w: World)
    requires HostHolds(w) && !w.crashed && w.held.Some? && w.held.value.id !in w.closed
    ensures HostHolds(Next(w, Hand))
  {
    hide Of;
    var t := Next(w, Hand);
    forall k ensures Got(t, k) + Held(t, k) == Got(w, k) + Held(w, k) {
      assert Held(t, k) == [] && Got(t, k) + [] == Got(t, k) && Got(w, k) + [] == Got(w, k);
    }
  }

  lemma NextHost(w: World, e: Event)
    requires HostHolds(w) && (w.over ==> w.waiting == {})
    ensures HostHolds(Next(w, e)) && (Next(w, e).over ==> Next(w, e).waiting == {})
  {
    var t := Next(w, e);
    if t == w || w.crashed { return; }
    match e {
      case Ask => AskHost(w);
      case Look => LookHost(w);
      case Hand =>
        if w.held.value.id in w.closed { SameHost(w, t); } else { HandHost(w); }
      case Does(id, d) =>
        assert t.out[..w.read] == w.out[..w.read];
        hide Of, Written, After, OnWire, Got, Held;
        SameHost(w, t);
      case _ => SameHost(w, t);
    }
  }

  lemma NothingRead(w: World, id: nat)
    requires w.read <= |w.out| && forall i :: 0 <= i < |w.out| ==> w.out[i].id < id
    ensures Of(w.out[..w.read], id) == []
  {
    NothingOf(w.out[..w.read], id);
  }

  lemma {:induction false} OfPrefix(out: seq<Line>, n: nat, id: nat)
    requires n <= |out|
    ensures Of(out[..n], id) <= Of(out, id)
  {
    if n < |out| {
      OfPrefix(out[..|out| - 1], n, id);
      assert out[..|out| - 1][..n] == out[..n];
    } else {
      assert out[..n] == out;
    }
  }

  /** In every interleaving, what a caller is handed is a beginning of what the
      plugin said to it: nothing of another's, nothing out of order, nothing
      missing in between. */
  lemma {:induction false} HandedInOrder(es: seq<Event>, id: nat)
    ensures var w := Run(es); HostHolds(w) && (w.over ==> w.waiting == {}) && Got(w, id) <= Of(w.out, id)
  {
    hide HostHolds, Of, Next;
    if es == [] {
      NobodyYet();
    } else {
      HandedInOrder(es[..|es| - 1], id);
      NextHost(Run(es[..|es| - 1]), es[|es| - 1]);
    }
    HandedSoFar(Run(es), id);
  }

  lemma NobodyYet()
    ensures HostHolds(Start())
  {
  }

  lemma HandedSoFar(w: World, id: nat)
    requires HostHolds(w)
    ensures Got(w, id) <= Of(w.out, id)
  {
    OfPrefix(w.out, w.read, id);
    assert Got(w, id) <= Got(w, id) + Held(w, id);
  }

  // ----- when the reader fails

  /** The reader is about to hand a line to a channel that has been closed. */
  predicate Doomed(w: World) { w.held.Some? && w.held.value.id in w.closed }

  /** The conversations are ended while the reader holds a line for one of them. */
  predicate FinishHolding(w: World, e: Event) { e == Finish && w.held.Some? && w.held.value.id in w.waiting }

  ghost predicate FinishAt(es: seq<Event>, i: nat)
    requires i < |es|
  {
    FinishHolding(Run(es[..i]), es[i])
  }

  /** They were, at some step before the n-th. */
  ghost predicate FinishedHolding(es: seq<Event>, n: nat) { exists i :: 0 <= i < |es| && i < n && FinishAt(es, i) }

  /** And the line was handed over after that. */
  ghost predicate HandedAfter(es: seq<Event>) { exists k :: 0 <= k < |es| && es[k] == Hand && FinishedHolding(es, k) }

  lemma FinishBefore(es: seq<Event>, i: nat)
    requires i + 1 < |es|
    ensures FinishAt(es, i) <==> FinishAt(es[..|es| - 1], i)
  {
    assert es[..|es| - 1][..i] == es[..i];
  }

  lemma FinishedStep(es: seq<Event>, n: nat)
    requires es != [] && n <= |es|
    ensures FinishedHolding(es, n)
      <==> (FinishedHolding(es[..|es| - 1], n) || (n == |es| && FinishHolding(Run(es[..|es| - 1]), es[|es| - 1])))
  {
    assert FinishAt(es, |es| - 1) <==> FinishHolding(Run(es[..|es| - 1]), es[|es| - 1]);
    hide FinishAt, FinishHolding, Run;
    var init := es[..|es| - 1];
    if i :| 0 <= i < |init| && i < n && FinishAt(init, i) { FinishBefore(es, i); }
    if i :| 0 <= i < |es| && i < n && FinishAt(es, i) { if i < |init| { FinishBefore(es, i); } }
  }

  lemma HandedStep(es: seq<Event>)
    requires es != []
    ensures HandedAfter(es) <==> (HandedAfter(es[..|es| - 1]) || (es[|es| - 1] == Hand && FinishedHolding(es[..|es| - 1], |es| - 1)))
  {
    var init := es[..|es| - 1];
    forall k: nat | k < |es| ensures FinishedHolding(es, k) <==> FinishedHolding(init, k) { FinishedStep(es, k); }
    hide FinishedHolding;
  }

  /** Whether the reader is doomed or has failed is told by these two. */
  ghost predicate ReaderIs(w: World, finished: bool, handed: bool) {
    && w.waiting !! w.closed && (forall id :: id in w.closed || id in w.waiting ==> id < w.next)
    && (Doomed(w) || w.crashed <==> finished) && (w.crashed <==> handed)
  }

  lemma NextFails(w: World, e: Event, finished: bool, handed: bool)
    requires w.read <= |w.out| && ReaderIs(w, finished, handed)
    ensures ReaderIs(Next(w, e), finished || FinishHolding(w, e), handed || (e == Hand && finished))
  {
    hide Written, After, OnWire;
  }

  lemma {:induction false} ReaderFails(es: seq<Event>)
    ensures ReaderIs(Run(es), FinishedHolding(es, |es|), HandedAfter(es))
  {
    if es != [] {
      var init := es[..|es| - 1];
      ReaderFails(init);
      FinishedStep(es, |es|);
      FinishedMore(init, |es|);
      HandedStep(es);
      NextFails(Run(init), es[|es| - 1], FinishedHolding(init, |init|), HandedAfter(init));
      hide FinishedHolding, HandedAfter, ReaderIs;
    }
  }

  lemma FinishedMore(es: seq<Event>, n: nat)
    requires n >= |es|
    ensures FinishedHolding(es, n) <==> FinishedHolding(es, |es|)
  {
  }

  /** The reader is about to hand a line to a closed channel, or has brought the
      program down by it, exactly when the conversations were ended while it held
      a line for a caller still waiting; and it has brought it down exactly when
      it handed a line over after that. */
  lemma CrashNeedsFinishHolding(es: seq<Event>)
    ensures Doomed(Run(es)) || Run(es).crashed <==> FinishedHolding(es, |es|)
    ensures Run(es).crashed <==> HandedAfter(es)
  {
    ReaderFails(es);
  }

  /** Otherwise no closed channel is waited on, whatever the run. */
  lemma ClosedApart(es: seq<Event>)
    ensures Run(es).waiting !! Run(es).closed
    ensures !FinishedHolding(es, |es|) ==> !Run(es).crashed && !Doomed(Run(es))
  {
    ReaderFails(es);
  }

  /** And there is such a run. */
  lemma ReaderCrashes() returns (es: seq<Event>)
    ensures Run(es).crashed
  {
    hide Run;
    var p, l := map[0 := Phase(false, true)], Line(0, Done);
    RunNothing();
    es := RunTo([], Start(), Ask, Told([], Phase(false, false)));
    es := RunTo(es, Told([], Phase(false, false)), Does(0, Return(None)), Told([l], Phase(false, true)));
    es := RunTo(es, Told([l], Phase(false, true)), Look, World([l], [l], p, 1, 1, Some(l), {0}, map[0 := []], {}, false, false));
    es := RunTo(es, World([l], [l], p, 1, 1, Some(l), {0}, map[0 := []], {}, false, false), Finish,
                World([l], [l], p, 1, 1, Some(l), {}, map[0 := []], {0}, true, false));
    es := RunTo(es, World([l], [l], p, 1, 1, Some(l), {}, map[0 := []], {0}, true, false), Hand,
                World([l], [l], p, 1, 1, Some(l), {}, map[0 := []], {0}, true, true));
  }

  // ----- a caller that gives up

  /** What it has been handed, and will be of a line already held. */
  ghost predicate AtMost(w: World, id: nat, bs: seq<Body>) {
    id < w.next && id !in w.waiting && Got(w, id) + Held(w, id) <= bs
  }

  lemma NextAtMost(w: World, e: Event, id: nat, bs: seq<Body>)
    requires w.read <= |w.out| && AtMost(w, id, bs)
    ensures AtMost(Next(w, e), id, bs)
  {
    hide Written, After, OnWire;
    var t := Next(w, e);
    if e == Look && t != w { assert Got(w, id) + Held(w, id) == Got(w, id) && Held(t, id) == []; }
    if e == Hand && w.held.Some? && !t.crashed {
      assert Held(t, id) == [] && Got(t, id) + [] == Got(t, id) && Got(w, id) + [] == Got(w, id);
    }
  }

  /** A caller that has given up is handed, whatever comes, nothing but the line
      the reader was holding for it then, if it was. */
  lemma {:induction false} StoppedGets(es: seq<Event>, more: seq<Event>, id: nat)
    requires id < Run(es).next && id !in Run(es).waiting
    ensures AtMost(Run(es + more), id, Got(Run(es), id) + Held(Run(es), id))
    ensures Got(Run(es + more), id) <= Got(Run(es), id) + Held(Run(es), id)
    decreases |more|
  {
    hide Next;
    if more == [] {
      assert es + more == es;
    } else {
      var init := more[..|more| - 1];
      StoppedGets(es, init, id);
      assert (es + more)[..|es + more| - 1] == es + init;
      NextAtMost(Run(es + init), more[|more| - 1], id, Got(Run(es), id) + Held(Run(es), id));
    }
    var w := Run(es + more);
    assert Got(w, id) <= Got(w, id) + Held(w, id);
  }

  lemma RunNothing()
    ensures Run([]) == Start()
  {
  }

  lemma RunTo(es: seq<Event>, w: World, e: Event, t: World) returns (more: seq<Event>)
    requires Run(es) == w && w.read <= |w.out| && Next(w, e) == t
    ensures Run(more) == t && more == es + [e]
  {
    more := es + [e];
    assert more[..|es|] == es;
  }

  // ----- the two ends

  /** The pipe between the two: the plugin's writer and the host's process, each
      method one step of theirs. */
  class Pipe {
    // the plugin
    ghost var said: seq<Line>
    var out: seq<Line>
    var phases: map<nat, Phase>
    // the host
    var next: nat
    var read: nat
    var held: Option<Line>
    var waiting: set<nat>
    var got: map<nat, seq<Body>>
    var closed: set<nat>
    var over: bool
    var crashed: bool

    ghost function Now(): World
      reads this
    {
      World(said, out, phases, next, read, held, waiting, got, closed, over, crashed)
    }

    ghost predicate Valid()
      reads this
    {
      read <= |out| && !crashed
    }

    constructor ()
      ensures Valid() && Now() == Start()
    {
      said, out, phases, next, read, held := [], [], map[], 0, 0, None;
      waiting, got, closed, over, crashed := {}, map[], {}, false, false;
    }

    /** The plugin writes a request's columns, the once, be its handler done or not. */
    method SayColumnsOf(id: nat, cols: seq<string>) returns (ok: bool)
      requires Valid() && id in phases
      modifies this`said, this`out, this`phases
      ensures Valid() && Now() == Next(old(Now()), Does(id, SayColumns(cols)))
      ensures ok <==> !old(phases)[id].said
    {
      if phases[id].said { return false; }
      phases := phases[id := phases[id].(said := true)];
      said := said + [Line(id, Columns(cols))];
      out := out + [Line(id, OnWire(Columns(cols)))];
      return true;
    }

    /** Or a row of it, after them and not empty. */
    method SayRowOf(id: nat, values: seq<string>) returns (ok: bool)
      requires Valid() && id in phases
      modifies this`said, this`out, this`phases
      ensures Valid() && Now() == Next(old(Now()), Does(id, SayRow(values)))
      ensures ok <==> old(phases)[id].said && values != []
    {
      phases := phases[id := phases[id]];
      if !phases[id].said || values == [] { return false; }
      said := said + [Line(id, Row(values))];
      out := out + [Line(id, OnWire(Row(values)))];
      return true;
    }

    /** However the work goes, it ends in one line. */
    method End(id: nat, error: Option<string>)
      requires Valid() && id in phases && !phases[id].ended
      modifies this`said, this`out, this`phases
      ensures Valid() && Now() == Next(old(Now()), Does(id, Return(error)))
    {
      var ending := match error case None => Done case Some(text) => Error(text);
      phases := phases[id := phases[id].(ended := true)];
      said := said + [Line(id, ending)];
      out := out + [Line(id, OnWire(ending))];
    }

    /** A request is sent, unless the conversation is over. */
    method Stream() returns (id: Option<nat>)
      requires Valid()
      modifies this
      ensures Valid() && Now() == Next(old(Now()), Ask)
      ensures id == if old(over) then None else Some(old(next))
    {
      if over { return None; }
      id := Some(next);
      waiting, got, phases := waiting + {next}, got[next := []], phases[next := Phase(false, false)];
      next := next + 1;
    }

    /** The reader takes a line and looks up who it is for. */
    method LookUp()
      requires Valid()
      modifies this`read, this`held
      ensures Valid() && Now() == Next(old(Now()), Look)
    {
      if held.Some? || read == |out| { return; }
      var l := out[read];
      read := read + 1;
      if l.id in waiting { held := Some(l); }
    }

    /** And hands it over, if the channel is still open. */
    method HandOver()
      requires Valid()
      modifies this`held, this`got, this`crashed
      ensures read <= |out| && Now() == Next(old(Now()), Hand)
    {
      if held.None? { return; }
      var l := held.value;
      if l.id in closed { crashed := true; return; }
      got := got[l.id := (if l.id in got then got[l.id] else []) + [l.body]];
      held := None;
    }

    method StopWaiting(id: nat)
      requires Valid()
      modifies this`waiting
      ensures Valid() && Now() == Next(old(Now()), Stop(id))
    {
      waiting := waiting - {id};
    }

    /** Every conversation is ended. */
    method FinishAll()
      requires Valid()
      modifies this`over, this`waiting, this`closed
      ensures Valid() && Now() == Next(old(Now()), Finish)
    {
      over, closed, waiting := true, closed + waiting, {};
    }
  }
}
