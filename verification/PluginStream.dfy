/** Reading a plugin's rows (internal/plugin/source.go:205-292): what arrives on a
    caller's channel, as columns, rows and an ending. */
module PluginStream {
  import opened Plugin
  import opened Wrappers

  datatype Failure = Said(text: string) | Stopped | Gone | Cancelled
  datatype Read = ARow(values: seq<string>) | AtEnd | Failed(why: Failure)
  datatype Result<T> = Ok(value: T) | Err(error: Failure)

  /** A stream between two reads: what has not yet been taken off its channel, and
      whether it has ended or failed. */
  datatype State = State(rest: seq<Body>, done: bool, err: Option<Failure>)

  function Take(rest: seq<Body>): (Read, State) {
    if rest == [] then (Failed(Stopped), State([], false, Some(Stopped)))
    else
      match rest[0]
      case Error(text) => if text == "" then Take(rest[1..]) else (Failed(Said(text)), State(rest[1..], false, Some(Said(text))))
      case Done => (AtEnd, State(rest[1..], true, None))
      case Row(values) => if values == [] then Take(rest[1..]) else (ARow(values), State(rest[1..], false, None))
      case _ => Take(rest[1..])
  }

  /** One read of a channel that is closed after what is on it, by a caller who waits. */
  function ReadOnce(s: State): (Read, State) {
    if s.err.Some? then (Failed(s.err.value), s) else if s.done then (AtEnd, s) else Take(s.rest)
  }

  function Nth(s: State, n: nat): Read
    decreases n
  {
    if n == 0 then ReadOnce(s).0 else Nth(ReadOnce(s).1, n - 1)
  }

  /** Opening waits for the columns; rows before them are nobody's. */
  function Opens(rest: seq<Body>): Result<(seq<string>, State)> {
    if rest == [] then Err(Gone)
    else
      match rest[0]
      case Error(text) => if text == "" then Opens(rest[1..]) else Err(Said(text))
      case Columns(cols) => if cols == [] then Opens(rest[1..]) else Ok((cols, State(rest[1..], false, None)))
      case Done => Ok(([], State(rest[1..], true, None)))
      case _ => Opens(rest[1..])
  }

  /** A line that opens a stream, one way or another. */
  predicate Opening(b: Body) {
    match b
    case Error(text) => text != ""
    case Columns(cols) => cols != []
    case Done => true
    case _ => false
  }

  /** How a request comes back that this line opens: failed with its words, with
      its columns, or at the end. */
  predicate OpenedWith(b: Body, r: Result<()>, cols: seq<string>, done: bool) {
    match b
    case Error(text) => r == Err(Said(text))
    case Columns(c) => r.Ok? && cols == c && !done
    case Done => r.Ok? && cols == [] && done
    case _ => false
  }

  /** The first line that opens it alone says how, whatever came before; with none
      the request is gone. */
  ghost predicate OpenedBy(lines: seq<Body>, r: Result<()>, cols: seq<string>, done: bool) {
    exists i: nat :: OpenedAt(lines, i, r, cols, done)
  }

  ghost predicate OpenedAt(lines: seq<Body>, i: nat, r: Result<()>, cols: seq<string>, done: bool) {
    && i <= |lines| && (forall j :: 0 <= j < i ==> !Opening(lines[j]))
    && if i == |lines| then r == Err(Gone) else Opening(lines[i]) && OpenedWith(lines[i], r, cols, done)
  }

  lemma {:induction false} OpensAt(lines: seq<Body>) returns (i: nat)
    ensures match Opens(lines)
            case Ok((cols, s)) => OpenedAt(lines, i, Ok(()), cols, s.done) && i < |lines| && s.rest == lines[i + 1..]
            case Err(e) => OpenedAt(lines, i, Err(e), [], false)
    decreases |lines|
  {
    if lines == [] || Opening(lines[0]) {
      i := 0;
    } else {
      i := OpensAt(lines[1..]);
      assert forall j :: 0 < j < |lines| ==> lines[1..][j - 1] == lines[j];
      i := i + 1;
    }
  }

  // ----- the objects

  /** A caller's channel: what will ever arrive on it, and whether it is closed
      then. One that is not is waited on until the caller is cancelled. */
  class Stream {
    const lines: seq<Body>
    const ends: bool
    var pos: nat
    var cols: seq<string>
    var done: bool
    var err: Option<Failure>
    var closed: bool
    ghost var stops: nat

    ghost predicate Valid()
      reads this
    {
      pos <= |lines| && stops == if closed then 1 else 0
    }

    ghost function Now(): State
      requires Valid()
      reads this
    {
      State(lines[pos..], done, err)
    }

    constructor (lines: seq<Body>, ends: bool)
      ensures Valid() && this.lines == lines && this.ends == ends && Now() == State(lines, false, None) && cols == []
    {
      this.lines, this.ends, pos, cols, done, err, closed, stops := lines, ends, 0, [], false, None, false, 0;
    }

    /** Takes the next line, unless the caller is cancelled first. */
    method Receive() returns (line: Option<Body>, cancelled: bool)
      requires Valid()
      modifies this`pos
      ensures Valid()
      ensures line.Some? ==> !cancelled && old(pos) < |lines| && line.value == lines[old(pos)] && pos == old(pos) + 1
      ensures line.None? ==> pos == old(pos) && (cancelled || (pos == |lines| && ends))
    {
      cancelled := *;
      if cancelled { return None, true; }
      if pos < |lines| {
        pos := pos + 1;
        return Some(lines[pos - 1]), false;
      }
      return None, !ends;
    }

    /** The next row, the end, or what went wrong: and the last two for ever. */
    method ReadNext() returns (r: Read)
      requires Valid()
      modifies this`pos, this`done, this`err
      ensures Valid()
      ensures (r == Failed(Cancelled) && err == Some(Cancelled)) || (r, Now()) == ReadOnce(old(Now()))
      ensures old(err).Some? || old(done) ==> (r, Now()) == ReadOnce(old(Now()))
    {
      if err.Some? { return Failed(err.value); }
      if done { return AtEnd; }
      while true
        invariant Valid() && !done && err.None?
        invariant Take(lines[pos..]) == Take(old(lines[pos..]))
        decreases |lines| - pos
      {
        ghost var rest := lines[pos..];
        var line, cancelled := Receive();
        if line.None? {
          err := Some(if cancelled then Cancelled else Stopped);
          assert !cancelled ==> rest == [] && lines[pos..] == [];
          return Failed(err.value);
        }
        assert rest[0] == line.value && rest[1..] == lines[pos..];
        match line.value {
          case Error(text) =>
            if text != "" { err := Some(Said(text)); return Failed(err.value); }
          case Done => done := true; return AtEnd;
          case Row(values) => if values != [] { return ARow(values); }
          case _ =>
        }
      }
    }

    /** The caller stops waiting, once. */
    method Close()
      requires Valid()
      modifies this`closed, this`stops
      ensures Valid() && closed
    {
      if closed { return; }
      closed, stops := true, stops + 1;
    }
  }

  /** Start a streaming request: it fails here when it fails before its columns. */
  method Rows(st: Stream) returns (r: Result<()>)
    requires st.Valid() && !st.done && st.err.None? && !st.closed
    modifies st
    ensures st.Valid()
    ensures r == Err(Cancelled) ||
      match Opens(old(st.Now()).rest)
      case Ok((cols, s)) => r.Ok? && st.cols == cols && st.Now() == s
      case Err(e) => r == Err(e)
    ensures r == Err(Cancelled) || OpenedBy(old(st.Now()).rest, r, st.cols, st.done)
    ensures r.Err? <==> st.stops == 1
  {
    ghost var at := OpensAt(st.Now().rest);
    hide OpenedAt;
    st.cols := [];
    while true
      invariant st.Valid() && !st.done && st.err.None? && !st.closed && st.cols == []
      invariant Opens(st.lines[st.pos..]) == Opens(old(st.lines[st.pos..]))
      decreases |st.lines| - st.pos
    {
      ghost var rest := st.lines[st.pos..];
      var line, cancelled := st.Receive();
      if line.None? {
        st.Close();
        return Err(if cancelled then Cancelled else Gone);
      }
      assert rest[0] == line.value && rest[1..] == st.lines[st.pos..];
      match line.value {
        case Error(text) => if text != "" { st.Close(); return Err(Said(text)); }
        case Columns(cols) => if cols != [] { st.cols := cols; return Ok(()); }
        case Done => st.done := true; return Ok(());
        case _ =>
      }
    }
  }

  // ----- reading it all

  /** Once at the end, or failed, always so. */
  lemma {:induction false} ForEver(s: State, n: nat)
    requires s.err.Some? || s.done
    ensures Nth(s, n) == ReadOnce(s).0
  {
    if n > 0 { ForEver(s, n - 1); }
  }

  lemma {:induction false} RowsInOrder(rows: seq<Body>, tail: seq<Body>, n: nat)
    requires AreRows(rows)
    ensures n < |rows| ==> Nth(State(rows + tail, false, None), n) == ARow(rows[n].values)
    ensures n >= |rows| ==> Nth(State(rows + tail, false, None), n) == Nth(State(tail, false, None), n - |rows|)
    decreases |rows|
  {
    if rows == [] {
      assert rows + tail == tail;
    } else {
      assert (rows + tail)[1..] == rows[1..] + tail && (rows + tail)[0] == rows[0];
      if n > 0 { RowsInOrder(rows[1..], tail, n - 1); }
    }
  }

  /** The last read, which every later one repeats. */
  function Ending(last: Option<Body>): Read {
    if last.None? then Failed(Stopped) else if last.value == Done then AtEnd
    else if last.value.Error? then Failed(Said(last.value.text)) else Failed(Stopped)
  }

  /** Whatever comes after it. */
  lemma EndRepeats(last: Option<Body>, after: seq<Body>, n: nat)
    requires last.Some? ==> last.value == Done || (last.value.Error? && last.value.text != "")
    ensures Nth(State(if last.None? then [] else [last.value] + after, false, None), n) == Ending(last)
  {
    var s := State(if last.None? then [] else [last.value] + after, false, None);
    if last.Some? { assert ([last.value] + after)[1..] == after; }
    if n > 0 { ForEver(ReadOnce(s).1, n - 1); }
  }

  /** Whatever of a whole answer, and of what was written after it, a caller has
      been handed when its channel is closed: the rows come in order, and after
      them the plugin's own ending for ever if it was handed that, and otherwise
      that the rows stopped arriving. Nothing after the ending is ever read. */
  lemma AnswerReads(cols: seq<string>, rows: seq<Body>, last: Body, after: seq<Body>, got: seq<Body>, n: nat)
    requires cols != [] && AreRows(rows) && (last == Done || (last.Error? && last.text != ""))
    requires got <= [Columns(cols)] + rows + [last] + after && got != []
    ensures Opens(got) == Ok((cols, State(got[1..], false, None)))
    ensures Nth(State(got[1..], false, None), n)
         == if n < |got| - 1 && n < |rows| then ARow(rows[n].values)
            else Ending(if |got| >= |rows| + 2 then Some(last) else None)
  {
    hide Nth, AreRows, Ending, Opens;
    HandedParts(cols, rows, last, after, got);
    OpensFirst(cols, got);
    if |got| >= |rows| + 2 { WholeReads(rows, last, after[..|got| - |rows| - 2], n); } else { PartReads(rows, |got| - 1, n); }
  }

  lemma OpensFirst(cols: seq<string>, got: seq<Body>)
    requires cols != [] && got != [] && got[0] == Columns(cols)
    ensures Opens(got) == Ok((cols, State(got[1..], false, None)))
  {
  }

  lemma WholeReads(rows: seq<Body>, last: Body, after: seq<Body>, n: nat)
    requires AreRows(rows) && (last == Done || (last.Error? && last.text != ""))
    ensures Nth(State(rows + ([last] + after), false, None), n) == if n < |rows| then ARow(rows[n].values) else Ending(Some(last))
  {
    hide Nth, Ending;
    RowsInOrder(rows, [last] + after, n);
    if n >= |rows| { EndRepeats(Some(last), after, n - |rows|); }
  }

  lemma PartReads(rows: seq<Body>, k: nat, n: nat)
    requires AreRows(rows) && k <= |rows|
    ensures Nth(State(rows[..k] + [], false, None), n) == if n < k then ARow(rows[n].values) else Ending(None)
  {
    BeginningRows(rows, k);
    hide Nth, Ending, AreRows;
    RowsInOrder(rows[..k], [], n);
    if n >= k { EndRepeats(None, [], n - k); }
  }

  lemma BeginningRows(rows: seq<Body>, k: nat)
    requires AreRows(rows) && k <= |rows|
    ensures AreRows(rows[..k])
  {
  }

  lemma HandedParts(cols: seq<string>, rows: seq<Body>, last: Body, after: seq<Body>, got: seq<Body>)
    requires got <= [Columns(cols)] + rows + [last] + after && got != []
    ensures got[0] == Columns(cols) && |got| <= |rows| + 2 + |after|
    ensures got[1..] == if |got| >= |rows| + 2 then rows + ([last] + after[..|got| - |rows| - 2]) else rows[..|got| - 1] + []
  {
    var all := [Columns(cols)] + rows + [last] + after;
    assert got == all[..|got|];
    assert all[1..] == rows + ([last] + after);
  }

  /** From end to end, in any interleaving: a request whose columns were not empty
      and that the plugin ended with Done, or with an error that says something, is
      read by its caller as its rows in order and then that ending for ever, as far
      as they were handed over, whatever its source wrote after. */
  lemma BrowseReads(es: seq<Event>, id: nat, n: nat) returns (cols: seq<string>, rows: seq<Body>, last: Body, after: seq<Body>)
    requires var w := Run(es); id in w.phases && w.phases[id].ended && Of(w.said, id) != [] && Of(w.said, id)[0].Columns?
    ensures AreRows(rows) && IsEnding(last) && AreLate(after) && (after == [] <==> !WrittenLate(es, id))
    ensures Of(Run(es).said, id) == [Columns(cols)] + rows + [last] + after
    ensures var got := Plugin.Got(Run(es), id); cols != [] && last != Error("") && got != [] ==>
      && Opens(got) == Ok((cols, State(got[1..], false, None)))
      && Nth(State(got[1..], false, None), n)
         == if n < |got| - 1 && n < |rows| then ARow(rows[n].values)
            else Ending(if |got| >= |rows| + 2 then Some(last) else None)
  {
    EachIsAConversation(es, id);
    HandedInOrder(es, id);
    hide Run, Of, Plugin.Got, WrittenLate;
    var bs := Of(Run(es).said, id);
    LastIs(bs);
    cols, rows, last, after := Parts(bs);
    WireParts(cols, rows, last, after);
    var got := Plugin.Got(Run(es), id);
    if cols != [] && last != Error("") && got != [] { AnswerReads(cols, rows, last, Wire(after), got, n); }
  }

  lemma Parts(bs: seq<Body>) returns (cols: seq<string>, rows: seq<Body>, last: Body, after: seq<Body>)
    requires (Whole(bs) || Overrun(bs)) && bs != [] && bs[0].Columns?
    ensures AreRows(rows) && IsEnding(last) && AreLate(after) && bs == [Columns(cols)] + rows + [last] + after
    ensures after == [] <==> Whole(bs)
  {
    LastIs(bs);
    if Overrun(bs) {
      var whole: seq<Body>;
      whole, after :| bs == whole + after && Whole(whole) && after != [] && AreLate(after);
      LastIs(whole);
      assert bs[0] == whole[0];
      cols, rows, last := WholeParts(whole);
    } else {
      after := [];
      cols, rows, last := WholeParts(bs);
      assert bs + [] == bs;
    }
  }

  lemma WholeParts(bs: seq<Body>) returns (cols: seq<string>, rows: seq<Body>, last: Body)
    requires Whole(bs) && bs != [] && bs[0].Columns?
    ensures AreRows(rows) && IsEnding(last) && bs == [Columns(cols)] + rows + [last]
  {
    var start: seq<Body>;
    start, last :| (start == [] || Started(start)) && IsEnding(last) && bs == start + [last];
    cols, rows :| AreRows(rows) && start == [Columns(cols)] + rows;
  }

  /** Rows go on the wire as they are. */
  lemma WireParts(cols: seq<string>, rows: seq<Body>, last: Body, after: seq<Body>)
    requires AreRows(rows)
    ensures Wire([Columns(cols)] + rows + [last] + after) == [OnWire(Columns(cols))] + rows + [OnWire(last)] + Wire(after)
  {
  }

  /** An error of no words is no ending on the wire: after the rows the caller
      waits on until the channel is closed. */
  lemma UnsaidEnding(rows: seq<Body>, n: nat)
    requires AreRows(rows)
    ensures Nth(State(rows + [OnWire(Error(""))], false, None), n)
         == if n < |rows| then ARow(rows[n].values) else Failed(Stopped)
  {
    RowsInOrder(rows, [Nothing], n);
    if n >= |rows| { NothingStops(n - |rows|); }
  }

  lemma NothingStops(n: nat)
    ensures Nth(State([Nothing], false, None), n) == Failed(Stopped)
  {
    assert [Nothing][1..] == [];
    if n > 0 { ForEver(ReadOnce(State([Nothing], false, None)).1, n - 1); }
  }

  /** And no columns are no columns: all the rows are passed over, and the stream
      opens at its end. */
  lemma UnsaidColumns(rows: seq<Body>)
    requires AreRows(rows)
    ensures Opens([OnWire(Columns([]))] + rows + [Done]) == Ok(([], State([], true, None)))
  {
    hide AreRows;
    OpensPast(rows, [Done]);
    assert ([Nothing] + rows + [Done])[1..] == rows + [Done] && ([Nothing] + rows + [Done])[0] == Nothing;
    assert [Done][1..] == [];
  }

  lemma {:induction false} OpensPast(rows: seq<Body>, tail: seq<Body>)
    requires AreRows(rows)
    ensures Opens(rows + tail) == Opens(tail)
    decreases |rows|
  {
    if rows == [] {
      assert rows + tail == tail;
    } else {
      assert (rows + tail)[1..] == rows[1..] + tail && (rows + tail)[0] == rows[0];
      OpensPast(rows[1..], tail);
    }
  }
}
