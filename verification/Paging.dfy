/** Reading rows in pages: filtered here where the server will not
    (internal/app/filtered.go), as they arrive (internal/app/query.go:370-521), and
    one by one for an export (internal/app/rows.go). */
module Paging {
  import opened Sequences
  import opened Wrappers

  datatype Result<T> = Ok(value: T) | Err(error: string)

  type Row = seq<string>

  const FILTER_PAGE := 500
  const FILTER_SCAN := 50_000
  const EXPORT_PAGE := 5000
  const NOTIFY_EVERY := 256

  function Least(a: int, b: int): int { if a < b then a else b }

  /** A window on the rows, cut short by their end. */
  function Slice<T>(rows: seq<T>, offset: nat, limit: nat): seq<T> {
    if offset >= |rows| then [] else rows[offset..Least(offset + limit, |rows|)]
  }

  // ----- filtering what has been read

  function Kept(rows: seq<Row>, matches: Row -> bool): seq<Row> {
    if rows == [] then [] else Kept(rows[..|rows| - 1], matches) + if matches(rows[|rows| - 1]) then [rows[|rows| - 1]] else []
  }

  lemma {:induction false} KeptBoth(a: seq<Row>, b: seq<Row>, matches: Row -> bool)
    ensures Kept(a + b, matches) == Kept(a, matches) + Kept(b, matches)
  {
    if b == [] {
      assert a + b == a;
    } else {
      assert (a + b)[..|a + b| - 1] == a + b[..|b| - 1];
      KeptBoth(a, b[..|b| - 1], matches);
    }
  }

  /** What is kept stood where something matches, each once and in order, and
      nothing that matches is left out. */
  lemma KeptIs(rows: seq<Row>, matches: Row -> bool) returns (from: seq<nat>)
    ensures Rising(from, |rows|) && forall i :: 0 <= i < |rows| ==> (i in from <==> matches(rows[i]))
    ensures |Kept(rows, matches)| == |from| && forall k :: 0 <= k < |from| ==> Kept(rows, matches)[k] == rows[from[k]]
  {
    var misses := (r: Row) => !matches(r);
    from := StayPlaces(rows, misses);
    PlacesRise(rows, misses);
    KeptAt(rows, matches, misses);
    hide StayPlaces, Kept;
    forall i | 0 <= i < |rows| ensures i in from <==> matches(rows[i]) { PlacesAre(rows, misses, i); }
  }

  lemma {:induction false} KeptAt(rows: seq<Row>, matches: Row -> bool, misses: Row -> bool)
    requires forall r :: misses(r) <==> !matches(r)
    ensures var from := StayPlaces(rows, misses);
      && |Kept(rows, matches)| == |from|
      && forall k :: 0 <= k < |from| ==> from[k] < |rows| && Kept(rows, matches)[k] == rows[from[k]]
    decreases |rows|
  {
    if rows != [] {
      var init := rows[..|rows| - 1];
      KeptAt(init, matches, misses);
    }
  }

  /** What has been kept so far begins all that there is to keep. */
  lemma KeptBegins(rows: seq<Row>, read: nat, matches: Row -> bool)
    requires read <= |rows|
    ensures Kept(rows[..read], matches) <= Kept(rows, matches)
  {
    hide Kept;
    InTwo(rows, read);
    KeptBoth(rows[..read], rows[read..], matches);
    Begins(Kept(rows[..read], matches), Kept(rows[read..], matches));
  }

  lemma InTwo<T>(s: seq<T>, n: nat)
    requires n <= |s|
    ensures s == s[..n] + s[n..]
  {
  }

  lemma Begins<T>(a: seq<T>, b: seq<T>)
    ensures a <= a + b
  {
  }

  lemma SliceOfBeginning<T>(a: seq<T>, b: seq<T>, offset: nat, limit: nat)
    requires a <= b && (|a| >= offset + limit || a == b)
    ensures Slice(a, offset, limit) == Slice(b, offset, limit)
  {
    assert b[..|a|] == a;
  }

  /** Where rows come from: a window of them, which is short only at their end. */
  class Source {
    const rows: seq<Row>

    constructor (rows: seq<Row>)
      ensures this.rows == rows
    {
      this.rows := rows;
    }

    method Fetch(offset: nat, limit: nat) returns (r: Result<seq<Row>>)
      ensures r.Ok? ==> r.value == Slice(rows, offset, limit)
    {
      var ok: bool := *;
      if !ok { return Err("the source failed"); }
      return Ok(Slice(rows, offset, limit));
    }
  }

  class FilteredRows {
    const src: Source
    const matches: Row -> bool
    var kept: seq<Row>
    var read: nat
    var done: bool
    var stopped: bool

    /** What is kept is what matches of what has been read; reading ended at the
        source's end or at the bound. */
    ghost predicate Valid()
      reads this
    {
      && read <= |src.rows| && read < FILTER_SCAN + FILTER_PAGE
      && kept == Kept(src.rows[..read], matches)
      && (stopped ==> done && read >= FILTER_SCAN)
      && (done && !stopped ==> read == |src.rows|)
    }

    constructor (src: Source, matches: Row -> bool)
      ensures Valid() && this.src == src && this.matches == matches && read == 0 && !done
    {
      this.src, this.matches, kept, read, done, stopped := src, matches, [], 0, false, false;
    }

    /** Reads on while it holds too few and the source or the bound allows. */
    method Fill(want: nat) returns (r: Result<()>)
      requires Valid()
      modifies this
      ensures Valid()
      ensures r.Ok? ==> done || |kept| >= want
    {
      while !done && |kept| < want
        invariant Valid()
        decreases |src.rows| - read, if done then 0 else 1
      {
        if read >= FILTER_SCAN {
          done, stopped := true, true;
          return Ok(());
        }
        var page := src.Fetch(read, FILTER_PAGE);
        if page.Err? { return Err(page.error); }
        var rows := page.value;
        PageIs(src.rows, read, rows, matches);
        Keep(rows);
        read := read + |rows|;
        if |rows| < FILTER_PAGE { done := true; }
      }
      return Ok(());
    }

    /** Keeps what matches of a page. */
    method Keep(rows: seq<Row>)
      modifies this`kept
      ensures kept == old(kept) + Kept(rows, matches)
    {
      for i := 0 to |rows|
        invariant kept == old(kept) + Kept(rows[..i], matches)
      {
        assert rows[..i + 1][..i] == rows[..i];
        if matches(rows[i]) { kept := kept + [rows[i]]; }
      }
      assert rows[..|rows|] == rows;
    }

    /** A window on the rows that match, right unless the bound was met before
        enough of them were. */
    method Fetch(offset: nat, limit: nat) returns (r: Result<seq<Row>>)
      requires Valid()
      modifies this
      ensures Valid()
      ensures r.Ok? ==> r.value == Slice(kept, offset, limit)
      ensures r.Ok? && !(stopped && |kept| < offset + limit) ==> r.value == Slice(Kept(src.rows, matches), offset, limit)
      ensures r.Ok? && |r.value| < limit ==> done
    {
      var filled := Fill(offset + limit);
      if filled.Err? { return Err(filled.error); }
      KeptBegins(src.rows, read, matches);
      if |kept| >= offset + limit || (done && !stopped) {
        assert done && !stopped ==> src.rows[..read] == src.rows;
        SliceOfBeginning(kept, Kept(src.rows, matches), offset, limit);
      }
      return Ok(Slice(kept, offset, limit));
    }

    /** How many match, where that is known. */
    method Count() returns (n: int)
      requires Valid()
      ensures n == -1 <==> !done || stopped
      ensures n != -1 ==> n == |Kept(src.rows, matches)|
    {
      if done && !stopped {
        assert src.rows[..read] == src.rows;
        return |kept|;
      }
      return -1;
    }

    /** How far it has looked, and whether that was to the end or to the bound. */
    method Read() returns (rows: nat, atEnd: bool, atBound: bool)
      requires Valid()
      ensures rows == read && (atEnd ==> read == |src.rows|) && (atBound ==> FILTER_SCAN <= read < FILTER_SCAN + FILTER_PAGE)
    {
      return read, done && !stopped, stopped;
    }
  }

  lemma SliceNext<T>(rows: seq<T>, read: nat, limit: nat)
    requires read <= |rows|
    ensures var page := Slice(rows, read, limit);
      && read + |page| <= |rows| && |page| <= limit && (|page| < limit ==> read + |page| == |rows|)
      && rows[..read + |page|] == rows[..read] + page
  {
  }

  /** A page is what comes next, and short only at the end. */
  lemma PageIs(rows: seq<Row>, read: nat, page: seq<Row>, matches: Row -> bool)
    requires read <= |rows| && page == Slice(rows, read, FILTER_PAGE)
    ensures read + |page| <= |rows| && |page| <= FILTER_PAGE && (|page| < FILTER_PAGE ==> read + |page| == |rows|)
    ensures Kept(rows[..read + |page|], matches) == Kept(rows[..read], matches) + Kept(page, matches)
  {
    hide Kept;
    SliceNext(rows, read, FILTER_PAGE);
    KeptBoth(rows[..read], page, matches);
  }

  // ----- rows as they arrive

  /** What reading the stream answers next. */
  datatype Arrival = ARow(row: Row) | End | Failure(error: string)

  /** A result being read: what has arrived, how it ended, how many of the last to
      arrive nobody has been woken for, and how often anybody has been. */
  datatype Reading = Reading(rows: seq<Row>, done: bool, truncated: bool, error: Option<string>, batch: nat, woken: nat)

  function Begun(): Reading { Reading([], false, false, None, 0, 0) }

  /** One turn of the reader. */
  function Arrives(s: Reading, a: Arrival, max: nat): Reading {
    if s.done then s
    else
      var t := match a
        case End => s.(done := true)
        case Failure(e) => s.(done := true, error := Some(e))
        case ARow(row) =>
          var rows := s.rows + [row];
          s.(rows := rows, batch := s.batch + 1, done := |rows| >= max, truncated := s.truncated || |rows| >= max);
      if t.done || t.batch >= NOTIFY_EVERY then t.(batch := 0, woken := t.woken + 1) else t
  }

  function ArriveAll(s: Reading, arrivals: seq<Arrival>, max: nat): Reading {
    if arrivals == [] then s else Arrives(ArriveAll(s, arrivals[..|arrivals| - 1], max), arrivals[|arrivals| - 1], max)
  }

  /** What a fetch looks at finds: a page, an error, or that it has to wait. */
  datatype Answer = Page(rows: seq<Row>) | Failed(error: string) | Waits

  function Answers(s: Reading, offset: nat, limit: nat): Answer {
    if |s.rows| < offset + limit && !s.done then Waits
    else if s.error.Some? && |s.rows| < offset + limit then Failed(s.error.value)
    else Page(Slice(s.rows, offset, limit))
  }

  lemma {:induction false} OnlyMore(s: Reading, more: seq<Arrival>, max: nat)
    ensures var t := ArriveAll(s, more, max);
      && s.rows <= t.rows && (s.done ==> t == s) && s.woken <= t.woken && (!s.done && t.done ==> s.woken < t.woken)
  {
    if more != [] { OnlyMore(s, more[..|more| - 1], max); }
  }

  /** However a fetch and the reader interleave, a fetch that is answered is
      answered with what it would be once reading has ended. */
  lemma AnswerStays(s: Reading, more: seq<Arrival>, max: nat, offset: nat, limit: nat)
    requires !Answers(s, offset, limit).Waits?
    ensures Answers(ArriveAll(s, more, max), offset, limit) == Answers(s, offset, limit)
  {
    var t := ArriveAll(s, more, max);
    OnlyMore(s, more, max);
    if !s.done { SliceStays(s.rows, t.rows, offset, limit); }
  }

  lemma {:induction false} ArriveMore(s: Reading, a: seq<Arrival>, b: seq<Arrival>, max: nat)
    ensures ArriveAll(s, a + b, max) == ArriveAll(ArriveAll(s, a, max), b, max)
    decreases |b|
  {
    if b == [] {
      assert a + b == a;
    } else {
      assert (a + b)[..|a + b| - 1] == a + b[..|b| - 1];
      ArriveMore(s, a, b[..|b| - 1], max);
    }
  }

  lemma AnswerLater(s: Reading, arrivals: seq<Arrival>, used: nat, later: seq<Arrival>, max: nat, offset: nat, limit: nat)
    requires used <= |arrivals| && !Answers(ArriveAll(s, arrivals[..used], max), offset, limit).Waits?
    ensures Answers(ArriveAll(s, arrivals + later, max), offset, limit) == Answers(ArriveAll(s, arrivals[..used], max), offset, limit)
  {
    assert arrivals + later == arrivals[..used] + (arrivals[used..] + later);
    ArriveMore(s, arrivals[..used], arrivals[used..] + later, max);
    AnswerStays(ArriveAll(s, arrivals[..used], max), arrivals[used..] + later, max, offset, limit);
  }

  lemma ArriveNext(s: Reading, arrivals: seq<Arrival>, i: nat, max: nat)
    requires i < |arrivals|
    ensures ArriveAll(s, arrivals[..i + 1], max) == Arrives(ArriveAll(s, arrivals[..i], max), arrivals[i], max)
  {
    assert arrivals[..i + 1][..i] == arrivals[..i];
  }

  lemma SliceStays<T>(a: seq<T>, b: seq<T>, offset: nat, limit: nat)
    requires a <= b && |a| >= offset + limit
    ensures Slice(a, offset, limit) == Slice(b, offset, limit)
  {
    SliceOfBeginning(a, b, offset, limit);
  }

  /** How a stream ends, by what it answers: with the first thing that is no row. */
  function EndOf(arrivals: seq<Arrival>): (end: Option<Arrival>)
    ensures end.Some? ==> !end.value.ARow?
  {
    if arrivals == [] then None
    else
      var before, last := EndOf(arrivals[..|arrivals| - 1]), arrivals[|arrivals| - 1];
      if before.Some? then before else if last.ARow? then None else Some(last)
  }

  /** Its rows: all before that. */
  function RowsOf(arrivals: seq<Arrival>): seq<Row> {
    if arrivals == [] then []
    else
      var init, last := arrivals[..|arrivals| - 1], arrivals[|arrivals| - 1];
      RowsOf(init) + if EndOf(init).None? && last.ARow? then [last.row] else []
  }

  /** The most rows that are kept: the cap, and one where there is none. */
  function Cap(max: nat): nat { if max == 0 then 1 else max }

  function FirstOf<T>(rows: seq<T>, n: nat): seq<T> { if |rows| <= n then rows else rows[..n] }

  /** Read from the start, a stream leaves its rows as far as the cap, and its own
      ending unless the cap came first. */
  lemma {:induction false} ReadsStream(arrivals: seq<Arrival>, max: nat)
    ensures var s := ArriveAll(Begun(), arrivals, max); var rows := RowsOf(arrivals);
      && s.rows == FirstOf(rows, Cap(max)) && (s.truncated <==> |rows| >= Cap(max))
      && (s.done <==> (EndOf(arrivals).Some? || s.truncated))
      && (s.error.Some? <==> EndOf(arrivals).Some? && EndOf(arrivals).value.Failure? && !s.truncated)
      && (s.error.Some? ==> s.error.value == EndOf(arrivals).value.error)
  {
    if arrivals != [] {
      var init, last := arrivals[..|arrivals| - 1], arrivals[|arrivals| - 1];
      ReadsStream(init, max);
      var was := RowsOf(init);
      if EndOf(init).None? && last.ARow? && |was| < Cap(max) { assert FirstOf(was + [last.row], Cap(max)) == was + [last.row]; }
      if |was| >= Cap(max) { assert FirstOf(RowsOf(arrivals), Cap(max)) == FirstOf(was, Cap(max)); }
    }
  }

  /** A page that a fetch is answered with, of a stream read from the start, is that
      window on the stream's rows as far as the cap; and it is short only where the
      stream came to its end in good order, or at the cap. */
  lemma ShortMeansEnd(arrivals: seq<Arrival>, max: nat, offset: nat, limit: nat)
    requires Answers(ArriveAll(Begun(), arrivals, max), offset, limit).Page?
    ensures var page := Answers(ArriveAll(Begun(), arrivals, max), offset, limit).rows;
      && page == Slice(FirstOf(RowsOf(arrivals), Cap(max)), offset, limit)
      && (|page| < limit ==> EndOf(arrivals) == Some(End) || |RowsOf(arrivals)| >= Cap(max))
  {
    ReadsStream(arrivals, max);
  }

  // ----- a whole run of pages

  function Concat<T>(pages: seq<seq<T>>): seq<T> {
    if pages == [] then [] else Concat(pages[..|pages| - 1]) + pages[|pages| - 1]
  }

  /** Each page begins where the ones before it left off. */
  ghost predicate Paged<T(!new)>(rows: seq<T>, pages: seq<seq<T>>, limit: nat) {
    forall i :: 0 <= i < |pages| ==> pages[i] == Slice(rows, |Concat(pages[..i])|, limit)
  }

  /** Pages read one after another begin the rows, and up to a short one are all of them. */
  lemma {:induction false} PagesJoin<T(!new)>(rows: seq<T>, pages: seq<seq<T>>, limit: nat)
    requires Paged(rows, pages, limit)
    ensures Concat(pages) <= rows
    ensures pages != [] && |pages[|pages| - 1]| < limit ==> Concat(pages) == rows
  {
    if pages != [] {
      var init, last := pages[..|pages| - 1], pages[|pages| - 1];
      forall i | 0 <= i < |init| ensures init[i] == Slice(rows, |Concat(init[..i])|, limit) {
        assert init[..i] == pages[..i] && init[i] == pages[i];
      }
      PagesJoin(rows, init, limit);
      assert last == Slice(rows, |Concat(init)|, limit);
      NextPage(rows, Concat(init), limit);
    }
  }

  lemma NextPage<T>(rows: seq<T>, begun: seq<T>, limit: nat)
    requires begun <= rows
    ensures var page := Slice(rows, |begun|, limit); begun + page <= rows && (|page| < limit ==> begun + page == rows)
  {
  }

  /** How pages are asked for of a result while it is being read: the i-th when so
      many rows, or its end, have arrived, and for what follows the pages before it. */
  ghost predicate Answered(arrivals: seq<Arrival>, max: nat, whens: seq<nat>, pages: seq<seq<Row>>, limit: nat) {
    && |whens| == |pages|
    && forall i :: 0 <= i < |pages| ==>
         whens[i] <= |arrivals|
         && Answers(ArriveAll(Begun(), arrivals[..whens[i]], max), |Concat(pages[..i])|, limit) == Page(pages[i])
  }

  /** However the fetches and the reader interleave, the pages of a result one after
      another begin its rows as far as the cap; and once one comes short they are
      all of them, and the stream came to its end in good order or to the cap. */
  lemma PagesOfResult(arrivals: seq<Arrival>, max: nat, whens: seq<nat>, pages: seq<seq<Row>>, limit: nat)
    requires Answered(arrivals, max, whens, pages, limit)
    ensures var rows := FirstOf(RowsOf(arrivals), Cap(max));
      && Concat(pages) <= rows
      && (pages != [] && |pages[|pages| - 1]| < limit ==>
            Concat(pages) == rows && (EndOf(arrivals) == Some(End) || |RowsOf(arrivals)| >= Cap(max)))
  {
    hide ArriveAll, Answers, Slice;
    forall i | 0 <= i < |pages|
      ensures Answers(ArriveAll(Begun(), arrivals, max), |Concat(pages[..i])|, limit) == Page(pages[i])
      ensures pages[i] == Slice(FirstOf(RowsOf(arrivals), Cap(max)), |Concat(pages[..i])|, limit)
    {
      AnswerLater(Begun(), arrivals, whens[i], [], max, |Concat(pages[..i])|, limit);
      assert arrivals + [] == arrivals;
      ShortMeansEnd(arrivals, max, |Concat(pages[..i])|, limit);
    }
    PagesJoin(FirstOf(RowsOf(arrivals), Cap(max)), pages, limit);
    if pages != [] { ShortMeansEnd(arrivals, max, |Concat(pages[..|pages| - 1])|, limit); }
  }

  /** Nobody is left waiting once reading has ended: whoever waited was woken after. */
  lemma EndWakes(s: Reading, more: seq<Arrival>, max: nat, offset: nat, limit: nat)
    requires Answers(s, offset, limit).Waits? && ArriveAll(s, more, max).done
    ensures ArriveAll(s, more, max).woken > s.woken && !Answers(ArriveAll(s, more, max), offset, limit).Waits?
  {
    OnlyMore(s, more, max);
  }

  class ResultSet {
    const max: nat
    var rows: seq<Row>
    var done: bool
    var truncated: bool
    var error: Option<string>
    var batch: nat
    var woken: nat       // how many times a channel has been closed and replaced

    ghost function Now(): Reading
      reads this
    {
      Reading(rows, done, truncated, error, batch, woken)
    }

    constructor (max: nat)
      ensures Now() == Begun() && this.max == max
    {
      this.max, rows, done, truncated, error, batch, woken := max, [], false, false, None, 0, 0;
    }

    /** One turn of the loop that reads the stream, under the lock. */
    method ReadOne(a: Arrival) returns (finished: bool)
      requires !done
      modifies this
      ensures Now() == Arrives(old(Now()), a, max) && finished == done
    {
      match a {
        case End => done := true;
        case Failure(e) => error, done := Some(e), true;
        case ARow(row) =>
          rows, batch := rows + [row], batch + 1;
          if |rows| >= max { done, truncated := true, true; }
      }
      finished := done;
      if finished || batch >= NOTIFY_EVERY { batch, woken := 0, woken + 1; }
    }

    /** The reader failed otherwise than by its stream. */
    method Fail(e: string)
      modifies this
      ensures old(done) ==> Now() == old(Now())
      ensures !old(done) ==> Now() == Arrives(old(Now()), Failure(e), max).(batch := old(batch))
    {
      if done { return; }
      error, done := Some(e), true;
      woken := woken + 1;
    }

    /** One look of a fetch, under the lock: its answer, or what to wait on. */
    method Look(offset: nat, limit: nat) returns (a: Answer, channel: nat)
      ensures a == Answers(Now(), offset, limit) && channel == woken
    {
      channel := woken;
      var have := |rows|;
      if have >= offset + limit || done {
        if error.Some? && have < offset + limit { return Failed(error.value), channel; }
        if offset >= have { return Page([]), channel; }
        var end := Least(have, offset + limit);
        return Page(rows[offset..end]), channel;
      }
      return Waits, channel;
    }

    /** A fetch that waits: it looks, and if it has to wait does so until the
        channel it saw is closed, the reader taking its turns meanwhile, and then
        looks again, perhaps some turns later. It is answered with what it would be
        answered once reading ends, and it is answered if reading does. */
    method Fetch(offset: nat, limit: nat, arrivals: seq<Arrival>) returns (a: Answer, used: nat)
      modifies this
      ensures used <= |arrivals| && Now() == ArriveAll(old(Now()), arrivals[..used], max)
      ensures a.Waits? ==> used == |arrivals| && !done
      ensures !a.Waits? ==> forall later :: Answers(ArriveAll(old(Now()), arrivals + later, max), offset, limit) == a
    {
      used := 0;
      ghost var was := Now();
      assert arrivals[..0] == [];
      assert ArriveAll(was, [], max) == was;
      hide ArriveAll, Arrives;
      while true
        invariant used <= |arrivals| && Now() == ArriveAll(was, arrivals[..used], max)
        decreases |arrivals| - used
      {
        var channel;
        a, channel := Look(offset, limit);
        if !a.Waits? {
          forall later ensures Answers(ArriveAll(was, arrivals + later, max), offset, limit) == a {
            AnswerLater(was, arrivals, used, later, max, offset, limit);
          }
          return;
        }
        used := Wait(channel, arrivals, used, was);
        if woken == channel { return; }
      }
    }

    /** Waits for that channel to be closed, the reader taking its turns: those it
        takes before it closes it, and some number more. */
    method Wait(channel: nat, arrivals: seq<Arrival>, from: nat, ghost was: Reading) returns (used: nat)
      requires from <= |arrivals| && Now() == ArriveAll(was, arrivals[..from], max)
      requires !done && woken == channel
      modifies this
      ensures from <= used <= |arrivals| && Now() == ArriveAll(was, arrivals[..used], max)
      ensures woken == channel ==> used == |arrivals| && !done
      ensures woken != channel ==> from < used
    {
      hide ArriveAll, Arrives;
      used := from;
      while woken == channel && used < |arrivals|
        invariant from <= used <= |arrivals| && Now() == ArriveAll(was, arrivals[..used], max)
        invariant (woken == channel ==> !done) && (used == from ==> woken == channel) && channel <= woken
      {
        used := Turn(was, arrivals, used);
      }
      if woken == channel { return; }
      var turns: nat := *;
      while turns > 0 && used < |arrivals| && !done
        invariant from < used <= |arrivals| && Now() == ArriveAll(was, arrivals[..used], max) && channel < woken
      {
        used := Turn(was, arrivals, used);
        turns := turns - 1;
      }
    }

    method Turn(ghost was: Reading, arrivals: seq<Arrival>, i: nat) returns (next: nat)
      requires i < |arrivals| && !done && Now() == ArriveAll(was, arrivals[..i], max)
      modifies this
      ensures next == i + 1 && Now() == ArriveAll(was, arrivals[..i + 1], max)
      ensures old(woken) <= woken && (done ==> old(woken) < woken)
    {
      ArriveNext(was, arrivals, i, max);
      var finished := ReadOne(arrivals[i]);
      next := i + 1;
    }

    /** How many rows, once that is known. */
    method Count() returns (n: int)
      ensures n == if done && error.None? then |rows| else -1
    {
      return if !done || error.Some? then -1 else |rows|;
    }
  }

  // ----- every row once

  /** A source of pages that keeps its rows and hands out copies. */
  class Fetcher {
    const kept: array<Option<Row>>

    constructor (kept: array<Option<Row>>)
      ensures this.kept == kept
    {
      this.kept := kept;
    }

    method Fetch(offset: nat, limit: nat) returns (r: Result<array<Option<Row>>>)
      ensures r.Ok? ==> fresh(r.value) && r.value[..] == Slice(kept[..], offset, limit)
    {
      var ok: bool := *;
      if !ok { return Err("the source failed"); }
      var n := if offset >= kept.Length then 0 else Least(offset + limit, kept.Length) - offset;
      var page := new Option<Row>[n](i => None);
      for i := 0 to n
        invariant forall k :: 0 <= k < i ==> page[k] == kept[offset + k]
        invariant fresh(page)
      {
        page[i] := kept[offset + i];
      }
      return Ok(page);
    }
  }

  class PagedRows {
    const f: Fetcher
    var page: array<Option<Row>>
    var i: nat
    var next: nat
    var last: bool

    /** How many rows have been handed out: what is left of the page is what comes
        next of the rows kept. */
    ghost function Pos(): int
      reads this, page
    {
      next - (page.Length - i)
    }

    ghost predicate Valid()
      reads this, page, f.kept
    {
      && page != f.kept && i <= page.Length <= next + i && next <= f.kept.Length
      && (forall k :: i <= k < page.Length ==> page[k] == f.kept[Pos() + k - i])
      && (last ==> next == f.kept.Length)
    }

    constructor (f: Fetcher)
      ensures Valid() && Pos() == 0 && this.f == f && fresh(page)
    {
      this.f, i, next, last := f, 0, 0, false;
      page := new Option<Row>[0];
    }

    /** The next row: each once, in order, and then the end for ever; and what the
        source keeps is left as it was. */
    method Next() returns (r: Result<Option<Option<Row>>>)
      requires Valid()
      modifies this, page
      ensures Valid() && (page == old(page) || fresh(page))
      ensures f.kept[..] == old(f.kept[..])
      ensures r.Err? ==> Pos() == old(Pos())
      ensures r.Ok? && old(Pos()) < f.kept.Length ==> r.value == Some(f.kept[old(Pos())]) && Pos() == old(Pos()) + 1
      ensures r.Ok? && old(Pos()) >= f.kept.Length ==> r.value == None && Pos() == old(Pos())
    {
      while i >= page.Length
        invariant Valid() && Pos() == old(Pos()) && (page == old(page) || fresh(page))
        invariant f.kept[..] == old(f.kept[..])
        decreases f.kept.Length - next, if last then 0 else 1, page.Length - i
      {
        if last { return Ok(None); }
        var turned := Turn();
        if turned.Err? { return Err(turned.error); }
      }
      r := Ok(Some(page[i]));
      page[i] := None;
      i := i + 1;
    }

    /** The next page, in the place of one that is done with. */
    method Turn() returns (r: Result<()>)
      requires Valid() && i == page.Length && !last
      modifies this
      ensures Valid() && Pos() == old(Pos()) && f.kept[..] == old(f.kept[..])
      ensures r.Ok? ==> fresh(page) && (next > old(next) || last) && next >= old(next)
      ensures r.Err? ==> page == old(page) && i == old(i) && next == old(next) && last == old(last)
    {
      var rows := f.Fetch(next, EXPORT_PAGE);
      if rows.Err? { return Err(rows.error); }
      SliceIs(f.kept[..], next, EXPORT_PAGE);
      page, i := rows.value, 0;
      assert forall k :: 0 <= k < page.Length ==> page[k] == page[..][k];
      next := next + page.Length;
      last := page.Length < EXPORT_PAGE;
      return Ok(());
    }
  }

  lemma SliceIs<T>(rows: seq<T>, offset: nat, limit: nat)
    requires offset <= |rows|
    ensures var s := Slice(rows, offset, limit);
      && offset + |s| <= |rows| && |s| <= limit && (|s| < limit ==> offset + |s| == |rows|)
      && forall k :: 0 <= k < |s| ==> s[k] == rows[offset + k]
  {
  }
}
