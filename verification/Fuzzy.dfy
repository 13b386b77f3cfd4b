/** The matcher behind the command palette and the explorer's filter
    (internal/fuzzy/fuzzy.go): a query's letters in order in a target, placed as
    well as they can be. */
module Fuzzy {

  const SCORE_MATCH := 10
  const BONUS_WORD_START := 12
  const BONUS_FIRST := 6
  const BONUS_CONSEC := 8
  const PENALTY_GAP := 1
  const IMPOSSIBLE := -0x4000_0000

  /** The longest target of which a placement can never be taken for none. */
  const LONGEST := 0x4000_0000 + 12

  /** Unicode's tables, which the matcher only asks questions of. */
  datatype Alphabet = Alphabet(lower: char -> char, isSpace: char -> bool,
                               isLower: char -> bool, isUpper: char -> bool)

  function Fold(abc: Alphabet, s: seq<char>): (r: seq<char>)
    ensures |r| == |s|
  {
    seq(|s|, i requires 0 <= i < |s| => abc.lower(s[i]))
  }

  predicate IsWordStart(abc: Alphabet, ts: seq<char>, j: nat)
    requires j < |ts|
  {
    j == 0
    || abc.isSpace(ts[j - 1]) || ts[j - 1] in ":_-./()\U{2026}"
    || (abc.isLower(ts[j - 1]) && abc.isUpper(ts[j]))
  }

  /** What a letter earns for where it stands, whatever comes before it. */
  function StandScore(abc: Alphabet, ts: seq<char>, j: nat): int
    requires j < |ts|
  {
    SCORE_MATCH
    + (if IsWordStart(abc, ts, j) then BONUS_WORD_START else 0)
    + (if j == 0 then BONUS_FIRST else 0)
  }

  function StandScores(abc: Alphabet, ts: seq<char>): seq<int> {
    seq(|ts|, j requires 0 <= j < |ts| => StandScore(abc, ts, j))
  }

  // ----- what a placement is, and what it is worth

  /** pos puts each letter of q on an equal letter of t, left to right. */
  ghost predicate Placement(q: seq<char>, t: seq<char>, pos: seq<int>) {
    && |pos| == |q|
    && (forall i :: 0 <= i < |pos| ==> 0 <= pos[i] < |t| && t[pos[i]] == q[i])
    && (forall i, k :: 0 <= i < k < |pos| ==> pos[i] < pos[k])
  }

  /** What following a letter at k by one at j adds: a run is rewarded, and
      every letter skipped is paid for. */
  function StepScore(k: int, j: int): int {
    if j == k + 1 then BONUS_CONSEC else -(j - k - 1) * PENALTY_GAP
  }

  function PlacementScore(start: seq<int>, pos: seq<int>): int
    requires forall i :: 0 <= i < |pos| ==> 0 <= pos[i] < |start|
  {
    if |pos| == 0 then 0
    else
      var j := pos[|pos| - 1];
      if |pos| == 1 then start[j] - j / 4
      else PlacementScore(start, pos[..|pos| - 1]) + StepScore(pos[|pos| - 2], j) + start[j]
  }

  /** The letters that stand at the start of a word, and those straight after the one before. */
  ghost function AtStarts(abc: Alphabet, ts: seq<char>, pos: seq<int>): set<nat>
    requires forall i :: 0 <= i < |pos| ==> 0 <= pos[i] < |ts|
  {
    set i: nat | i < |pos| && IsWordStart(abc, ts, pos[i])
  }

  predicate Follows(pos: seq<int>, i: nat) { 0 < i < |pos| && pos[i] == pos[i - 1] + 1 }

  ghost function InRuns(pos: seq<int>): set<nat> { set i: nat | i < |pos| && Follows(pos, i) }

  /** What a placement is worth, all told: ten for each letter, twelve for each at
      the start of a word, six for the target's first, eight for each in a run, less
      one for each letter skipped and a quarter of those before the first. */
  lemma {:induction false} WorthIs(abc: Alphabet, ts: seq<char>, pos: seq<int>)
    requires pos != [] && forall i :: 0 <= i < |pos| ==> 0 <= pos[i] < |ts|
    requires forall i, k :: 0 <= i < k < |pos| ==> pos[i] < pos[k]
    ensures PlacementScore(StandScores(abc, ts), pos)
         == 10 * |pos| + 12 * |AtStarts(abc, ts, pos)| + (if pos[0] == 0 then 6 else 0) + 8 * |InRuns(pos)|
            - (pos[|pos| - 1] - pos[0] - (|pos| - 1)) - pos[0] / 4
    decreases |pos|
  {
    var n := |pos| - 1;
    var init := pos[..n];
    StartsMore(abc, ts, pos);
    RunsMore(pos);
    hide AtStarts, InRuns, IsWordStart;
    if n > 0 {
      WorthIs(abc, ts, init);
      assert init[n - 1] < pos[n];
    } else {
      NoneYet(abc, ts);
      assert init == [];
    }
  }

  lemma NoneYet(abc: Alphabet, ts: seq<char>)
    ensures AtStarts(abc, ts, []) == {} && InRuns([]) == {}
  {
  }

  lemma StartsMore(abc: Alphabet, ts: seq<char>, pos: seq<int>)
    requires pos != [] && forall i :: 0 <= i < |pos| ==> 0 <= pos[i] < |ts|
    ensures var n := |pos| - 1;
      |AtStarts(abc, ts, pos)| == |AtStarts(abc, ts, pos[..n])| + if IsWordStart(abc, ts, pos[n]) then 1 else 0
  {
    var n := |pos| - 1;
    hide IsWordStart;
    assert AtStarts(abc, ts, pos) == AtStarts(abc, ts, pos[..n]) + if IsWordStart(abc, ts, pos[n]) then {n} else {};
  }

  lemma RunsMore(pos: seq<int>)
    requires pos != []
    ensures var n := |pos| - 1;
      |InRuns(pos)| == |InRuns(pos[..n])| + if n > 0 && pos[n] == pos[n - 1] + 1 then 1 else 0
  {
    var n := |pos| - 1;
    assert forall i: nat :: i < n ==> (Follows(pos, i) <==> Follows(pos[..n], i));
    assert InRuns(pos) == InRuns(pos[..n]) + if n > 0 && pos[n] == pos[n - 1] + 1 then {n} else {};
  }

  /** q is t with letters left out: the plain reading of "its letters appear in order". */
  predicate IsSubsequence(q: seq<char>, t: seq<char>) {
    if q == [] then true
    else if t == [] then false
    else if q[|q| - 1] == t[|t| - 1] then IsSubsequence(q[..|q| - 1], t[..|t| - 1])
    else IsSubsequence(q, t[..|t| - 1])
  }

  lemma {:induction false} PlacementIffSubsequence(q: seq<char>, t: seq<char>)
    ensures IsSubsequence(q, t) <==> exists pos :: Placement(q, t, pos)
    decreases |t|
  {
    if q == [] {
      assert Placement(q, t, []);
    } else if t == [] {
      forall pos ensures !Placement(q, t, pos) {
        if |pos| == |q| { assert !(0 <= pos[0] < |t|); }
      }
    } else {
      var t' := t[..|t| - 1];
      var q' := q[..|q| - 1];
      PlacementIffSubsequence(q', t');
      PlacementIffSubsequence(q, t');
      if q[|q| - 1] == t[|t| - 1] {
        if IsSubsequence(q, t) {
          var pos: seq<int> :| Placement(q', t', pos);
          assert Placement(q, t, pos + [|t| - 1]);
        }
        forall pos | Placement(q, t, pos) ensures IsSubsequence(q, t) {
          assert Placement(q', t', pos[..|pos| - 1]);
        }
      } else {
        if IsSubsequence(q, t) {
          var pos :| Placement(q, t', pos);
          assert Placement(q, t, pos);
        }
        forall pos | Placement(q, t, pos) ensures IsSubsequence(q, t) {
          assert pos[|pos| - 1] != |t| - 1;
          assert Placement(q, t', pos);
        }
      }
    }
  }

  // ----- one cell of the table

  /** pos places the first i+1 letters, the last of them at j. */
  ghost predicate EndsAt(q: seq<char>, t: seq<char>, i: nat, j: int, pos: seq<int>)
    requires i < |q|
  {
    Placement(q[..i + 1], t, pos) && pos[i] == j
  }

  /** v is the best that placing the first i+1 letters with the last at j can
      score, or IMPOSSIBLE when nothing does. */
  ghost predicate CellOk(q: seq<char>, t: seq<char>, start: seq<int>, i: nat, j: int, v: int)
    requires i < |q| && |start| == |t|
  {
    if v == IMPOSSIBLE then forall pos :: !EndsAt(q, t, i, j, pos)
    else
      && (exists pos :: EndsAt(q, t, i, j, pos) && PlacementScore(start, pos) == v)
      && (forall pos :: EndsAt(q, t, i, j, pos) ==> PlacementScore(start, pos) <= v)
  }

  lemma FirstCell(q: seq<char>, t: seq<char>, start: seq<int>, j: nat, v: int)
    requires q != [] && |start| == |t| && j < |t|
    requires v == if t[j] == q[0] then start[j] - j / 4 else IMPOSSIBLE
    requires t[j] == q[0] ==> v != IMPOSSIBLE
    ensures CellOk(q, t, start, 0, j, v)
  {
    if t[j] == q[0] {
      assert EndsAt(q, t, 0, j, [j]) && PlacementScore(start, [j]) == v;
      forall pos | EndsAt(q, t, 0, j, pos) ensures PlacementScore(start, pos) <= v {
        assert pos == [j];
      }
    } else {
      forall pos ensures !EndsAt(q, t, 0, j, pos) {
        assert q[..1][0] == q[0];
      }
    }
  }

  lemma NoCell(q: seq<char>, t: seq<char>, start: seq<int>, i: nat, j: nat)
    requires i < |q| && |start| == |t| && j < |t|
    requires j < i || t[j] != q[i]
    ensures CellOk(q, t, start, i, j, IMPOSSIBLE)
  {
    forall pos ensures !EndsAt(q, t, i, j, pos) {
      if EndsAt(q, t, i, j, pos) {
        assert t[pos[i]] == q[..i + 1][i];
        IndexAtMost(pos, i);
      }
    }
  }

  /** A strictly increasing run of naturals has got at least as far as its index. */
  lemma IndexAtMost(pos: seq<int>, i: nat)
    requires i < |pos| && (forall a, b :: 0 <= a < b < |pos| ==> pos[a] < pos[b]) && pos[0] >= 0
    ensures i <= pos[i]
  {
    if i > 0 { IndexAtMost(pos, i - 1); }
  }

  /** Taking a prefix off a placement leaves the one it extends. */
  lemma Shorter(q: seq<char>, t: seq<char>, start: seq<int>, i: nat, j: int, pos: seq<int>)
    requires 1 <= i < |q| && |start| == |t| && EndsAt(q, t, i, j, pos)
    ensures pos[i - 1] < j && EndsAt(q, t, i - 1, pos[i - 1], pos[..i])
    ensures PlacementScore(start, pos)
         == PlacementScore(start, pos[..i]) + StepScore(pos[i - 1], j) + start[j]
  {
    assert pos[..|pos| - 1] == pos[..i];
  }

  lemma Longer(q: seq<char>, t: seq<char>, start: seq<int>, i: nat, k: int, j: int, pos: seq<int>)
    requires 1 <= i < |q| && |start| == |t| && 0 <= k < j < |t| && t[j] == q[i]
    requires EndsAt(q, t, i - 1, k, pos)
    ensures EndsAt(q, t, i, j, pos + [j])
    ensures PlacementScore(start, pos + [j])
         == PlacementScore(start, pos) + StepScore(k, j) + start[j]
  {
    var p := pos + [j];
    assert p[..|p| - 1] == pos;
    forall a | 0 <= a < |p| ensures p[a] < |t| && t[p[a]] == q[..i + 1][a] {
      if a < i { assert q[..i][a] == q[..i + 1][a] && p[a] == pos[a]; }
    }
  }

  /** The recurrence: the best over every gapped or adjacent predecessor is the
      best over every placement. */
  lemma ExtendCell(q: seq<char>, t: seq<char>, start: seq<int>, prev: seq<int>, i: nat, j: nat, v: int, arg: int)
    requires 1 <= i < |q| && |start| == |t| == |prev| && j < |t| && t[j] == q[i]
    requires forall k :: 0 <= k < j ==> CellOk(q, t, start, i - 1, k, prev[k])
    requires forall k :: 0 <= k < j && prev[k] != IMPOSSIBLE ==>
               v != IMPOSSIBLE && prev[k] + StepScore(k, j) + start[j] <= v
    requires v != IMPOSSIBLE ==>
               && 0 <= arg < j && prev[arg] != IMPOSSIBLE
               && v == prev[arg] + StepScore(arg, j) + start[j]
    ensures CellOk(q, t, start, i, j, v)
  {
    forall pos | EndsAt(q, t, i, j, pos)
      ensures v != IMPOSSIBLE && PlacementScore(start, pos) <= v
    {
      Shorter(q, t, start, i, j, pos);
      var k := pos[i - 1];
      assert CellOk(q, t, start, i - 1, k, prev[k]);
    }
    if v != IMPOSSIBLE {
      assert CellOk(q, t, start, i - 1, arg, prev[arg]);
      var pos :| EndsAt(q, t, i - 1, arg, pos) && PlacementScore(start, pos) == prev[arg];
      Longer(q, t, start, i, arg, j, pos);
    }
  }

  // ----- the table

  function Before(best: seq<seq<int>>, i: nat): seq<int>
    requires i <= |best|
  {
    if i == 0 then [] else best[i - 1]
  }

  /** The recurrence of one cell: v is reached from arg, and in a target no
      longer than LONGEST it is the best over every earlier predecessor and stays
      clear of the sentinel. */
  ghost predicate Recurrence(q: seq<char>, t: seq<char>, start: seq<int>, prev: seq<int>, i: nat, j: nat, v: int, arg: int)
    requires i < |q| && j < |t| == |start| && (i > 0 ==> |prev| == |t|)
  {
    && (v != IMPOSSIBLE ==> t[j] == q[i])
    && (i == 0 && t[j] == q[i] ==> v == start[j] - j / 4)
    && (i > 0 && v != IMPOSSIBLE ==>
          0 <= arg < j && prev[arg] != IMPOSSIBLE && v == prev[arg] + StepScore(arg, j) + start[j])
    && (|t| <= LONGEST ==>
          && (v != IMPOSSIBLE ==> v > SCORE_MATCH - j)
          && (i == 0 && t[j] == q[i] ==> v != IMPOSSIBLE)
          && (i > 0 && t[j] == q[i] ==> forall k :: 0 <= k < j && prev[k] != IMPOSSIBLE ==>
                v != IMPOSSIBLE && prev[k] + StepScore(k, j) + start[j] <= v))
  }

  ghost predicate RowOk(q: seq<char>, t: seq<char>, start: seq<int>, prev: seq<int>, i: nat, row: seq<int>, link: seq<int>)
    requires i < |q| && |t| == |start| && (i > 0 ==> |prev| == |t|)
  {
    && |row| == |link| == |t|
    && (forall j :: 0 <= j < i && j < |t| ==> row[j] == IMPOSSIBLE)
    && (forall j :: 0 <= j < |t| ==> Recurrence(q, t, start, prev, i, j, row[j], link[j]))
  }

  ghost predicate TableOk(q: seq<char>, t: seq<char>, start: seq<int>, best: seq<seq<int>>, back: seq<seq<int>>)
    requires |start| == |t|
  {
    && |best| == |back| <= |q|
    && (forall i :: 0 <= i < |best| ==> |best[i]| == |back[i]| == |t|)
    && (forall i {:trigger back[i]} :: 0 <= i < |best| ==> RowOk(q, t, start, Before(best, i), i, best[i], back[i]))
  }

  ghost predicate RowOptimal(q: seq<char>, t: seq<char>, start: seq<int>, i: nat, row: seq<int>)
    requires i < |q| && |start| == |t|
  {
    |row| == |t| && forall j :: 0 <= j < |t| ==> CellOk(q, t, start, i, j, row[j])
  }

  /** Every cell of the table is optimal over every placement. */
  lemma {:induction false} TableOptimal(q: seq<char>, t: seq<char>, start: seq<int>, best: seq<seq<int>>, back: seq<seq<int>>, i: nat)
    requires |start| == |t| <= LONGEST && TableOk(q, t, start, best, back) && i < |best|
    ensures RowOptimal(q, t, start, i, best[i])
  {
    if i > 0 { TableOptimal(q, t, start, best, back, i - 1); }
    RowFollows(q, t, start, Before(best, i), i, best[i], back[i]);
  }

  lemma RowFollows(q: seq<char>, t: seq<char>, start: seq<int>, prev: seq<int>, i: nat, row: seq<int>, link: seq<int>)
    requires i < |q| && |start| == |t| <= LONGEST
    requires i > 0 ==> RowOptimal(q, t, start, i - 1, prev)
    requires RowOk(q, t, start, prev, i, row, link)
    ensures RowOptimal(q, t, start, i, row)
  {
    forall j | 0 <= j < |t| ensures CellOk(q, t, start, i, j, row[j]) {
      CellFollows(q, t, start, prev, i, j, row[j], link[j]);
    }
  }

  lemma CellFollows(q: seq<char>, t: seq<char>, start: seq<int>, prev: seq<int>, i: nat, j: nat, v: int, arg: int)
    requires i < |q| && |start| == |t| <= LONGEST && j < |t|
    requires i > 0 ==> RowOptimal(q, t, start, i - 1, prev)
    requires Recurrence(q, t, start, prev, i, j, v, arg)
    ensures CellOk(q, t, start, i, j, v)
  {
    if t[j] != q[i] {
      NoCell(q, t, start, i, j);
    } else if i == 0 {
      FirstCell(q, t, start, j, v);
    } else {
      ExtendCell(q, t, start, prev, i, j, v, arg);
    }
  }

  // ----- the rows as they come to be filled

  /** The most prev[k] + k reaches among filled cells before m, starting from the sentinel. */
  function RunMax(prev: seq<int>, m: nat): int
    requires m <= |prev|
  {
    if m == 0 then IMPOSSIBLE
    else
      var run := RunMax(prev, m - 1);
      if prev[m - 1] != IMPOSSIBLE && prev[m - 1] + m - 1 > run then prev[m - 1] + m - 1 else run
  }

  /** What coming to j is worth, the adjacent predecessor first. */
  function CandidateOf(prev: seq<int>, j: nat): int
    requires 1 <= j <= |prev|
  {
    var near := if prev[j - 1] != IMPOSSIBLE then prev[j - 1] + BONUS_CONSEC else IMPOSSIBLE;
    var run := RunMax(prev, j - 1);
    if run != IMPOSSIBLE && run + 1 - j > near then run + 1 - j else near
  }

  function CellOf(q: seq<char>, t: seq<char>, start: seq<int>, prev: seq<int>, i: nat, j: nat): int
    requires 1 <= i < |q| && j < |t| == |start| == |prev|
  {
    if j < i || t[j] != q[i] || CandidateOf(prev, j) == IMPOSSIBLE then IMPOSSIBLE
    else CandidateOf(prev, j) + start[j]
  }

  function RowAt(q: seq<char>, t: seq<char>, start: seq<int>, i: nat): (row: seq<int>)
    requires i < |q| && |t| == |start|
    ensures |row| == |t|
  {
    if i == 0 then
      seq(|t|, j requires 0 <= j < |t| => if t[j] == q[0] then start[j] - j / 4 else IMPOSSIBLE)
    else
      var prev := RowAt(q, t, start, i - 1);
      seq(|t|, j requires 0 <= j < |t| => CellOf(q, t, start, prev, i, j))
  }

  lemma RowAfter(q: seq<char>, t: seq<char>, start: seq<int>, i: nat, row: seq<int>)
    requires 1 <= i < |q| && |t| == |start| == |row|
    requires forall j :: 0 <= j < |t| ==> row[j] == CellOf(q, t, start, RowAt(q, t, start, i - 1), i, j)
    ensures row == RowAt(q, t, start, i)
  {
  }

  /** Some cell of the last row exceeds the sentinel. */
  ghost predicate Found(q: seq<char>, t: seq<char>, start: seq<int>)
    requires q != [] && |t| == |start|
  {
    var last := RowAt(q, t, start, |q| - 1);
    exists j :: 0 <= j < |t| && last[j] > IMPOSSIBLE
  }

  /** Filled cells clear of the sentinel all count towards the maximum. */
  lemma {:induction false} RunMaxTops(prev: seq<int>, m: nat)
    requires m <= |prev| && AboveSentinel(prev)
    ensures forall k :: 0 <= k < m && prev[k] != IMPOSSIBLE ==> prev[k] + k <= RunMax(prev, m)
    ensures RunMax(prev, m) == IMPOSSIBLE || RunMax(prev, m) > SCORE_MATCH
  {
    if m > 0 { RunMaxTops(prev, m - 1); }
  }

  /** A single filled cell is the maximum, and none leaves the sentinel. */
  lemma {:induction false} RunMaxOf(prev: seq<int>, m: nat, only: nat)
    requires m <= |prev| && (forall k :: 0 <= k < m && k != only ==> prev[k] == IMPOSSIBLE)
    requires only < m ==> prev[only] != IMPOSSIBLE && prev[only] + only > IMPOSSIBLE
    ensures RunMax(prev, m) == if only < m then prev[only] + only else IMPOSSIBLE
  {
    if m > 0 { RunMaxOf(prev, m - 1, only); }
  }

  // ----- the way back

  /** The placement the links back spell, from letter i at j. */
  function Trace(back: seq<seq<int>>, i: nat, j: int): seq<int>
    requires i < |back|
  {
    if i == 0 || !(0 <= j < |back[i]|) then [j] else Trace(back, i - 1, back[i][j]) + [j]
  }

  /** Filled cells, seen from their links back alone. */
  ghost predicate Chained(q: seq<char>, t: seq<char>, start: seq<int>, best: seq<seq<int>>, back: seq<seq<int>>) {
    && |start| == |t| && |best| == |back| <= |q|
    && (forall i :: 0 <= i < |best| ==> |best[i]| == |back[i]| == |t|)
    && (forall i, j {:trigger best[i][j]} :: 0 <= i < |best| && 0 <= j < |t| && best[i][j] != IMPOSSIBLE ==>
          t[j] == q[i] && ChainStep(start, best, i, j, best[i][j], back[i][j]))
  }

  ghost predicate ChainStep(start: seq<int>, best: seq<seq<int>>, i: nat, j: nat, v: int, arg: int)
    requires i < |best| && j < |start| && forall k :: 0 <= k < |best| ==> |best[k]| == |start|
  {
    if i == 0 then v == start[j] - j / 4
    else
      var prev := best[i - 1];
      0 <= arg < j && prev[arg] != IMPOSSIBLE && v == prev[arg] + StepScore(arg, j) + start[j]
  }

  lemma TableChained(q: seq<char>, t: seq<char>, start: seq<int>, best: seq<seq<int>>, back: seq<seq<int>>)
    requires |start| == |t| && TableOk(q, t, start, best, back)
    ensures Chained(q, t, start, best, back)
  {
    forall i, j | 0 <= i < |best| && 0 <= j < |t| && best[i][j] != IMPOSSIBLE
      ensures t[j] == q[i] && ChainStep(start, best, i, j, best[i][j], back[i][j])
    {
      assert Recurrence(q, t, start, Before(best, i), i, j, best[i][j], back[i][j]);
    }
  }

  lemma {:induction false} TraceScores(q: seq<char>, t: seq<char>, start: seq<int>, best: seq<seq<int>>, back: seq<seq<int>>, i: nat, j: nat)
    requires Chained(q, t, start, best, back)
    requires i < |best| && j < |t| && best[i][j] != IMPOSSIBLE
    ensures EndsAt(q, t, i, j, Trace(back, i, j))
    ensures PlacementScore(start, Trace(back, i, j)) == best[i][j]
  {
    assert ChainStep(start, best, i, j, best[i][j], back[i][j]);
    if i > 0 {
      var k := back[i][j];
      TraceScores(q, t, start, best, back, i - 1, k);
      Longer(q, t, start, i, k, j, Trace(back, i - 1, k));
    }
  }

  // ----- the matcher

  /** No placement of q in t beats pos, and score is what it is worth. */
  ghost predicate Best(q: seq<char>, t: seq<char>, start: seq<int>, score: int, pos: seq<int>)
    requires |start| == |t|
  {
    && Placement(q, t, pos) && PlacementScore(start, pos) == score
    && forall other :: Placement(q, t, other) ==> PlacementScore(start, other) <= score
  }

  /** What Match finds is a placement worth what it says. In a target no longer
      than LONGEST it finds one whenever the letters are there in order, and no
      other placement beats it. */
  method Match(abc: Alphabet, query: seq<char>, target: seq<char>) returns (score: int, pos: seq<int>, ok: bool)
    ensures ok ==> IsSubsequence(Fold(abc, query), Fold(abc, target))
    ensures |target| <= LONGEST && IsSubsequence(Fold(abc, query), Fold(abc, target)) ==> ok
    ensures !ok || query == [] ==> score == 0 && pos == []
    ensures ok && query != [] ==>
              && Placement(Fold(abc, query), Fold(abc, target), pos)
              && PlacementScore(StandScores(abc, target), pos) == score + |target| / 8
    ensures ok && query != [] && |target| <= LONGEST ==>
              Best(Fold(abc, query), Fold(abc, target), StandScores(abc, target), score + |target| / 8, pos)
    ensures 0 < |query| <= |target| ==> (ok <==> Found(Fold(abc, query), Fold(abc, target), StandScores(abc, target)))
  {
    var qs, lt := Fold(abc, query), Fold(abc, target);
    PlacementIffSubsequence(qs, lt);
    if |qs| == 0 {
      assert Placement(qs, lt, []);
      return 0, [], true;
    }
    if |qs| > |target| {
      TooLong(qs, lt);
      return 0, [], false;
    }
    var start := StandScores(abc, target);
    var endScore;
    endScore, pos, ok := Place(qs, lt, start);
    if !ok { return 0, [], false; }
    score := endScore - |target| / 8; // equal placements favour short targets
    assert score + |target| / 8 == endScore;
  }

  lemma TooLong(q: seq<char>, t: seq<char>)
    requires |q| > |t|
    ensures !exists p :: Placement(q, t, p)
  {
    forall p ensures !Placement(q, t, p) {
      if Placement(q, t, p) { IndexAtMost(p, |q| - 1); }
    }
  }

  /** The dynamic program over folded letters and what each place is worth. */
  method Place(qs: seq<char>, lt: seq<char>, start: seq<int>) returns (endScore: int, pos: seq<int>, ok: bool)
    requires 0 < |qs| <= |lt| == |start| && Standing(start)
    ensures ok <==> Found(qs, lt, start)
    ensures ok ==> Placement(qs, lt, pos) && PlacementScore(start, pos) == endScore
    ensures |lt| <= LONGEST ==> (ok <==> exists p :: Placement(qs, lt, p))
    ensures |lt| <= LONGEST && ok ==> Best(qs, lt, start, endScore, pos)
    ensures !ok ==> pos == []
  {
    hide TableOk, RowAt, Chained, Best;
    var best, back := Table(qs, lt, start);
    TableChained(qs, lt, start, best, back);
    var end;
    endScore, end := BestEnd(best[|qs| - 1]);
    if |lt| <= LONGEST {
      LastRow(qs, lt, start, best, back);
      Answer(qs, lt, start, best, back, endScore, end);
    }
    if end < 0 { return endScore, [], false; }
    TraceScores(qs, lt, start, best, back, |qs| - 1, end);
    assert qs[..|qs| - 1 + 1] == qs;
    pos := WayBack(qs, lt, start, best, back, end);
    ok := true;
  }

  /** Every place is worth a match, and the first one more. */
  predicate Standing(start: seq<int>) {
    && (forall j :: 0 <= j < |start| ==> start[j] >= SCORE_MATCH)
    && (start != [] ==> start[0] > SCORE_MATCH)
  }

  lemma LastRow(q: seq<char>, t: seq<char>, start: seq<int>, best: seq<seq<int>>, back: seq<seq<int>>)
    requires |start| == |t| <= LONGEST && TableOk(q, t, start, best, back) && |best| == |q| > 0
    ensures AboveSentinel(best[|q| - 1])
  {
    var i := |q| - 1;
    var last := best[i];
    forall k | 0 <= k < |t| && last[k] != IMPOSSIBLE ensures last[k] > SCORE_MATCH - k {
      assert Recurrence(q, t, start, Before(best, i), i, k, last[k], back[i][k]);
    }
  }

  /** A filled cell is above what skipping every letter before it would leave. */
  predicate AboveSentinel(row: seq<int>) {
    forall k :: 0 <= k < |row| && row[k] != IMPOSSIBLE ==> row[k] > SCORE_MATCH - k
  }

  lemma Answer(q: seq<char>, t: seq<char>, start: seq<int>, best: seq<seq<int>>, back: seq<seq<int>>, endScore: int, end: int)
    requires |start| == |t| <= LONGEST && TableOk(q, t, start, best, back) && |best| == |q| > 0
    requires -1 <= end < |t|
    requires end >= 0 ==> endScore == best[|q| - 1][end] != IMPOSSIBLE
    requires AboveSentinel(best[|q| - 1]) && Tops(best[|q| - 1], endScore, end)
    ensures end >= 0 <==> exists p :: Placement(q, t, p)
    ensures end >= 0 ==> Best(q, t, start, endScore, Trace(back, |q| - 1, end))
  {
    hide TableOk, CellOk, Recurrence, RowOptimal;
    TableOptimal(q, t, start, best, back, |q| - 1);
    NothingBetter(q, t, start, best[|q| - 1], endScore, end);
    if end >= 0 {
      TableChained(q, t, start, best, back);
      TraceScores(q, t, start, best, back, |q| - 1, end);
      assert q[..|q| - 1 + 1] == q;
    }
  }

  /** endScore is no less than any cell, and end says whether one exceeds the sentinel. */
  predicate Tops(last: seq<int>, endScore: int, end: int) {
    (forall k :: 0 <= k < |last| ==> last[k] <= endScore) && (end < 0 ==> endScore == IMPOSSIBLE)
  }

  lemma NothingBetter(q: seq<char>, t: seq<char>, start: seq<int>, last: seq<int>, endScore: int, end: int)
    requires q != [] && |start| == |t|
    requires |t| <= LONGEST && RowOptimal(q, t, start, |q| - 1, last)
    requires AboveSentinel(last) && Tops(last, endScore, end)
    ensures forall p :: Placement(q, t, p) ==> end >= 0 && PlacementScore(start, p) <= endScore
  {
    forall p | Placement(q, t, p) ensures end >= 0 && PlacementScore(start, p) <= endScore {
      assert q[..|q| - 1 + 1] == q;
      assert EndsAt(q, t, |q| - 1, p[|q| - 1], p);
      assert CellOk(q, t, start, |q| - 1, p[|q| - 1], last[p[|q| - 1]]);
    }
  }

  method Table(qs: seq<char>, lt: seq<char>, start: seq<int>) returns (best: seq<seq<int>>, back: seq<seq<int>>)
    requires 0 < |qs| <= |lt| == |start| && Standing(start)
    ensures |best| == |qs| && TableOk(qs, lt, start, best, back)
    ensures best[|qs| - 1] == RowAt(qs, lt, start, |qs| - 1)
  {
    hide RowAt, Recurrence;
    var row, link := FirstRow(qs, lt, start);
    best, back := [row], [link];
    for i := 1 to |qs|
      invariant |best| == i
      invariant TableOk(qs, lt, start, best, back)
      invariant best[i - 1] == RowAt(qs, lt, start, i - 1)
    {
      row, link := FillRow(qs, lt, start, best[i - 1], i, Before(best, i - 1), back[i - 1]);
      AppendRow(qs, lt, start, best, back, row, link);
      RowAfter(qs, lt, start, i, row);
      best, back := best + [row], back + [link];
    }
  }

  lemma AppendRow(q: seq<char>, t: seq<char>, start: seq<int>, best: seq<seq<int>>, back: seq<seq<int>>, row: seq<int>, link: seq<int>)
    requires |start| == |t| && 0 < |best| < |q| && TableOk(q, t, start, best, back)
    requires |row| == |link| == |t| && RowOk(q, t, start, best[|best| - 1], |best|, row, link)
    ensures TableOk(q, t, start, best + [row], back + [link])
  {
    hide RowOk;
    var best', back' := best + [row], back + [link];
    forall i | 0 <= i < |best'| ensures RowOk(q, t, start, Before(best', i), i, best'[i], back'[i]) {
      if i < |best| {
        assert Before(best', i) == Before(best, i);
        assert RowOk(q, t, start, Before(best, i), i, best[i], back[i]);
      }
    }
  }

  method FirstRow(qs: seq<char>, lt: seq<char>, start: seq<int>) returns (row: seq<int>, link: seq<int>)
    requires qs != [] && |lt| == |start| && Standing(start)
    ensures row == RowAt(qs, lt, start, 0)
    ensures RowOk(qs, lt, start, [], 0, row, link)
  {
    var nt := |lt|;
    var best := new int[nt](_ => IMPOSSIBLE);
    for j := 0 to nt
      invariant forall k :: 0 <= k < nt ==>
        best[k] == if k < j && lt[k] == qs[0] then start[k] - k / 4 else IMPOSSIBLE
    {
      if lt[j] == qs[0] {
        best[j] := start[j] - j / 4; // slightly less, the later it is
      }
    }
    row, link := best[..], seq(nt, _ => -1);
  }

  /** runMax was reached at runArg, before bound. */
  ghost predicate ReachedAt(prev: seq<int>, bound: int, runMax: int, runArg: int) {
    runMax != IMPOSSIBLE ==>
      0 <= runArg < bound && runArg < |prev| && prev[runArg] != IMPOSSIBLE && runMax == prev[runArg] + runArg
  }

  /** The cells before j are filled and the rest are still empty. */
  ghost predicate RowPart(q: seq<char>, t: seq<char>, start: seq<int>, prev: seq<int>, i: nat,
                          row: seq<int>, link: seq<int>, j: nat)
    requires 1 <= i < |q| && |t| == |start| == |prev| && j <= |t|
  {
    && |row| == |link| == |t|
    && (forall k :: j <= k < |t| ==> row[k] == IMPOSSIBLE)
    && (forall k :: 0 <= k < j ==>
          row[k] == CellOf(q, t, start, prev, i, k) && Recurrence(q, t, start, prev, i, k, row[k], link[k]))
  }

  /** A row of the table from the row before, with one running maximum standing
      for every predecessor two or more places back. */
  method FillRow(qs: seq<char>, lt: seq<char>, start: seq<int>, prev: seq<int>, i: nat,
                 ghost before: seq<int>, ghost prevLink: seq<int>)
      returns (row: seq<int>, link: seq<int>)
    requires 1 <= i < |qs| <= |lt| == |start| == |prev| && Standing(start)
    requires i > 1 ==> |before| == |lt|
    requires RowOk(qs, lt, start, before, i - 1, prev, prevLink)
    ensures RowOk(qs, lt, start, prev, i, row, link)
    ensures forall j :: 0 <= j < |lt| ==> row[j] == CellOf(qs, lt, start, prev, i, j)
  {
    hide RowOk, Recurrence, CellOf, AboveSentinel, RowPart;
    var nt := |lt|;
    var best, back := new int[nt](_ => IMPOSSIBLE), new int[nt](_ => -1);
    RowClear(qs, lt, start, before, i - 1, prev, prevLink);
    RowBegun(qs, lt, start, prev, i, best[..], back[..]);
    var runMax, runArg := IMPOSSIBLE, -1; // over the k up to j-2
    for j := i to nt
      invariant RowPart(qs, lt, start, prev, i, best[..], back[..], j)
      invariant runMax == RunMax(prev, if j < 2 then 0 else j - 2) && ReachedAt(prev, j - 2, runMax, runArg)
    {
      var k := j - 2;
      if k >= 0 && prev[k] != IMPOSSIBLE && prev[k] + k > runMax {
        runMax, runArg := prev[k] + k, k;
      }
      ghost var was, wasLink := best[..], back[..];
      best[j], back[j] := Cell(qs, lt, start, prev, i, j, runMax, runArg);
      assert best[..] == was[j := best[j]] && back[..] == wasLink[j := back[j]];
      RowGoesOn(qs, lt, start, prev, i, was, wasLink, j, best[j], back[j]);
    }
    row, link := best[..], back[..];
    RowFilled(qs, lt, start, prev, i, row, link);
  }

  /** A row is empty before its letter could stand, and elsewhere above the sentinel. */
  lemma RowClear(q: seq<char>, t: seq<char>, start: seq<int>, prev: seq<int>, i: nat, row: seq<int>, link: seq<int>)
    requires i < |q| && |t| == |start| && (i > 0 ==> |prev| == |t|)
    requires RowOk(q, t, start, prev, i, row, link)
    ensures |t| <= LONGEST ==> AboveSentinel(row)
    ensures forall k :: 0 <= k < i && k < |t| ==> row[k] == IMPOSSIBLE
    ensures i <= |t| ==> RunMax(row, if i < 1 then 0 else i - 1) == IMPOSSIBLE
  {
    forall k | 0 <= k < |t| && |t| <= LONGEST && row[k] != IMPOSSIBLE ensures row[k] > SCORE_MATCH - k {
      assert Recurrence(q, t, start, prev, i, k, row[k], link[k]);
    }
    if 1 <= i <= |t| { RunMaxOf(row, i - 1, |t|); }
  }

  lemma RowBegun(q: seq<char>, t: seq<char>, start: seq<int>, prev: seq<int>, i: nat, row: seq<int>, link: seq<int>)
    requires 1 <= i < |q| && i <= |t| == |start| == |prev| == |row| == |link|
    requires forall k :: 0 <= k < i - 1 ==> prev[k] == IMPOSSIBLE
    requires forall k :: 0 <= k < |t| ==> row[k] == IMPOSSIBLE
    ensures RowPart(q, t, start, prev, i, row, link, i)
  {
  }

  lemma RowGoesOn(q: seq<char>, t: seq<char>, start: seq<int>, prev: seq<int>, i: nat,
                  row: seq<int>, link: seq<int>, j: nat, v: int, arg: int)
    requires 1 <= i < |q| && |t| == |start| == |prev| && j < |t|
    requires RowPart(q, t, start, prev, i, row, link, j)
    requires v == CellOf(q, t, start, prev, i, j) && Recurrence(q, t, start, prev, i, j, v, arg)
    ensures RowPart(q, t, start, prev, i, row[j := v], link[j := arg], j + 1)
  {
    hide CellOf, Recurrence;
  }

  lemma RowFilled(q: seq<char>, t: seq<char>, start: seq<int>, prev: seq<int>, i: nat, row: seq<int>, link: seq<int>)
    requires 1 <= i < |q| && |t| == |start| == |prev|
    requires RowPart(q, t, start, prev, i, row, link, |t|)
    ensures |row| == |link| == |t| && RowOk(q, t, start, prev, i, row, link)
    ensures forall j :: 0 <= j < |t| ==> row[j] == CellOf(q, t, start, prev, i, j)
  {
    hide Recurrence;
  }

  method Cell(qs: seq<char>, lt: seq<char>, start: seq<int>, prev: seq<int>, i: nat, j: nat, runMax: int, runArg: int)
      returns (v: int, arg: int)
    requires 1 <= i < |qs| && i <= j < |lt| == |start| == |prev|
    requires start[j] >= SCORE_MATCH && (|lt| <= LONGEST ==> AboveSentinel(prev))
    requires runMax == RunMax(prev, j - 1) && ReachedAt(prev, j - 1, runMax, runArg)
    ensures v == CellOf(qs, lt, start, prev, i, j)
    ensures Recurrence(qs, lt, start, prev, i, j, v, arg)
  {
    if lt[j] != qs[i] { return IMPOSSIBLE, -1; }
    var cand;
    cand, arg := Candidate(prev, j, runMax, runArg);
    v := if cand != IMPOSSIBLE then cand + start[j] else IMPOSSIBLE;
  }

  /** The best predecessor of j: the adjacent one, or the running maximum's. */
  method Candidate(prev: seq<int>, j: nat, runMax: int, runArg: int) returns (cand: int, arg: int)
    requires 1 <= j < |prev|
    requires runMax == RunMax(prev, j - 1) && ReachedAt(prev, j - 1, runMax, runArg)
    ensures cand == CandidateOf(prev, j)
    ensures cand != IMPOSSIBLE ==> 0 <= arg < j && prev[arg] != IMPOSSIBLE && cand == prev[arg] + StepScore(arg, j)
    ensures AboveSentinel(prev) && |prev| <= LONGEST ==>
              && (cand != IMPOSSIBLE ==> cand + j > 0)
              && forall k :: 0 <= k < j && prev[k] != IMPOSSIBLE ==>
                   cand != IMPOSSIBLE && prev[k] + StepScore(k, j) <= cand
  {
    cand, arg := IMPOSSIBLE, -1;
    var p := prev[j - 1];
    if p != IMPOSSIBLE {
      cand, arg := p + BONUS_CONSEC, j - 1;
    }
    if runMax != IMPOSSIBLE {
      var gap := runMax + 1 - j * PENALTY_GAP;
      if gap > cand {
        cand, arg := gap, runArg;
      }
    }
    if AboveSentinel(prev) { RunMaxTops(prev, j - 1); }
  }

  /** The best cell of the last row, or -1 where none exceeds the sentinel. */
  method BestEnd(last: seq<int>) returns (endScore: int, end: int)
    ensures -1 <= end < |last|
    ensures end >= 0 ==> endScore == last[end] > IMPOSSIBLE
    ensures Tops(last, endScore, end)
  {
    endScore, end := IMPOSSIBLE, -1;
    for j := 0 to |last|
      invariant -1 <= end < j
      invariant end == -1 ==> endScore == IMPOSSIBLE
      invariant end >= 0 ==> endScore == last[end] > IMPOSSIBLE
      invariant forall k :: 0 <= k < j ==> last[k] <= endScore
    {
      if last[j] > endScore {
        endScore, end := last[j], j;
      }
    }
  }

  lemma StepBack(q: seq<char>, t: seq<char>, start: seq<int>, best: seq<seq<int>>, back: seq<seq<int>>, i: nat, j: nat)
    requires Chained(q, t, start, best, back)
    requires i < |best| && j < |t| && best[i][j] != IMPOSSIBLE
    ensures i > 0 ==> 0 <= back[i][j] < |t| && best[i - 1][back[i][j]] != IMPOSSIBLE
  {
    assert ChainStep(start, best, i, j, best[i][j], back[i][j]);
  }

  method WayBack(ghost q: seq<char>, ghost t: seq<char>, ghost start: seq<int>, ghost best: seq<seq<int>>,
                 back: seq<seq<int>>, end: int)
      returns (pos: seq<int>)
    requires best != [] && Chained(q, t, start, best, back)
    requires 0 <= end < |t| && best[|best| - 1][end] != IMPOSSIBLE
    ensures pos == Trace(back, |back| - 1, end)
  {
    hide ChainStep;
    var nq := |back|;
    ghost var trace := Trace(back, nq - 1, end);
    var at := new int[nq];
    var i, j := nq - 1, end;
    while i >= 0
      invariant -1 <= i < nq
      invariant i >= 0 ==> 0 <= j < |t| && best[i][j] != IMPOSSIBLE
      invariant i >= 0 ==> trace == Trace(back, i, j) + at[i + 1..]
      invariant i < 0 ==> trace == at[..]
    {
      StepBack(q, t, start, best, back, i, j);
      at[i] := j;
      assert at[i..] == [j] + at[i + 1..];
      j := back[i][j];
      i := i - 1;
    }
    pos := at[..];
  }

  // ----- longer targets

  /** Two letters, the first just past the start and the other at the end,
      each there once and the first of them beginning no word. */
  ghost predicate FarApart(q: seq<char>, t: seq<char>, start: seq<int>) {
    && |q| == 2 && q[0] != q[1] && |t| == |start| > LONGEST
    && start[1] == SCORE_MATCH
    && (forall k :: 0 <= k < |t| ==> (t[k] == q[0] <==> k == 1) && (t[k] == q[1] <==> k == |t| - 1))
  }

  /** What it is worth to come to the second letter is then no more than the
      sentinel, so no cell is filled although the letters are there in order. */
  lemma SentinelReached(q: seq<char>, t: seq<char>, start: seq<int>)
    requires FarApart(q, t, start)
    ensures IsSubsequence(q, t) && !Found(q, t, start)
  {
    PlacementIffSubsequence(q, t);
    assert Placement(q, t, [1, |t| - 1]);
    var prev, last := RowAt(q, t, start, 0), RowAt(q, t, start, 1);
    RunMaxOf(prev, |t| - 2, 1);
    forall j | 0 <= j < |t| ensures last[j] == IMPOSSIBLE {
      assert last[j] == CellOf(q, t, start, prev, 1, j);
    }
  }

  /** So every length past LONGEST has a target that is answered wrongly: an x,
      an a, x after x, and a b. */
  method AnswersNo(abc: Alphabet, n: nat) returns (target: seq<char>, ok: bool)
    requires n > LONGEST
    requires abc.lower('a') == 'a' && abc.lower('b') == 'b' && abc.lower('x') == 'x'
    requires !abc.isSpace('x') && !abc.isUpper('a')
    ensures |target| == n && IsSubsequence(Fold(abc, "ab"), Fold(abc, target)) && !ok
  {
    target := seq(n, k => if k == 1 then 'a' else if k == n - 1 then 'b' else 'x');
    var score, pos;
    score, pos, ok := Match(abc, "ab", target);
    SentinelReached(Fold(abc, "ab"), Fold(abc, target), StandScores(abc, target));
  }
}
