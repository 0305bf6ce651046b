/**
 `smc.swing_highs_lows`: candidate swing highs and lows from a centred window
 extremum, a fixed-point pass that thins runs of same-kind candidates down to
 alternating highs and lows, boundary forcing, and the Level column.

 The working column is an `array<int>` holding 1 (high), -1 (low) or 0 where
 the source holds NaN; the source never stores a 0 in it, so the encoding is
 exact.
 */
module SwingPoints {
  import opened Candles

  /**
   With L = swingLength, `high.shift(-L).rolling(2L).max()` is defined at row i
   exactly when the window [i-L+1, i+L] lies inside the series.
   */
  predicate HasWindow(n: nat, len: nat, i: nat)
  {
    2 * len <= i + 1 && i + len < n
  }

  /** The candidate mark of lines 144-160: 1, -1 or 0 (NaN); the high test wins where both hold. */
  function Candidate(c: Series, len: nat, i: nat): (m: int)
    requires 1 <= len && i < |c|
    ensures m == 0 || m == 1 || m == -1
    ensures m == 1 <==>
              HasWindow(|c|, len, i) && forall k :: i + 1 - len <= k <= i + len ==> c[k].high <= c[i].high
    ensures m == -1 <==>
              HasWindow(|c|, len, i)
              && (exists k :: i + 1 - len <= k <= i + len && c[i].high < c[k].high)
              && forall k :: i + 1 - len <= k <= i + len ==> c[i].low <= c[k].low
  {
    if HasWindow(|c|, len, i) then
      if c[i].high == MaxHigh(c, i + 1 - len, i + len + 1) then 1
      else if c[i].low == MinLow(c, i + 1 - len, i + len + 1) then -1
      else 0
    else 0
  }

  predicate IsMarks(s: seq<int>)
  {
    forall k :: 0 <= k < |s| ==> s[k] == -1 || s[k] == 0 || s[k] == 1
  }

  /** The candidate column of lines 144-160, before any thinning. */
  function CandidateMarks(c: Series, len: nat): (s: seq<int>)
    requires 1 <= len
    ensures |s| == |c| && IsMarks(s)
    ensures forall i :: 0 <= i < |c| ==> s[i] == Candidate(c, len, i)
    ensures |c| > 0 ==> s[0] == 0 && s[|c| - 1] == 0
  {
    var s := seq(|c|, i requires 0 <= i < |c| => Candidate(c, len, i));
    assert |c| > 0 ==> !HasWindow(|c|, len, 0) && !HasWindow(|c|, len, |c| - 1);
    s
  }

  /** A series with a candidate has a nonempty candidate column. */
  lemma CandidateMarksNonEmpty(c: Series, len: nat)
    requires 1 <= len
    requires exists i :: 0 <= i < |c| && Candidate(c, len, i) != 0
    ensures |Positions(CandidateMarks(c, len), 0)| > 0
  {
    var w :| 0 <= w < |c| && Candidate(c, len, w) != 0;
    PositionsNonEmpty(CandidateMarks(c, len), 0, w);
  }

  /** b is a with some marks cleared and none added. */
  predicate ClearsOnly(a: seq<int>, b: seq<int>)
  {
    |a| == |b| && forall k :: 0 <= k < |a| ==> b[k] == a[k] || b[k] == 0
  }

  /** The number of marked rows. */
  function Marks(s: seq<int>): nat
    decreases |s|
  {
    if s == [] then 0 else Marks(s[..|s| - 1]) + (if s[|s| - 1] != 0 then 1 else 0)
  }

  /** Marks counts the positions the scan of lines 164 and 190 lists. */
  lemma {:induction false} MarksPositions(s: seq<int>)
    ensures Marks(s) == |Positions(s, 0)|
    decreases |s|
  {
    if s != [] {
      MarksPositions(s[..|s| - 1]);
    }
  }

  /** Clearing a marked row removes exactly one mark. */
  lemma {:induction false} MarksClear(s: seq<int>, r: nat)
    requires r < |s| && s[r] != 0
    ensures Marks(s[r := 0]) == Marks(s) - 1
    decreases |s|
  {
    var n := |s|;
    if r < n - 1 {
      assert s[r := 0][..n - 1] == s[..n - 1][r := 0];
      MarksClear(s[..n - 1], r);
    } else {
      assert s[r := 0][..n - 1] == s[..n - 1];
    }
  }

  lemma ClearsOnlyTrans(a: seq<int>, b: seq<int>, d: seq<int>)
    requires ClearsOnly(a, b) && ClearsOnly(b, d)
    ensures ClearsOnly(a, d)
  {
  }

  /** No two consecutive marks have the same kind. */
  predicate Alternates(s: seq<int>)
  {
    var p := Positions(s, 0);
    forall k :: 0 <= k && k + 1 < |p| ==> s[p[k]] != s[p[k + 1]]
  }

  /**
   Of two adjacent marks p and q of the same kind, the one lines 179-188 clear:
   never the strictly more extreme one, and the later one on a tie.
   */
  function ClearedOf(c: Series, kind: int, p: nat, q: nat): (r: nat)
    requires p < |c| && q < |c|
    ensures r == p || r == q
    ensures kind == -1 ==> c[r].low >= c[p + q - r].low
    ensures kind == -1 && c[p].low == c[q].low ==> r == q
    ensures kind == 1 ==> c[r].high <= c[p + q - r].high
    ensures kind == 1 && c[p].high == c[q].high ==> r == q
  {
    if kind == -1 then (if c[p].low > c[q].low then p else q)
    else (if c[p].high < c[q].high then p else q)
  }

  /**
   Clears the mark of the pair (p, q) that ClearedOf picks (lines 179-188):
   the other mark of the pair stays, so one position is removed and at
   least one is left.
   */
  method ClearOneOfPair(c: Series, m: array<int>, p: nat, q: nat)
    requires m.Length == |c| && IsMarks(m[..])
    requires p < q < m.Length && m[p] == m[q] && m[p] != 0
    modifies m
    ensures IsMarks(m[..]) && ClearsOnly(old(m[..]), m[..])
    ensures m[..] == old(m[..])[ClearedOf(c, old(m[p]), p, q) := 0]
    ensures Marks(m[..]) == Marks(old(m[..])) - 1 && Marks(m[..]) > 0
  {
    var r := ClearedOf(c, m[p], p, q);
    ghost var s := m[..];
    m[r] := 0;
    assert m[..] == s[r := 0];
    MarksClear(s, r);
    MarksClear(m[..], p + q - r);
  }

  /**
   The pair (p, q) of lines 179-188 on the column s: when both entries still
   hold the same kind, the mark ClearedOf picks is cleared; otherwise s is
   left as it is.
   */
  function Visit(c: Series, s: seq<int>, p: nat, q: nat): (r: seq<int>)
    requires |s| == |c| && p < |c| && q < |c|
    ensures |r| == |c|
  {
    if s[p] != 0 && s[p] == s[q] then s[ClearedOf(c, s[p], p, q) := 0] else s
  }

  /**
   The column after the first i pairs of the snapshot pos of start have been
   visited, in order (the `for` loop of lines 166-188). Along the way the
   column only loses marks, keeps at least one, and stays equal to the
   snapshot until a pair of the same kind is met.
   */
  function Walk(c: Series, start: seq<int>, pos: seq<nat>, i: nat): (r: seq<int>)
    requires |start| == |c| && IsMarks(start) && pos == Positions(start, 0) && (i == 0 || i < |pos|)
    ensures |r| == |c| && Walked(start, pos, r, i, r != start)
    decreases i
  {
    if i == 0 then MarksPositions(start); start
    else
      var w := Walk(c, start, pos, i - 1);
      VisitWalked(c, start, pos, w, i - 1);
      Visit(c, w, pos[i - 1], pos[i])
  }

  /** One pass of the `while continue_` loop: every adjacent pair of the snapshot, visited in order. */
  function PassOf(c: Series, s: seq<int>): (r: seq<int>)
    requires |s| == |c| && IsMarks(s)
    ensures |r| == |c|
  {
    var pos := Positions(s, 0);
    Walk(c, s, pos, if |pos| == 0 then 0 else |pos| - 1)
  }

  /**
   The state of a pass over the snapshot pos of start after i pairs: s only
   clears marks; a pass that has cleared keeps fewer marks but at least one;
   a pass that has not leaves s as it was and has found pairs 0 .. i-1 of
   different kinds.
   */
  predicate Walked(start: seq<int>, pos: seq<nat>, s: seq<int>, i: nat, again: bool)
  {
    pos == Positions(start, 0) && IsMarks(s) && ClearsOnly(start, s)
    && (|pos| > 0 ==> Marks(s) > 0)
    && Marks(s) <= |pos|
    && (again ==> Marks(s) < |pos|)
    && (!again ==> i <= |pos| && forall k :: 0 <= k < i && k + 1 < |pos| ==> start[pos[k]] != start[pos[k + 1]])
  }

  /** Visiting pair i keeps the walk's invariant. */
  lemma VisitWalked(c: Series, start: seq<int>, pos: seq<nat>, s: seq<int>, i: nat)
    requires |s| == |c| && i + 1 < |pos| && Walked(start, pos, s, i, s != start)
    ensures var v := Visit(c, s, pos[i], pos[i + 1]); Walked(start, pos, v, i + 1, v != start)
  {
    var p, q := pos[i], pos[i + 1];
    if s[p] != 0 && s[p] == s[q] {
      VisitClearing(c, start, pos, s, i);
    } else if s == start {
      assert start[p] != 0;
    }
  }

  /**
   A visit that clears makes the column differ from the snapshot and removes
   one mark, the one ClearedOf picks; it keeps the other.
   */
  lemma VisitClearing(c: Series, start: seq<int>, pos: seq<nat>, s: seq<int>, i: nat)
    requires |s| == |c| && i + 1 < |pos| && Walked(start, pos, s, i, s != start)
    requires s[pos[i]] != 0 && s[pos[i]] == s[pos[i + 1]]
    ensures var v := Visit(c, s, pos[i], pos[i + 1]);
              v != start && IsMarks(v) && ClearsOnly(start, v)
              && 0 < Marks(v) == Marks(s) - 1
  {
    var p, q := pos[i], pos[i + 1];
    var v := Visit(c, s, p, q);
    var r := ClearedOf(c, s[p], p, q);
    PositionsIncreasing(start, 0);
    assert pos[i] < pos[i + 1];
    assert v == s[r := 0];
    MarksClear(s, r);
    MarksClear(v, p + q - r);
    assert start[r] != 0 && v[r] == 0;
  }

  /**
   What one pass does (lines 164-188): it only clears marks, keeps at least
   one, removes at least one when it changes anything, and changes nothing
   exactly when the marks already alternate.
   */
  lemma PassOfFacts(c: Series, s: seq<int>)
    requires |s| == |c| && IsMarks(s)
    ensures var r := PassOf(c, s);
              IsMarks(r) && ClearsOnly(s, r)
              && (Marks(s) > 0 ==> Marks(r) > 0)
              && (r != s ==> Marks(r) < Marks(s))
              && (r == s <==> Alternates(s))
  {
    MarksPositions(s);
    PassOfUnchanged(c, s);
  }

  /** A pass changes nothing exactly when the marks already alternate. */
  lemma PassOfUnchanged(c: Series, s: seq<int>)
    requires |s| == |c| && IsMarks(s)
    ensures PassOf(c, s) == s <==> Alternates(s)
  {
    var pos := Positions(s, 0);
    var last := if |pos| == 0 then 0 else |pos| - 1;
    if Alternates(s) {
      WalkAlternating(c, s, pos, last);
    } else {
      var k :| 0 <= k && k + 1 < |pos| && s[pos[k]] == s[pos[k + 1]];
      assert k < last;
    }
  }

  /** On alternating marks no visit clears anything. */
  lemma {:induction false} WalkAlternating(c: Series, s: seq<int>, pos: seq<nat>, i: nat)
    requires |s| == |c| && IsMarks(s) && pos == Positions(s, 0) && (i == 0 || i < |pos|) && Alternates(s)
    ensures Walk(c, s, pos, i) == s
    decreases i
  {
    if i > 0 {
      WalkAlternating(c, s, pos, i - 1);
      assert s[pos[i - 1]] != s[pos[i]];
    }
  }

  /**
   Every mark a pass clears is the one ClearedOf picks from a consecutive pair
   of the pass's snapshot whose two entries have the same kind.
   */
  lemma {:induction false} WalkClears(c: Series, start: seq<int>, pos: seq<nat>, i: nat, j: nat)
    requires |start| == |c| && IsMarks(start) && pos == Positions(start, 0) && (i == 0 || i < |pos|)
    requires j < |c| && Walk(c, start, pos, i)[j] != start[j]
    ensures exists k :: 0 <= k < i && start[pos[k]] == start[pos[k + 1]] && j == ClearedOf(c, start[pos[k]], pos[k], pos[k + 1])
    decreases i
  {
    var w := Walk(c, start, pos, i - 1);
    if w[j] != start[j] {
      WalkClears(c, start, pos, i - 1, j);
    } else {
      var p, q := pos[i - 1], pos[i];
      assert w[p] != 0 && w[p] == w[q];
      assert start[p] == w[p] && start[q] == w[q];
    }
  }

  /** The marks one pass clears, described by the pairs of its snapshot. */
  lemma PassOfClears(c: Series, s: seq<int>, j: nat)
    requires |s| == |c| && IsMarks(s) && j < |c| && PassOf(c, s)[j] != s[j]
    ensures var pos := Positions(s, 0);
              exists k :: 0 <= k && k + 1 < |pos| && s[pos[k]] == s[pos[k + 1]] && j == ClearedOf(c, s[pos[k]], pos[k], pos[k + 1])
  {
    var pos := Positions(s, 0);
    WalkClears(c, s, pos, if |pos| == 0 then 0 else |pos| - 1, j);
  }

  /** The `while continue_` loop of lines 162-188: passes until one changes nothing. */
  function ResolveOf(c: Series, s: seq<int>): (r: seq<int>)
    requires |s| == |c| && IsMarks(s)
    ensures |r| == |c|
    decreases Marks(s)
  {
    PassOfFacts(c, s);
    var s' := PassOf(c, s);
    if s' == s then s else ResolveOf(c, s')
  }

  /**
   The resolved column: alternating marks, obtained by clearing marks only,
   with at least one left when there was one; a column that already
   alternates is returned as it is.
   */
  lemma {:induction false} ResolveOfFacts(c: Series, s: seq<int>)
    requires |s| == |c| && IsMarks(s)
    ensures var r := ResolveOf(c, s);
              IsMarks(r) && Alternates(r) && ClearsOnly(s, r)
              && (Marks(s) > 0 ==> Marks(r) > 0)
              && (Alternates(s) ==> r == s)
    decreases Marks(s)
  {
    PassOfFacts(c, s);
    var s' := PassOf(c, s);
    if s' != s {
      ResolveOfFacts(c, s');
      ClearsOnlyTrans(s, s', ResolveOf(c, s'));
    }
  }

  /** The pair (pos[i], pos[i+1]) of lines 179-188: one of a same-kind pair is cleared. */
  method VisitPair(c: Series, m: array<int>, ghost start: seq<int>, pos: seq<nat>, i: nat, again: bool)
    returns (again': bool)
    requires m.Length == |c| && |start| == |c| && IsMarks(start) && pos == Positions(start, 0)
    requires i + 1 < |pos| && m[..] == Walk(c, start, pos, i) && again == (m[..] != start)
    modifies m
    ensures m[..] == Visit(c, old(m[..]), pos[i], pos[i + 1])
    ensures m[..] == Walk(c, start, pos, i + 1) && again' == (m[..] != start)
  {
    var p, q := pos[i], pos[i + 1];
    PositionsIncreasing(start, 0);
    if m[p] != 0 && m[p] == m[q] {
      VisitClearing(c, start, pos, m[..], i);
    }
    again' := again;
    if (m[p] == -1 && m[q] == -1) || (m[p] == 1 && m[q] == 1) {
      ClearOneOfPair(c, m, p, q);
      again' := true;
    }
  }

  /**
   One pass of the `while continue_` loop (lines 164-188): take a snapshot of
   the marked positions and walk its adjacent pairs, clearing one mark of
   every pair whose two entries still hold the same kind. The flag it
   returns is `continue_`: whether the pass changed the column.
   */
  method ResolvePass(c: Series, m: array<int>) returns (again: bool)
    requires m.Length == |c| && IsMarks(m[..])
    modifies m
    ensures m[..] == PassOf(c, old(m[..]))
    ensures again <==> m[..] != old(m[..])
  {
    ghost var start := m[..];
    var pos := Positions(m[..], 0);
    again := false;
    var i := 0;
    while i + 1 < |pos|
      invariant i == 0 || i < |pos|
      invariant m[..] == Walk(c, start, pos, i) && again == (m[..] != start)
      decreases |pos| - i
    {
      again := VisitPair(c, m, start, pos, i, again);
      i := i + 1;
    }
  }

  /**
   The `while continue_` loop of lines 162-188: it ends because every pass
   that sets `continue_` clears a mark, and it leaves the resolved column.
   */
  method Resolve(c: Series, m: array<int>)
    requires m.Length == |c| && IsMarks(m[..])
    modifies m
    ensures m[..] == ResolveOf(c, old(m[..]))
  {
    ghost var start := m[..];
    var again := true;
    while again
      invariant IsMarks(m[..])
      invariant again ==> ResolveOf(c, m[..]) == ResolveOf(c, start)
      invariant !again ==> m[..] == ResolveOf(c, start)
      decreases Marks(m[..]) + (if again then 1 else 0)
    {
      ghost var pre := m[..];
      PassOfFacts(c, pre);
      again := ResolvePass(c, m);
    }
  }

  /** The table row line 196-200 build from a mark: Level is the high of a swing high and the low of a swing low. */
  function Row(c: Series, mark: int, i: nat): Option<Swing>
    requires i < |c|
  {
    if mark == 0 then None else Some(Swing(mark, if mark == 1 then c[i].high else c[i].low))
  }

  /** The table of lines 196-200: one row per mark, at the same positions. */
  function Table(c: Series, s: seq<int>): (t: SwingTable)
    requires |s| == |c|
    ensures |t| == |c|
    ensures forall i :: 0 <= i < |t| ==> (t[i].Some? <==> s[i] != 0)
    ensures forall i :: 0 <= i < |t| && t[i].Some? ==>
              t[i].value.highLow == s[i]
              && t[i].value.level == (if s[i] == 1 then c[i].high else c[i].low)
    ensures Positions(t, None) == Positions(s, 0)
  {
    var t := seq(|c|, i requires 0 <= i < |c| => Row(c, s[i], i));
    PositionsSame(s, 0, t, None);
    t
  }

  /** The table alternates between swing highs and swing lows. */
  predicate TableAlternates(t: SwingTable)
  {
    var p := Positions(t, None);
    forall k :: 0 <= k && k + 1 < |p| ==> t[p[k]].value.highLow != t[p[k + 1]].value.highLow
  }

  /** The table of alternating marks that start with a low and end with a high does the same. */
  lemma TableOfAlternating(c: Series, s: seq<int>)
    requires |s| == |c| && Alternates(s)
    requires var p := Positions(s, 0); |p| > 0 && s[p[0]] == -1 && s[p[|p| - 1]] == 1
    ensures TableAlternates(Table(c, s))
    ensures var t := Table(c, s); var p := Positions(t, None);
              |p| > 0 && t[p[0]].value.highLow == -1 && t[p[|p| - 1]].value.highLow == 1
  {
    var t := Table(c, s);
    var p := Positions(s, 0);
    assert Positions(t, None) == p;
    forall k | 0 <= k && k + 1 < |p|
      ensures t[p[k]].value.highLow != t[p[k + 1]].value.highLow
    {
      assert s[p[k]] != s[p[k + 1]];
    }
  }

  /** Forcing row 0 to a low in front of a leading high keeps the marks alternating (line 191-192). */
  lemma MarkFirstLow(s: seq<int>)
    requires IsMarks(s) && Alternates(s) && |s| > 0 && s[0] == 0
    requires var p := Positions(s, 0); |p| > 0 && s[p[0]] == 1
    ensures IsMarks(s[0 := -1]) && Alternates(s[0 := -1])
    ensures Positions(s[0 := -1], 0) == [0] + Positions(s, 0)
  {
    var p := Positions(s, 0);
    var s' := s[0 := -1];
    PositionsMarkFirst(s, 0, -1);
    var p' := Positions(s', 0);
    forall k | 0 <= k && k + 1 < |p'|
      ensures s'[p'[k]] != s'[p'[k + 1]]
    {
      if k > 0 {
        assert p'[k] == p[k - 1] && p'[k + 1] == p[k];
        assert p[k - 1] != 0;
      }
    }
  }

  /** Forcing row N-1 to a high after a trailing low keeps the marks alternating (line 193-194). */
  lemma MarkLastHigh(s: seq<int>)
    requires IsMarks(s) && Alternates(s) && |s| > 0 && s[|s| - 1] == 0
    requires var p := Positions(s, 0); |p| > 0 && s[p[|p| - 1]] == -1
    ensures IsMarks(s[|s| - 1 := 1]) && Alternates(s[|s| - 1 := 1])
    ensures Positions(s[|s| - 1 := 1], 0) == Positions(s, 0) + [|s| - 1]
  {
    var p := Positions(s, 0);
    var s' := s[|s| - 1 := 1];
    PositionsMarkLast(s, 0, 1);
    var p' := Positions(s', 0);
    forall k | 0 <= k && k + 1 < |p'|
      ensures s'[p'[k]] != s'[p'[k + 1]]
    {
      if k + 1 < |p| {
        assert p'[k] == p[k] && p'[k + 1] == p[k + 1];
        assert p[k + 1] != |s| - 1;
      }
    }
  }

  /**
   Lines 190-194 on a column: with pos the marked positions, a first mark that
   is a high forces row 0 to a low, then a last mark that is a low forces row
   N-1 to a high.
   */
  function Forced(s: seq<int>): (r: seq<int>)
    requires |s| > 1 && |Positions(s, 0)| > 0
    ensures |r| == |s|
  {
    var pos := Positions(s, 0);
    ForceLast(ForceFirst(s), pos[|pos| - 1])
  }

  /** Line 191-192: a first mark that is a high forces row 0 to a low. */
  function ForceFirst(s: seq<int>): (r: seq<int>)
    requires |s| > 1 && |Positions(s, 0)| > 0
    ensures |r| == |s|
  {
    if s[Positions(s, 0)[0]] == 1 then s[0 := -1] else s
  }

  /** Line 193-194: a mark at `last` that is a low forces row N-1 to a high. */
  function ForceLast(s: seq<int>, last: nat): (r: seq<int>)
    requires |s| > 1 && last < |s|
    ensures |r| == |s|
  {
    if s[last] == -1 then s[|s| - 1 := 1] else s
  }

  /**
   What lines 190-194 guarantee on resolved marks: they still alternate, the
   first is a low and the last a high, and only rows 0 and N-1 can change.
   */
  lemma ForcedFacts(s: seq<int>)
    requires |s| > 1 && s[0] == 0 && s[|s| - 1] == 0
    requires IsMarks(s) && Alternates(s) && |Positions(s, 0)| > 0
    ensures var r := Forced(s);
              IsMarks(r) && Alternates(r)
              && (var p := Positions(r, 0); |p| > 0 && r[p[0]] == -1 && r[p[|p| - 1]] == 1)
              && (forall k :: 0 < k < |s| - 1 ==> r[k] == s[k])
              && (r[0] == s[0] || r[0] == -1)
              && (r[|s| - 1] == s[|s| - 1] || r[|s| - 1] == 1)
  {
    var pos := Positions(s, 0);
    ForcedFirst(s);
    ForcedLast(ForceFirst(s), pos[|pos| - 1]);
  }

  /** Line 191-192 keeps the marks alternating, makes the first a low and leaves the last position alone. */
  lemma ForcedFirst(s: seq<int>)
    requires |s| > 1 && s[0] == 0 && s[|s| - 1] == 0
    requires IsMarks(s) && Alternates(s) && |Positions(s, 0)| > 0
    ensures var pos := Positions(s, 0);
            var s1 := ForceFirst(s);
            var pos1 := Positions(s1, 0);
              IsMarks(s1) && Alternates(s1) && |s1| == |s| && s1[|s| - 1] == 0
              && |pos1| > 0 && s1[pos1[0]] == -1 && pos1[|pos1| - 1] == pos[|pos| - 1]
              && (forall k :: 0 < k < |s| ==> s1[k] == s[k]) && (s1[0] == s[0] || s1[0] == -1)
  {
    var pos := Positions(s, 0);
    if s[pos[0]] == 1 {
      MarkFirstLow(s);
    }
  }

  /** Line 193-194 keeps the marks alternating and the first a low, and makes the last a high. */
  lemma ForcedLast(s1: seq<int>, last: nat)
    requires |s1| > 1 && s1[|s1| - 1] == 0 && IsMarks(s1) && Alternates(s1)
    requires var pos1 := Positions(s1, 0); |pos1| > 0 && s1[pos1[0]] == -1 && last == pos1[|pos1| - 1]
    ensures var r := ForceLast(s1, last);
              IsMarks(r) && Alternates(r)
              && (var p := Positions(r, 0); |p| > 0 && r[p[0]] == -1 && r[p[|p| - 1]] == 1)
              && (forall k :: 0 <= k < |s1| - 1 ==> r[k] == s1[k])
              && (r[|s1| - 1] == 0 || r[|s1| - 1] == 1)
  {
    if s1[last] == -1 {
      MarkLastHigh(s1);
      var pos1 := Positions(s1, 0);
      assert Positions(s1[|s1| - 1 := 1], 0)[0] == pos1[0];
    }
  }

  /**
   Lines 190-194: after resolution, a leading high gets row 0 forced to a low
   and a trailing low gets row N-1 forced to a high.
   */
  method ForceBoundaries(m: array<int>)
    requires m.Length > 1 && m[0] == 0 && m[m.Length - 1] == 0
    requires IsMarks(m[..]) && Alternates(m[..]) && |Positions(m[..], 0)| > 0
    modifies m
    ensures m[..] == Forced(old(m[..]))
    ensures IsMarks(m[..]) && Alternates(m[..])
    ensures var p := Positions(m[..], 0); |p| > 0 && m[p[0]] == -1 && m[p[|p| - 1]] == 1
    ensures forall k :: 0 < k < m.Length - 1 ==> m[k] == old(m[k])
    ensures m[0] == old(m[0]) || m[0] == -1
    ensures m[m.Length - 1] == old(m[m.Length - 1]) || m[m.Length - 1] == 1
  {
    ghost var s0 := m[..];
    ForcedFacts(s0);
    var pos := Positions(m[..], 0);
    if m[pos[0]] == 1 {
      m[0] := -1;
    }
    if m[pos[|pos| - 1]] == -1 {
      m[m.Length - 1] := 1;
    }
  }

  /** A candidate column resolved to alternating marks, then forced at both ends (lines 162-194). */
  function Thinned(c: Series, cand: seq<int>): (r: seq<int>)
    requires |cand| == |c| && IsMarks(cand) && |Positions(cand, 0)| > 0
    requires cand[0] == 0 && cand[|c| - 1] == 0
    ensures |r| == |c|
  {
    ResolveOfFacts(c, cand);
    MarksPositions(cand);
    MarksPositions(ResolveOf(c, cand));
    Forced(ResolveOf(c, cand))
  }

  /**
   The thinned column alternates, starts with a low and ends with a high, and
   every mark in it is the candidate's own or one of the two forced ends.
   */
  lemma ThinnedFacts(c: Series, cand: seq<int>)
    requires |cand| == |c| && IsMarks(cand) && |Positions(cand, 0)| > 0
    requires cand[0] == 0 && cand[|c| - 1] == 0
    ensures var r := Thinned(c, cand);
              IsMarks(r) && Alternates(r)
              && (var p := Positions(r, 0); |p| > 0 && r[p[0]] == -1 && r[p[|p| - 1]] == 1)
              && (forall i :: 0 <= i < |c| && r[i] != 0 ==>
                    r[i] == cand[i] || (i == 0 && r[i] == -1) || (i == |c| - 1 && r[i] == 1))
  {
    ResolveOfFacts(c, cand);
    var resolved := ResolveOf(c, cand);
    MarksPositions(cand);
    MarksPositions(resolved);
    assert resolved[0] == 0 && resolved[|c| - 1] == 0;
    ForcedFacts(resolved);
    var r := Forced(resolved);
    forall i | 0 <= i < |c| && r[i] != 0
      ensures r[i] == cand[i] || (i == 0 && r[i] == -1) || (i == |c| - 1 && r[i] == 1)
    {
      if 0 < i < |c| - 1 {
        assert r[i] == resolved[i];
      }
    }
  }

  /** The table swing_highs_lows returns (lines 126-208), as a function of the candles. */
  function Swings(c: Series, swingLength: nat): (t: SwingTable)
    requires 1 <= swingLength
    requires exists i :: 0 <= i < |c| && Candidate(c, swingLength, i) != 0
    ensures |t| == |c|
  {
    CandidateMarksNonEmpty(c, swingLength);
    Table(c, Thinned(c, CandidateMarks(c, swingLength)))
  }

  /**
   The array work of lines 162-194 on a candidate column: thin it to
   alternating marks, then force the two boundaries.
   */
  method Thin(c: Series, cand: seq<int>) returns (final: seq<int>)
    requires |cand| == |c| && IsMarks(cand) && |Positions(cand, 0)| > 0
    requires cand[0] == 0 && cand[|c| - 1] == 0
    ensures final == Thinned(c, cand)
    ensures |final| == |c| && IsMarks(final) && Alternates(final)
    ensures var p := Positions(final, 0); |p| > 0 && final[p[0]] == -1 && final[p[|p| - 1]] == 1
    ensures forall i :: 0 <= i < |c| && final[i] != 0 ==>
              final[i] == cand[i] || (i == 0 && final[i] == -1) || (i == |c| - 1 && final[i] == 1)
  {
    var n := |c|;
    var m := new int[n](i requires 0 <= i < n => cand[i]);
    assert m[..] == cand;
    Resolve(c, m);
    ResolveOfFacts(c, cand);
    MarksPositions(cand);
    MarksPositions(m[..]);
    ForceBoundaries(m);
    final := m[..];
    ThinnedFacts(c, cand);
  }

  /**
   The detector's table: levels are the row's high or low, every swing is the
   row's candidate or a forced end, highs and lows alternate, and the first
   swing is a low and the last a high.
   */
  lemma SwingsFacts(c: Series, swingLength: nat)
    requires 1 <= swingLength
    requires exists i :: 0 <= i < |c| && Candidate(c, swingLength, i) != 0
    ensures var t := Swings(c, swingLength);
              (forall i :: 0 <= i < |c| && t[i].Some? ==>
                (t[i].value.highLow == 1 && t[i].value.level == c[i].high)
                || (t[i].value.highLow == -1 && t[i].value.level == c[i].low))
              && (forall i :: 0 <= i < |c| && t[i].Some? ==>
                t[i].value.highLow == Candidate(c, swingLength, i)
                || (i == 0 && t[i].value.highLow == -1)
                || (i == |c| - 1 && t[i].value.highLow == 1))
              && TableAlternates(t)
              && (var p := Positions(t, None);
                |p| > 0 && t[p[0]].value.highLow == -1 && t[p[|p| - 1]].value.highLow == 1)
  {
    var cand := CandidateMarks(c, swingLength);
    CandidateMarksNonEmpty(c, swingLength);
    ThinnedFacts(c, cand);
    var final := Thinned(c, cand);
    TableOfAlternating(c, final);
    var t := Table(c, final);
    assert t == Swings(c, swingLength);
    forall i | 0 <= i < |c| && t[i].Some?
      ensures t[i].value.highLow == Candidate(c, swingLength, i)
              || (i == 0 && t[i].value.highLow == -1)
              || (i == |c| - 1 && t[i].value.highLow == 1)
    {
      assert final[i] != 0;
    }
  }

  /**
   The whole detector. The source indexes `positions[0]` (line 191) and fails
   when no candidate exists; that input is excluded here.
   */
  method SwingHighsLows(c: Series, swingLength: nat) returns (t: SwingTable)
    requires 1 <= swingLength
    requires exists i :: 0 <= i < |c| && Candidate(c, swingLength, i) != 0
    ensures t == Swings(c, swingLength)
    ensures |t| == |c|
    ensures forall i :: 0 <= i < |c| && t[i].Some? ==>
              (t[i].value.highLow == 1 && t[i].value.level == c[i].high)
              || (t[i].value.highLow == -1 && t[i].value.level == c[i].low)
    ensures forall i :: 0 <= i < |c| && t[i].Some? ==>
              t[i].value.highLow == Candidate(c, swingLength, i)
              || (i == 0 && t[i].value.highLow == -1)
              || (i == |c| - 1 && t[i].value.highLow == 1)
    ensures TableAlternates(t)
    ensures var p := Positions(t, None);
              |p| > 0 && t[p[0]].value.highLow == -1 && t[p[|p| - 1]].value.highLow == 1
  {
    var cand := CandidateMarks(c, swingLength);
    CandidateMarksNonEmpty(c, swingLength);
    var final := Thin(c, cand);
    t := Table(c, final);
    SwingsFacts(c, swingLength);
  }
}
