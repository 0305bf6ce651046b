/**
 `smc.liquidity`: liquidity pools. A high pass and then a low pass walk the
 swing table; from every swing still of the pass's kind a forward scan absorbs
 the later swings of that kind whose level lies in the band of ±pip around
 it, until a candle sweeps the band. Absorbed swings get HighLow 0 in the
 caller's own table, so they cannot start or join another pool.

 The four result columns Liquidity, Level, End and Swept, written together,
 are one array of optional `Pool` records here.
 */
module LiquidityPools {
  import opened Candles

  /** One reported pool. */
  datatype Pool = Pool(dir: Dir, level: real, end: nat, swept: nat)

  /** The pip range of line 577: a fraction of the whole series' high-low range. */
  function PipRange(c: Series, rangePercent: real): (pip: real)
    requires |c| > 0
    ensures 0.0 <= rangePercent && c[0].low <= c[0].high ==> 0.0 <= pip
  {
    var spread := MaxHigh(c, 0, |c|) - MinLow(c, 0, |c|);
    assert c[0].low <= c[0].high ==> 0.0 <= spread;
    spread * rangePercent
  }

  /** Row j is a swing of the pass's kind whose level lies in [lo, hi]. */
  predicate Joins(t: SwingTable, dir: Dir, lo: real, hi: real, j: nat)
    requires j < |t|
  {
    t[j].Some? && t[j].value.highLow == KindOf(dir) && lo <= t[j].value.level <= hi
  }

  /** Candle j sweeps the band: its high reaches hi (high pass) or its low reaches lo (low pass). */
  predicate Sweeps(c: Series, dir: Dir, lo: real, hi: real, j: nat)
    requires j < |c|
  {
    if dir == Bullish then c[j].high >= hi else c[j].low <= lo
  }

  /** A scan starting at k absorbs j: j joins, and no candle in [k, j) sweeps. */
  predicate Reaches(c: Series, t: SwingTable, dir: Dir, lo: real, hi: real, k: nat, j: nat)
    requires |t| == |c|
  {
    k <= j < |c| && Joins(t, dir, lo, hi, j) && forall m :: k <= m < j ==> !Sweeps(c, dir, lo, hi, m)
  }

  /** What the inner scan from k finds: the absorbed rows, and the sweeping candle or 0. */
  datatype Gathered = Gathered(absorbed: seq<nat>, swept: nat)

  /**
   The inner scan of lines 591-599 (616-624) from k on: a candle that joins
   is absorbed before the sweep test on the same candle, and the first
   sweeping candle ends the scan. What it finds is stated by `GatherSound`,
   `GatherComplete` and `GatherSweeps`.
   */
  function Gather(c: Series, t: SwingTable, dir: Dir, lo: real, hi: real, k: nat): (g: Gathered)
    requires |t| == |c| && 1 <= k
    decreases |c| - k
  {
    if k >= |c| then Gathered([], 0)
    else
      var here := if Joins(t, dir, lo, hi, k) then [k] else [];
      if Sweeps(c, dir, lo, hi, k) then Gathered(here, k)
      else
        var rest := Gather(c, t, dir, lo, hi, k + 1);
        Gathered(here + rest.absorbed, rest.swept)
  }

  predicate Increasing(a: seq<nat>)
  {
    forall m, m' :: 0 <= m < m' < |a| ==> a[m] < a[m']
  }

  predicate AllReach(c: Series, t: SwingTable, dir: Dir, lo: real, hi: real, k: nat, a: seq<nat>)
    requires |t| == |c|
  {
    forall m :: 0 <= m < |a| ==> Reaches(c, t, dir, lo, hi, k, a[m])
  }

  /** The scan absorbs, in increasing order, only swings it reaches before the sweep. */
  lemma {:induction false} GatherSound(c: Series, t: SwingTable, dir: Dir, lo: real, hi: real, k: nat)
    requires |t| == |c| && 1 <= k
    ensures Increasing(Gather(c, t, dir, lo, hi, k).absorbed)
    ensures AllReach(c, t, dir, lo, hi, k, Gather(c, t, dir, lo, hi, k).absorbed)
    decreases |c| - k
  {
    if k < |c| && !Sweeps(c, dir, lo, hi, k) {
      GatherSound(c, t, dir, lo, hi, k + 1);
      var rest := Gather(c, t, dir, lo, hi, k + 1);
      forall m | 0 <= m < |rest.absorbed|
        ensures Reaches(c, t, dir, lo, hi, k, rest.absorbed[m])
      {
        assert Reaches(c, t, dir, lo, hi, k + 1, rest.absorbed[m]);
      }
    }
  }

  /** Every swing the scan reaches before the sweep is absorbed. */
  lemma {:induction false} GatherComplete(c: Series, t: SwingTable, dir: Dir, lo: real, hi: real, k: nat, j: nat)
    requires |t| == |c| && 1 <= k
    requires Reaches(c, t, dir, lo, hi, k, j)
    ensures j in Gather(c, t, dir, lo, hi, k).absorbed
    decreases |c| - k
  {
    if j != k {
      assert !Sweeps(c, dir, lo, hi, k);
      assert Reaches(c, t, dir, lo, hi, k + 1, j);
      GatherComplete(c, t, dir, lo, hi, k + 1, j);
    }
  }

  /** w is the first candle from k on that sweeps the band, or 0 when none does. */
  predicate FirstSweep(c: Series, dir: Dir, lo: real, hi: real, k: nat, w: nat)
  {
    (w == 0 ==> forall m :: k <= m < |c| ==> !Sweeps(c, dir, lo, hi, m))
    && (w != 0 ==>
          k <= w < |c| && Sweeps(c, dir, lo, hi, w)
          && forall m :: k <= m < w ==> !Sweeps(c, dir, lo, hi, m))
  }

  /** Swept is the first sweeping candle from k on, or 0 when none sweeps. */
  lemma {:induction false} GatherSweeps(c: Series, t: SwingTable, dir: Dir, lo: real, hi: real, k: nat)
    requires |t| == |c| && 1 <= k
    ensures FirstSweep(c, dir, lo, hi, k, Gather(c, t, dir, lo, hi, k).swept)
    decreases |c| - k
  {
    if k < |c| && !Sweeps(c, dir, lo, hi, k) {
      GatherSweeps(c, t, dir, lo, hi, k + 1);
    }
  }

  function Sum(s: seq<real>): real
  {
    if s == [] then 0.0 else Sum(s[..|s| - 1]) + s[|s| - 1]
  }

  function Mean(s: seq<real>): real
    requires |s| > 0
  {
    Sum(s) / (|s| as real)
  }

  lemma {:induction false} SumBounds(s: seq<real>, lo: real, hi: real)
    requires forall m :: 0 <= m < |s| ==> lo <= s[m] <= hi
    ensures (|s| as real) * lo <= Sum(s) <= (|s| as real) * hi
  {
    if s != [] {
      SumBounds(s[..|s| - 1], lo, hi);
    }
  }

  /** The mean of levels that all lie in a band lies in the band. */
  lemma MeanInBand(s: seq<real>, lo: real, hi: real)
    requires |s| > 0 && forall m :: 0 <= m < |s| ==> lo <= s[m] <= hi
    ensures lo <= Mean(s) <= hi
  {
    SumBounds(s, lo, hi);
    var n := |s| as real;
    var q := Sum(s) / n;
    assert q * n == Sum(s);
    MulCancel(lo, q, n);
    MulCancel(q, hi, n);
  }

  lemma MulCancel(a: real, b: real, n: real)
    requires 0.0 < n && a * n <= b * n
    ensures a <= b
  {
  }

  /** The level of row j (0 for a row that is absent or out of range, which no scan absorbs). */
  function LevelOf(t: SwingTable, j: nat): real
  {
    if j < |t| && t[j].Some? then t[j].value.level else 0.0
  }

  /**
   The list lines 588-594 (613-619) build: the starting swing's level first,
   then the level of each absorbed row in order.
   */
  function PoolLevels(first: real, t: SwingTable, a: seq<nat>): (l: seq<real>)
    ensures |l| == |a| + 1
  {
    if a == [] then [first] else PoolLevels(first, t, a[..|a| - 1]) + [LevelOf(t, a[|a| - 1])]
  }

  lemma {:induction false} PoolLevelsIndex(first: real, t: SwingTable, a: seq<nat>)
    ensures PoolLevels(first, t, a)[0] == first
    ensures forall m :: 0 <= m < |a| ==> PoolLevels(first, t, a)[m + 1] == LevelOf(t, a[m])
  {
    if a != [] {
      var init := a[..|a| - 1];
      PoolLevelsIndex(first, t, init);
      assert forall m :: 0 <= m < |init| ==> init[m] == a[m];
    }
  }

  /** A scan from swing i, with the band of ±pip around its level, absorbs j. */
  predicate PoolReaches(c: Series, t: SwingTable, dir: Dir, pip: real, i: nat, j: nat)
    requires |t| == |c| && i < |c| && t[i].Some?
  {
    Reaches(c, t, dir, t[i].value.level - pip, t[i].value.level + pip, i + 1, j)
  }

  /** Scan from swing i. */
  function GatherAt(c: Series, t: SwingTable, dir: Dir, pip: real, i: nat): Gathered
    requires |t| == |c| && i < |c| && t[i].Some?
  {
    Gather(c, t, dir, t[i].value.level - pip, t[i].value.level + pip, i + 1)
  }

  /**
   The pool that starts at swing i (lines 586-606, 611-631): one exists when
   the scan absorbs at least one later swing; its Level is the mean of all
   the levels, its End the last absorbed swing and Swept the sweeping candle.
   What it means is stated by `PoolAtExists`, `PoolAtEnd`, `PoolAtLevel` and `PoolAtSwept`.
   */
  function PoolAt(c: Series, t: SwingTable, dir: Dir, pip: real, i: nat): (r: Option<Pool>)
    requires |t| == |c| && i < |c| && t[i].Some?
  {
    var g := GatherAt(c, t, dir, pip, i);
    if |g.absorbed| == 0 then None
    else
      Some(Pool(dir, Mean(PoolLevels(t[i].value.level, t, g.absorbed)), g.absorbed[|g.absorbed| - 1], g.swept))
  }

  /** A pool starts at swing i exactly when its scan reaches a later swing. */
  lemma PoolAtExists(c: Series, t: SwingTable, dir: Dir, pip: real, i: nat)
    requires |t| == |c| && i < |c| && t[i].Some?
    ensures PoolAt(c, t, dir, pip, i).Some? <==> exists j :: PoolReaches(c, t, dir, pip, i, j)
  {
    if PoolAt(c, t, dir, pip, i).Some? {
      PoolAtReaches(c, t, dir, pip, i);
    } else {
      forall j | PoolReaches(c, t, dir, pip, i, j)
        ensures false
      {
        PoolAtReached(c, t, dir, pip, i, j);
      }
    }
  }

  lemma PoolAtReaches(c: Series, t: SwingTable, dir: Dir, pip: real, i: nat)
    requires |t| == |c| && i < |c| && t[i].Some?
    requires PoolAt(c, t, dir, pip, i).Some?
    ensures PoolReaches(c, t, dir, pip, i, GatherAt(c, t, dir, pip, i).absorbed[0])
  {
    var lvl := t[i].value.level;
    var g := GatherAt(c, t, dir, pip, i);
    assert g == Gather(c, t, dir, lvl - pip, lvl + pip, i + 1);
    GatherSound(c, t, dir, lvl - pip, lvl + pip, i + 1);
    assert Reaches(c, t, dir, lvl - pip, lvl + pip, i + 1, g.absorbed[0]);
  }

  lemma PoolAtReached(c: Series, t: SwingTable, dir: Dir, pip: real, i: nat, j: nat)
    requires |t| == |c| && i < |c| && t[i].Some?
    requires PoolReaches(c, t, dir, pip, i, j)
    ensures PoolAt(c, t, dir, pip, i).Some?
  {
    var lvl := t[i].value.level;
    var g := GatherAt(c, t, dir, pip, i);
    assert g == Gather(c, t, dir, lvl - pip, lvl + pip, i + 1);
    GatherComplete(c, t, dir, lvl - pip, lvl + pip, i + 1, j);
  }

  /** The End of a pool is the last swing its scan reaches. */
  lemma PoolAtEnd(c: Series, t: SwingTable, dir: Dir, pip: real, i: nat)
    requires |t| == |c| && i < |c| && t[i].Some?
    requires PoolAt(c, t, dir, pip, i).Some?
    ensures var e := PoolAt(c, t, dir, pip, i).value.end;
              PoolReaches(c, t, dir, pip, i, e)
              && forall j :: e < j ==> !PoolReaches(c, t, dir, pip, i, j)
  {
    var lvl := t[i].value.level;
    var g := GatherAt(c, t, dir, pip, i);
    assert g == Gather(c, t, dir, lvl - pip, lvl + pip, i + 1);
    GatherSound(c, t, dir, lvl - pip, lvl + pip, i + 1);
    var n := |g.absorbed|;
    var last := g.absorbed[n - 1];
    assert Reaches(c, t, dir, lvl - pip, lvl + pip, i + 1, g.absorbed[n - 1]);
    forall j | last < j && PoolReaches(c, t, dir, pip, i, j)
      ensures false
    {
      GatherComplete(c, t, dir, lvl - pip, lvl + pip, i + 1, j);
    }
  }

  /** The Level of a pool lies in the band of ±pip around the level of the swing that starts it. */
  lemma PoolAtLevel(c: Series, t: SwingTable, dir: Dir, pip: real, i: nat)
    requires |t| == |c| && i < |c| && t[i].Some?
    requires PoolAt(c, t, dir, pip, i).Some?
    ensures var lvl := t[i].value.level;
              lvl - pip <= PoolAt(c, t, dir, pip, i).value.level <= lvl + pip
  {
    var lvl := t[i].value.level;
    var g := GatherAt(c, t, dir, pip, i);
    assert g == Gather(c, t, dir, lvl - pip, lvl + pip, i + 1);
    GatherSound(c, t, dir, lvl - pip, lvl + pip, i + 1);
    var levels := PoolLevels(lvl, t, g.absorbed);
    PoolLevelsIndex(lvl, t, g.absorbed);
    assert Reaches(c, t, dir, lvl - pip, lvl + pip, i + 1, g.absorbed[0]);
    forall m | 0 <= m < |levels|
      ensures lvl - pip <= levels[m] <= lvl + pip
    {
      if m > 0 {
        assert Reaches(c, t, dir, lvl - pip, lvl + pip, i + 1, g.absorbed[m - 1]);
      }
    }
    MeanInBand(levels, lvl - pip, lvl + pip);
  }

  /** Swept is the first later candle that sweeps the band, or 0 when none does. */
  lemma PoolAtSwept(c: Series, t: SwingTable, dir: Dir, pip: real, i: nat)
    requires |t| == |c| && i < |c| && t[i].Some?
    requires PoolAt(c, t, dir, pip, i).Some?
    ensures FirstSweep(c, dir, t[i].value.level - pip, t[i].value.level + pip, i + 1,
                       PoolAt(c, t, dir, pip, i).value.swept)
  {
    var lvl := t[i].value.level;
    var g := GatherAt(c, t, dir, pip, i);
    assert g == Gather(c, t, dir, lvl - pip, lvl + pip, i + 1);
    assert PoolAt(c, t, dir, pip, i).value.swept == g.swept;
    GatherSweeps(c, t, dir, lvl - pip, lvl + pip, i + 1);
  }

  /**
   The table with HighLow set to 0 at the present rows of a, one absorbed
   index after the other (lines 598, 623).
   */
  function Zeroed(t: SwingTable, a: seq<nat>): (r: SwingTable)
    ensures |r| == |t|
    decreases |a|
  {
    if a == [] then t
    else
      var r := Zeroed(t, a[..|a| - 1]);
      var k := a[|a| - 1];
      if k < |r| && r[k].Some? then r[k := Some(Swing(0, r[k].value.level))] else r
  }

  /**
   Row j after zeroing: presence and level are kept, HighLow becomes 0 when
   j is in a, and the row is untouched when it is not.
   */
  lemma {:induction false} ZeroedRow(t: SwingTable, a: seq<nat>, j: nat)
    requires j < |t|
    ensures RowZeroedOrSame(t[j], Zeroed(t, a)[j])
    ensures j !in a ==> Zeroed(t, a)[j] == t[j]
    ensures j in a && t[j].Some? ==> Zeroed(t, a)[j].value.highLow == 0
    decreases |a|
  {
    if a != [] {
      var init := a[..|a| - 1];
      assert a == init + [a[|a| - 1]];
      ZeroedRow(t, init, j);
    }
  }

  /**
   Zeroing keeps every row's presence and level, sets HighLow to 0 exactly
   at the rows of a, and leaves every other row as it was.
   */
  lemma ZeroedMeaning(t: SwingTable, a: seq<nat>)
    ensures var r := Zeroed(t, a);
              (forall j :: 0 <= j < |t| ==> (r[j].Some? <==> t[j].Some?))
              && (forall j :: 0 <= j < |t| && t[j].Some? ==>
                    r[j].value.level == t[j].value.level
                    && r[j].value.highLow == (if j in a then 0 else t[j].value.highLow))
              && (forall j :: 0 <= j < |t| && j !in a ==> r[j] == t[j])
    ensures ZeroesOnly(t, Zeroed(t, a))
  {
    forall j | 0 <= j < |t| {
      ZeroedRow(t, a, j);
    }
  }

  /** Row `after` is row `before`, or `before` with HighLow set to 0. */
  predicate RowZeroedOrSame(before: Option<Swing>, after: Option<Swing>)
  {
    (after.Some? <==> before.Some?)
    && (after.Some? ==>
          after.value.level == before.value.level
          && (after.value.highLow == before.value.highLow || after.value.highLow == 0))
  }

  /** `after` differs from `before` only by HighLow entries set to 0. */
  predicate ZeroesOnly(before: SwingTable, after: SwingTable)
  {
    |after| == |before| && forall j :: 0 <= j < |before| ==> RowZeroedOrSame(before[j], after[j])
  }

  /** The swing table and the pool column as one pass leaves them. */
  datatype PassState = PassState(table: SwingTable, pools: seq<Option<Pool>>)

  predicate Sized(s: PassState, n: nat)
  {
    |s.table| == n && |s.pools| == n
  }

  /** Row i of a pass: a swing still of the pass's kind starts a scan; a pool, if any, is written at i. */
  function PassStep(c: Series, dir: Dir, pip: real, i: nat, s: PassState): (r: PassState)
    requires i < |c| && Sized(s, |c|)
    ensures Sized(r, |c|)
    ensures !IsKind(s.table, i, KindOf(dir)) ==> r == s
  {
    if IsKind(s.table, i, KindOf(dir)) then
      var g := GatherAt(c, s.table, dir, pip, i);
      var pool := PoolAt(c, s.table, dir, pip, i);
      PassState(Zeroed(s.table, g.absorbed), if pool.Some? then s.pools[i := pool] else s.pools)
    else s
  }

  /** One row of a pass only sets HighLow entries to 0. */
  lemma StepZeroesOnly(c: Series, dir: Dir, pip: real, i: nat, s: PassState, j: nat)
    requires i < |c| && Sized(s, |c|) && j < |c|
    ensures RowZeroedOrSame(s.table[j], PassStep(c, dir, pip, i, s).table[j])
  {
    if IsKind(s.table, i, KindOf(dir)) {
      ZeroedRow(s.table, GatherAt(c, s.table, dir, pip, i).absorbed, j);
    }
  }

  /** Row i of a pass writes no pool entry but its own. */
  lemma StepKeepsOtherPools(c: Series, dir: Dir, pip: real, i: nat, s: PassState, j: nat)
    requires i < |c| && Sized(s, |c|) && j < |c| && j != i
    ensures PassStep(c, dir, pip, i, s).pools[j] == s.pools[j]
  {
  }

  /** The row step of a pass, taken as the identity outside the series. */
  function StepOf(c: Series, dir: Dir, pip: real): (nat, PassState) -> PassState
  {
    (i: nat, st: PassState) => if i < |c| && Sized(st, |c|) then PassStep(c, dir, pip, i, st) else st
  }

  /** The size invariant, as a predicate on states. */
  ghost function SizedAt(n: nat): PassState -> bool
  {
    (st: PassState) => Sized(st, n)
  }

  /** Steps that keep the state's size. */
  ghost predicate KeepsSize(step: (nat, PassState) -> PassState, n: nat)
  {
    StepKeeps(step, SizedAt(n))
  }

  /** Steps that at most set row j's HighLow to 0. */
  ghost predicate ZeroesRow(step: (nat, PassState) -> PassState, n: nat, j: nat)
    requires j < n
  {
    forall i: nat, st: PassState :: Sized(st, n) ==> Sized(step(i, st), n) && RowZeroedOrSame(st.table[j], step(i, st).table[j])
  }

  /** Steps for rows other than j that leave pool entry j alone. */
  ghost predicate KeepsPool(step: (nat, PassState) -> PassState, n: nat, j: nat)
    requires j < n
  {
    forall i: nat, st: PassState :: Sized(st, n) && i != j ==> Sized(step(i, st), n) && step(i, st).pools[j] == st.pools[j]
  }

  lemma {:induction false} FoldZeroes(step: (nat, PassState) -> PassState, n: nat, s: PassState, k1: nat, k2: nat, j: nat)
    requires j < n && k1 <= k2 && KeepsSize(step, n) && ZeroesRow(step, n, j) && Sized(s, n)
    ensures Sized(Fold(step, s, k1), n) && Sized(Fold(step, s, k2), n)
    ensures RowZeroedOrSame(Fold(step, s, k1).table[j], Fold(step, s, k2).table[j])
    decreases k2
  {
    FoldKeeps(step, SizedAt(n), s, k1);
    if k2 > k1 {
      FoldZeroes(step, n, s, k1, k2 - 1, j);
      FoldKeeps(step, SizedAt(n), s, k2 - 1);
    }
  }

  lemma {:induction false} FoldKeepsPool(step: (nat, PassState) -> PassState, n: nat, s: PassState, k1: nat, k2: nat, j: nat)
    requires j < n && k1 <= k2 && (j < k1 || k2 <= j) && KeepsSize(step, n) && KeepsPool(step, n, j) && Sized(s, n)
    ensures Sized(Fold(step, s, k1), n) && Sized(Fold(step, s, k2), n)
    ensures Fold(step, s, k2).pools[j] == Fold(step, s, k1).pools[j]
    decreases k2
  {
    FoldKeeps(step, SizedAt(n), s, k1);
    if k2 > k1 {
      FoldKeepsPool(step, n, s, k1, k2 - 1, j);
      FoldKeeps(step, SizedAt(n), s, k2 - 1);
    }
  }

  lemma StepOfKeepsSize(c: Series, dir: Dir, pip: real)
    ensures KeepsSize(StepOf(c, dir, pip), |c|)
  {
  }

  lemma StepOfZeroes(c: Series, dir: Dir, pip: real, j: nat)
    requires j < |c|
    ensures ZeroesRow(StepOf(c, dir, pip), |c|, j)
  {
    forall i: nat, st: PassState | Sized(st, |c|)
      ensures Sized(StepOf(c, dir, pip)(i, st), |c|) && RowZeroedOrSame(st.table[j], StepOf(c, dir, pip)(i, st).table[j])
    {
      if i < |c| {
        StepZeroesOnly(c, dir, pip, i, st, j);
      }
    }
  }

  lemma StepOfKeepsPools(c: Series, dir: Dir, pip: real, j: nat)
    requires j < |c|
    ensures KeepsPool(StepOf(c, dir, pip), |c|, j)
  {
    forall i: nat, st: PassState | Sized(st, |c|) && i != j
      ensures Sized(StepOf(c, dir, pip)(i, st), |c|) && StepOf(c, dir, pip)(i, st).pools[j] == st.pools[j]
    {
      if i < |c| {
        StepKeepsOtherPools(c, dir, pip, i, st, j);
      }
    }
  }

  /** The state after the first k rows of a pass. */
  function Pass(c: Series, dir: Dir, pip: real, s: PassState, k: nat): (r: PassState)
    requires k <= |c| && Sized(s, |c|)
    ensures Sized(r, |c|)
  {
    StepOfKeepsSize(c, dir, pip);
    FoldKeeps(StepOf(c, dir, pip), SizedAt(|c|), s, k);
    Fold(StepOf(c, dir, pip), s, k)
  }

  /** Row k of a pass is its row step. */
  lemma PassNext(c: Series, dir: Dir, pip: real, s: PassState, k: nat)
    requires k < |c| && Sized(s, |c|)
    ensures Pass(c, dir, pip, s, k + 1) == PassStep(c, dir, pip, k, Pass(c, dir, pip, s, k))
  {
  }

  /** Both passes: the low pass runs on the table the high pass has changed. */
  function Passes(c: Series, t: SwingTable, rangePercent: real): (r: PassState)
    requires |c| > 0 && |t| == |c|
    ensures Sized(r, |c|)
  {
    var pip := PipRange(c, rangePercent);
    var start := PassState(t, seq(|c|, _ => None));
    Pass(c, Bearish, pip, Pass(c, Bullish, pip, start, |c|), |c|)
  }

  /**
   The scan from i + 1 has looked at the candles before k (and at k when it
   stopped there): acc is what it has absorbed so far, and `whole` what it
   absorbs in all.
   */
  predicate Scanning(c: Series, t: SwingTable, dir: Dir, lo: real, hi: real, i: nat,
                     k: nat, stop: bool, acc: seq<nat>, swept: nat, whole: Gathered)
    requires |t| == |c|
  {
    i + 1 <= k <= |c|
    && whole == Gather(c, t, dir, lo, hi, i + 1)
    && (stop ==> k < |c| && acc == whole.absorbed && swept == whole.swept)
    && (!stop ==>
          acc + Gather(c, t, dir, lo, hi, k).absorbed == whole.absorbed
          && Gather(c, t, dir, lo, hi, k).swept == whole.swept && swept == 0)
    && forall m :: 0 <= m < |acc| ==> (acc[m] < k || stop) && acc[m] < |c| && t[acc[m]].Some?
  }

  /** Candle k of the scan: what joins is absorbed, and a sweep stops the scan. */
  lemma ScanAdvance(c: Series, t: SwingTable, dir: Dir, lo: real, hi: real, i: nat,
                    k: nat, acc: seq<nat>, whole: Gathered)
    requires |t| == |c| && k < |c| && Scanning(c, t, dir, lo, hi, i, k, false, acc, 0, whole)
    ensures var acc' := acc + (if Joins(t, dir, lo, hi, k) then [k] else []);
              if Sweeps(c, dir, lo, hi, k) then Scanning(c, t, dir, lo, hi, i, k, true, acc', k, whole)
              else Scanning(c, t, dir, lo, hi, i, k + 1, false, acc', 0, whole)
  {
    var here := if Joins(t, dir, lo, hi, k) then [k] else [];
    if !Sweeps(c, dir, lo, hi, k) {
      var rest := Gather(c, t, dir, lo, hi, k + 1).absorbed;
      assert acc + (here + rest) == (acc + here) + rest;
    }
  }

  /** The scan from i + 1 before it has looked at any candle. */
  lemma ScanStart(c: Series, t: SwingTable, dir: Dir, lo: real, hi: real, i: nat, level: real)
    requires |t| == |c| && i < |c|
    ensures Scanning(c, t, dir, lo, hi, i, i + 1, false, [], 0, Gather(c, t, dir, lo, hi, i + 1))
    ensures Collected(level, i, t, [], [level], i)
    ensures Zeroed(t, []) == t
  {
    assert [] + Gather(c, t, dir, lo, hi, i + 1).absorbed == Gather(c, t, dir, lo, hi, i + 1).absorbed;
  }

  /** A finished scan has absorbed all it absorbs. */
  lemma ScanDone(c: Series, t: SwingTable, dir: Dir, lo: real, hi: real, i: nat,
                 k: nat, stop: bool, acc: seq<nat>, swept: nat, whole: Gathered,
                 level: real, levels: seq<real>, end: nat)
    requires |t| == |c| && Scanning(c, t, dir, lo, hi, i, k, stop, acc, swept, whole)
    requires !stop ==> k == |c|
    requires Collected(level, i, t, acc, levels, end)
    ensures acc == whole.absorbed && swept == whole.swept
    ensures levels == PoolLevels(level, t, whole.absorbed)
    ensures end == (if whole.absorbed == [] then i else whole.absorbed[|whole.absorbed| - 1])
  {
    if !stop {
      assert acc + Gather(c, t, dir, lo, hi, k).absorbed == acc;
    }
  }

  lemma ZeroedSnoc(t: SwingTable, acc: seq<nat>, k: nat)
    requires k < |t| && t[k].Some? && k !in acc
    ensures Zeroed(t, acc + [k]) == Zeroed(t, acc)[k := Some(Swing(0, t[k].value.level))]
  {
    assert (acc + [k])[..|acc|] == acc;
    ZeroedRow(t, acc, k);
  }

  lemma PoolLevelsSnoc(first: real, t: SwingTable, acc: seq<nat>, k: nat)
    ensures PoolLevels(first, t, acc + [k]) == PoolLevels(first, t, acc) + [LevelOf(t, k)]
  {
    assert (acc + [k])[..|acc|] == acc;
  }

  /** Line 598 (623): the absorbed swing's HighLow becomes 0 in the caller's table. */
  method AbsorbOne(table: array<Option<Swing>>, ghost t0: SwingTable, ghost acc: seq<nat>, k: nat)
    requires table.Length == |t0| && k < |t0| && t0[k].Some? && k !in acc
    requires table[..] == Zeroed(t0, acc)
    modifies table
    ensures table[..] == Zeroed(t0, acc + [k])
  {
    ZeroedSnoc(t0, acc, k);
    table[k] := Some(Swing(0, table[k].value.level));
  }

  /** What the inner loop has collected so far: the levels list and the End of the pool. */
  predicate Collected(level: real, i: nat, t: SwingTable, acc: seq<nat>, levels: seq<real>, end: nat)
  {
    levels == PoolLevels(level, t, acc)
    && (|acc| == 0 ==> end == i)
    && (|acc| > 0 ==> end == acc[|acc| - 1])
  }

  /**
   One candle k of the inner loop (lines 592-599, 617-624): a swing that
   joins is absorbed (its HighLow set to 0 in the caller's table, its level
   appended, End moved to it), and a candle that sweeps stops the scan.
   */
  method ScanCandle(c: Series, table: array<Option<Swing>>, dir: Dir, lo: real, hi: real, i: nat, k: nat,
                    level: real, levels: seq<real>, end: nat, stop: bool, swept: nat,
                    ghost t0: SwingTable, ghost acc: seq<nat>, ghost whole: Gathered)
    returns (levels': seq<real>, end': nat, k': nat, stop': bool, swept': nat, ghost acc': seq<nat>)
    requires table.Length == |c| && |t0| == |c| && k < |c| && !stop
    requires Scanning(c, t0, dir, lo, hi, i, k, stop, acc, swept, whole)
    requires table[..] == Zeroed(t0, acc)
    requires Collected(level, i, t0, acc, levels, end)
    modifies table
    ensures table[..] == Zeroed(t0, acc')
    ensures Collected(level, i, t0, acc', levels', end')
    ensures stop' == Sweeps(c, dir, lo, hi, k)
    ensures if stop' then k' == k && swept' == k else k' == k + 1
    ensures Scanning(c, t0, dir, lo, hi, i, k', stop', acc', swept', whole)
  {
    assert k !in acc;
    ZeroedRow(t0, acc, k);
    assert table[k] == t0[k];
    levels' := levels;
    end' := end;
    acc' := acc;
    if table[k].Some? && table[k].value.highLow == KindOf(dir) && lo <= table[k].value.level <= hi {
      levels' := levels + [table[k].value.level];
      end' := k;
      PoolLevelsSnoc(level, t0, acc, k);
      AbsorbOne(table, t0, acc, k);
      acc' := acc + [k];
    }
    ScanAdvance(c, t0, dir, lo, hi, i, k, acc, whole);
    assert acc' == acc + (if Joins(t0, dir, lo, hi, k) then [k] else []);
    if Sweeps(c, dir, lo, hi, k) {
      k', stop', swept' := k, true, k;
    } else {
      k', stop', swept' := k + 1, false, 0;
    }
  }

  /**
   The inner loop of lines 591-599 (616-624) on the caller's table, from
   swing i with band [lo, hi]: returns the collected levels (starting with
   the swing's own), the end and the swept index.
   */
  method GatherPool(c: Series, table: array<Option<Swing>>, dir: Dir, lo: real, hi: real, i: nat, level: real)
    returns (levels: seq<real>, end: nat, swept: nat, ghost whole: Gathered)
    requires table.Length == |c| && i < |c|
    modifies table
    ensures whole == Gather(c, old(table[..]), dir, lo, hi, i + 1)
    ensures table[..] == Zeroed(old(table[..]), whole.absorbed)
    ensures levels == PoolLevels(level, old(table[..]), whole.absorbed)
    ensures end == (if whole.absorbed == [] then i else whole.absorbed[|whole.absorbed| - 1])
    ensures swept == whole.swept
  {
    ghost var t0 := table[..];
    whole := Gather(c, t0, dir, lo, hi, i + 1);
    ghost var acc: seq<nat> := [];
    levels := [level];
    end := i;
    swept := 0;
    var k := i + 1;
    var stop := false;
    ScanStart(c, t0, dir, lo, hi, i, level);
    while k < |c| && !stop
      invariant Scanning(c, t0, dir, lo, hi, i, k, stop, acc, swept, whole)
      invariant table[..] == Zeroed(t0, acc)
      invariant Collected(level, i, t0, acc, levels, end)
      decreases |c| - k + (if stop then 0 else 1)
    {
      levels, end, k, stop, swept, acc := ScanCandle(c, table, dir, lo, hi, i, k, level, levels, end, stop, swept, t0, acc, whole);
    }
    ScanDone(c, t0, dir, lo, hi, i, k, stop, acc, swept, whole, level, levels, end);
  }

  /**
   Row i of a pass when it is still a swing of the pass's kind (lines
   587-606, 612-631): scan from it, and write the pool when the scan absorbed
   at least one swing.
   */
  method PoolRow(c: Series, dir: Dir, pip: real, table: array<Option<Swing>>, pools: array<Option<Pool>>, i: nat)
    requires table.Length == |c| && pools.Length == |c| && i < |c|
    requires IsKind(table[..], i, KindOf(dir))
    modifies table, pools
    ensures PassState(table[..], pools[..]) == PassStep(c, dir, pip, i, old(PassState(table[..], pools[..])))
  {
    ghost var t := table[..];
    ghost var p := pools[..];
    var lvl := table[i].value.level;
    var levels, end, swept, g := GatherPool(c, table, dir, lvl - pip, lvl + pip, i, lvl);
    assert g == GatherAt(c, t, dir, pip, i);
    assert pools[..] == p;
    ghost var pool := PoolAt(c, t, dir, pip, i);
    if |levels| > 1 {
      assert pool == Some(Pool(dir, Mean(levels), end, swept));
      pools[i] := Some(Pool(dir, Sum(levels) / (|levels| as real), end, swept));
      assert pools[..] == p[i := pool];
    } else {
      assert pool.None?;
    }
  }

  /** One pass (lines 585-606, or 610-631) over the caller's table. */
  method RunPass(c: Series, dir: Dir, pip: real, table: array<Option<Swing>>, pools: array<Option<Pool>>)
    requires table.Length == |c| && pools.Length == |c|
    modifies table, pools
    ensures PassState(table[..], pools[..]) == Pass(c, dir, pip, old(PassState(table[..], pools[..])), |c|)
  {
    ghost var s0 := PassState(table[..], pools[..]);
    for i := 0 to |c|
      invariant PassState(table[..], pools[..]) == Pass(c, dir, pip, s0, i)
    {
      PassNext(c, dir, pip, s0, i);
      if table[i].Some? && table[i].value.highLow == KindOf(dir) {
        PoolRow(c, dir, pip, table, pools, i);
      }
    }
  }

  /**
   The whole detector. The swing table is the caller's, changed in place: at
   the end it holds the table both passes leave.
   */
  method Liquidity(c: Series, table: array<Option<Swing>>, rangePercent: real) returns (r: seq<Option<Pool>>)
    requires |c| > 0 && table.Length == |c|
    modifies table
    ensures PassState(table[..], r) == Passes(c, old(table[..]), rangePercent)
  {
    var pip := PipRange(c, rangePercent);
    var pools := new Option<Pool>[|c|](_ => None);
    assert PassState(table[..], pools[..]) == PassState(table[..], seq(|c|, _ => None));
    RunPass(c, Bullish, pip, table, pools);
    RunPass(c, Bearish, pip, table, pools);
    r := pools[..];
  }

  /** Rows k1 up to k2 of a pass only set HighLow entries to 0. */
  lemma PassZeroesBetween(c: Series, dir: Dir, pip: real, s: PassState, k1: nat, k2: nat, j: nat)
    requires k1 <= k2 <= |c| && Sized(s, |c|) && j < |c|
    ensures RowZeroedOrSame(Pass(c, dir, pip, s, k1).table[j], Pass(c, dir, pip, s, k2).table[j])
  {
    StepOfKeepsSize(c, dir, pip);
    StepOfZeroes(c, dir, pip, j);
    FoldZeroes(StepOf(c, dir, pip), |c|, s, k1, k2, j);
  }

  /** A pass only sets HighLow entries to 0: rows stay present and keep their levels. */
  lemma PassOnlyZeroes(c: Series, dir: Dir, pip: real, s: PassState, k: nat, j: nat)
    requires k <= |c| && Sized(s, |c|) && j < |c|
    ensures RowZeroedOrSame(s.table[j], Pass(c, dir, pip, s, k).table[j])
  {
    PassZeroesBetween(c, dir, pip, s, 0, k, j);
  }

  /** An absorbed swing (HighLow 0) stays absorbed for the rest of the pass. */
  lemma AbsorbedStays(c: Series, dir: Dir, pip: real, s: PassState, k1: nat, k2: nat, j: nat)
    requires k1 <= k2 <= |c| && Sized(s, |c|) && j < |c|
    requires IsKind(Pass(c, dir, pip, s, k1).table, j, 0)
    ensures IsKind(Pass(c, dir, pip, s, k2).table, j, 0)
  {
    PassZeroesBetween(c, dir, pip, s, k1, k2, j);
  }

  /** Rows from k1 up to k2, all other than j, do not write pool j. */
  lemma PoolUntouched(c: Series, dir: Dir, pip: real, s: PassState, k1: nat, k2: nat, j: nat)
    requires k1 <= k2 <= |c| && Sized(s, |c|) && j < |c| && (j < k1 || k2 <= j)
    ensures Pass(c, dir, pip, s, k2).pools[j] == Pass(c, dir, pip, s, k1).pools[j]
  {
    StepOfKeepsSize(c, dir, pip);
    StepOfKeepsPools(c, dir, pip, j);
    FoldKeepsPool(StepOf(c, dir, pip), |c|, s, k1, k2, j);
  }

  /**
   A swing absorbed before its own row is reached never starts a pool: the
   pass leaves its pool entry as it found it.
   */
  lemma AbsorbedStartsNoPool(c: Series, dir: Dir, pip: real, s: PassState, k: nat, j: nat)
    requires k <= j < |c| && Sized(s, |c|)
    requires IsKind(Pass(c, dir, pip, s, k).table, j, 0)
    ensures Pass(c, dir, pip, s, |c|).pools[j] == s.pools[j]
  {
    PoolUntouched(c, dir, pip, s, 0, j, j);
    AbsorbedStays(c, dir, pip, s, k, j, j);
    PassNext(c, dir, pip, s, j);
    PoolUntouched(c, dir, pip, s, j + 1, |c|, j);
  }

  /** An absorbed swing never joins a later scan of the pass: its HighLow is no longer the pass's kind. */
  lemma AbsorbedNeverJoins(c: Series, dir: Dir, pip: real, s: PassState, k1: nat, k2: nat, j: nat, lo: real, hi: real)
    requires k1 <= k2 <= |c| && Sized(s, |c|) && j < |c|
    requires IsKind(Pass(c, dir, pip, s, k1).table, j, 0)
    ensures !Joins(Pass(c, dir, pip, s, k2).table, dir, lo, hi, j)
  {
    AbsorbedStays(c, dir, pip, s, k1, k2, j);
  }

  /**
   The pool column at row i after a pass: the pool that starts at i on the
   table as the pass finds it when it reaches row i, when i is still a swing
   of the pass's kind and its scan absorbs something; otherwise the entry the
   pass started with.
   */
  lemma PoolWritten(c: Series, dir: Dir, pip: real, s: PassState, i: nat)
    requires i < |c| && Sized(s, |c|)
    ensures var t := Pass(c, dir, pip, s, i).table;
              Pass(c, dir, pip, s, |c|).pools[i]
              == if IsKind(t, i, KindOf(dir)) && PoolAt(c, t, dir, pip, i).Some? then PoolAt(c, t, dir, pip, i)
                 else s.pools[i]
  {
    PoolUntouched(c, dir, pip, s, 0, i, i);
    PassNext(c, dir, pip, s, i);
    PoolUntouched(c, dir, pip, s, i + 1, |c|, i);
  }
}
