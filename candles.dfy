/**
 The vocabulary shared by the five detectors of `smc`: the candle series, the
 swing table handed from `swing_highs_lows` to the other detectors, optional
 values, first-match search, window extrema and the ordered list of marked
 positions (what `np.where(~np.isnan(x))[0]` yields).
 */
module Candles {

  datatype Option<T> = None | Some(value: T)

  /** One OHLCV row; prices and volume are exact reals. */
  datatype Candle = Candle(open: real, high: real, low: real, close: real, volume: real)

  type Series = seq<Candle>

  datatype Dir = Bullish | Bearish

  /** The HighLow (or OB, or Liquidity) value of a direction. */
  function KindOf(dir: Dir): int
  {
    if dir == Bullish then 1 else -1
  }

  /**
   One present row of the swing table: HighLow is 1 for a swing high, -1 for a
   swing low, and 0 once `liquidity` has absorbed the swing into a pool.
   An absent row (NaN in both columns) is `None`.
   */
  datatype Swing = Swing(highLow: int, level: real)

  type SwingTable = seq<Option<Swing>>

  predicate IsKind(t: SwingTable, j: nat, kind: int)
    requires j < |t|
  {
    t[j].Some? && t[j].value.highLow == kind
  }

  function Min(a: real, b: real): real { if a <= b then a else b }

  function Max(a: real, b: real): real { if a >= b then a else b }

  /** Conversion of a real to an integer column: truncation toward zero. */
  function Trunc(x: real): (r: int)
    ensures 0.0 <= x ==> 0 <= r && r as real <= x < r as real + 1.0
    ensures x <= 0.0 ==> r <= 0 && r as real - 1.0 < x <= r as real
  {
    if x >= 0.0 then x.Floor else -((-x).Floor)
  }

  function OrZero(o: Option<nat>): nat
  {
    if o.Some? then o.value else 0
  }

  /** The least index in [lo, hi) that satisfies p, if any (`np.argmax` of a mask guarded by `np.any`). */
  function FirstFrom(p: nat -> bool, lo: nat, hi: nat): (r: Option<nat>)
    ensures r.Some? ==> lo <= r.value < hi && p(r.value)
    ensures r.Some? ==> forall j :: lo <= j < r.value ==> !p(j)
    ensures r.None? ==> forall j :: lo <= j < hi ==> !p(j)
    decreases hi - lo
  {
    if lo >= hi then None
    else if p(lo) then Some(lo)
    else FirstFrom(p, lo + 1, hi)
  }

  /** max(high[lo..hi)) */
  function MaxHigh(c: Series, lo: nat, hi: nat): (m: real)
    requires lo < hi <= |c|
    ensures forall k :: lo <= k < hi ==> c[k].high <= m
    ensures exists k :: lo <= k < hi && c[k].high == m
    decreases hi
  {
    if hi == lo + 1 then c[lo].high else Max(MaxHigh(c, lo, hi - 1), c[hi - 1].high)
  }

  /** min(low[lo..hi)) */
  function MinLow(c: Series, lo: nat, hi: nat): (m: real)
    requires lo < hi <= |c|
    ensures forall k :: lo <= k < hi ==> m <= c[k].low
    ensures exists k :: lo <= k < hi && c[k].low == m
    decreases hi
  {
    if hi == lo + 1 then c[lo].low else Min(MinLow(c, lo, hi - 1), c[hi - 1].low)
  }

  /**
   The increasing list of indices whose entry is not `absent`, built the way
   the detectors build it: by appending each index as the scan reaches it.
   */
  function Positions<T(==)>(s: seq<T>, absent: T): (p: seq<nat>)
    ensures forall k :: 0 <= k < |p| ==> p[k] < |s| && s[p[k]] != absent
    ensures forall j {:trigger j in p} :: 0 <= j < |s| && s[j] != absent ==> j in p
    decreases |s|
  {
    if s == [] then []
    else
      var init := s[..|s| - 1];
      assert forall j :: 0 <= j < |init| ==> init[j] == s[j];
      Positions(init, absent) + (if s[|s| - 1] != absent then [|s| - 1] else [])
  }

  /**
   A step applied to indices 0, 1, ..., k - 1 in order: the shape of the
   per-candle `for` loops whose state several detectors carry from one
   index to the next.
   */
  function Fold<S>(step: (nat, S) -> S, s: S, k: nat): S
    decreases k
  {
    if k == 0 then s else step(k - 1, Fold(step, s, k - 1))
  }

  /** Steps that preserve an invariant of the carried state. */
  ghost predicate StepKeeps<S(!new)>(step: (nat, S) -> S, inv: S -> bool)
  {
    forall i: nat, st: S :: inv(st) ==> inv(step(i, st))
  }

  /** An invariant every step preserves holds after any number of steps. */
  lemma {:induction false} FoldKeeps<S(!new)>(step: (nat, S) -> S, inv: S -> bool, s: S, k: nat)
    requires StepKeeps(step, inv) && inv(s)
    ensures inv(Fold(step, s, k))
    decreases k
  {
    if k > 0 {
      FoldKeeps(step, inv, s, k - 1);
    }
  }

  /** Strictly increasing indices. */
  predicate Increasing(p: seq<nat>)
  {
    forall k, m :: 0 <= k < m < |p| ==> p[k] < p[m]
  }

  /** The positions are listed in increasing order. */
  lemma {:induction false} PositionsIncreasing<T>(s: seq<T>, absent: T)
    ensures Increasing(Positions(s, absent))
    decreases |s|
  {
    if s != [] {
      var init := s[..|s| - 1];
      PositionsIncreasing(init, absent);
      var p0 := Positions(init, absent);
      var p := Positions(s, absent);
      assert p == p0 + (if s[|s| - 1] != absent then [|s| - 1] else []);
      forall k, m | 0 <= k < m < |p|
        ensures p[k] < p[m]
      {
        assert p[k] == p0[k] && p0[k] < |init|;
        if m < |p0| {
          assert p[m] == p0[m] && p0[k] < p0[m];
        } else {
          assert p[m] == |s| - 1;
        }
      }
    }
  }

  /** Extending the scan by one index appends that index when it is marked. */
  lemma PositionsPrefix<T>(s: seq<T>, absent: T, i: nat)
    requires i < |s|
    ensures Positions(s[..i + 1], absent) == Positions(s[..i], absent) + (if s[i] != absent then [i] else [])
  {
    assert s[..i + 1][..i] == s[..i];
  }

  /** Two sequences marked at the same indices have the same positions. */
  lemma {:induction false} PositionsSame<T, U>(s: seq<T>, a: T, u: seq<U>, b: U)
    requires |s| == |u|
    requires forall j :: 0 <= j < |s| ==> (s[j] != a <==> u[j] != b)
    ensures Positions(s, a) == Positions(u, b)
    decreases |s|
  {
    if s != [] {
      PositionsSame(s[..|s| - 1], a, u[..|u| - 1], b);
    }
  }

  /** Marking the first entry, when it was unmarked, puts index 0 in front. */
  lemma {:induction false} PositionsMarkFirst<T>(s: seq<T>, absent: T, v: T)
    requires |s| > 0 && s[0] == absent && v != absent
    ensures Positions(s[0 := v], absent) == [0] + Positions(s, absent)
    decreases |s|
  {
    var n := |s|;
    var s' := s[0 := v];
    if n == 1 {
      assert s'[..0] == [];
      assert s[..0] == [];
    } else {
      var init := s[..n - 1];
      var init' := s'[..n - 1];
      assert init' == init[0 := v];
      PositionsMarkFirst(init, absent, v);
      var tail := if s[n - 1] != absent then [n - 1] else [];
      calc {
        Positions(s', absent);
        Positions(init', absent) + tail;
        [0] + Positions(init, absent) + tail;
        [0] + (Positions(init, absent) + tail);
        [0] + Positions(s, absent);
      }
    }
  }

  /** Marking the last entry, when it was unmarked, appends index |s|-1. */
  lemma PositionsMarkLast<T>(s: seq<T>, absent: T, v: T)
    requires |s| > 0 && s[|s| - 1] == absent && v != absent
    ensures Positions(s[|s| - 1 := v], absent) == Positions(s, absent) + [|s| - 1]
  {
    assert s[|s| - 1 := v][..|s| - 1] == s[..|s| - 1];
  }

  /** A marked entry makes the positions nonempty. */
  lemma PositionsNonEmpty<T>(s: seq<T>, absent: T, j: nat)
    requires j < |s| && s[j] != absent
    ensures |Positions(s, absent)| > 0
  {
    assert j in Positions(s, absent);
  }
}
