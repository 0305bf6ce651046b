/**
 `smc.ob`: order blocks. Two passes over the candles, bullish then bearish,
 share one set of columns. At every close index a pass first invalidates its
 live zones (a first crossing flags the zone as a breaker, a crossing back
 after that deletes it) and then, if the close crosses the latest swing of
 its kind for the first time, forms a zone at the extreme candle between that
 swing and the close.

 The columns OB, Top, Bottom, OBVolume, lowVolume, highVolume, Percentage and
 MitigatedIndex, which the source keeps as parallel arrays and writes
 together, are one array of `Zone` records here; `breaker` and `crossed` stay
 arrays of their own.
 */
module OrderBlocks {
  import opened Candles

  /** One row of the zone columns; `kind` is the OB column (1, -1, or 0 for none). */
  datatype Zone = Zone(kind: int, top: real, bottom: real, obVolume: real,
                       lowVolume: real, highVolume: real, percentage: Option<int>,
                       mitigatedIndex: int)

  /** A row with every column zero: the initial value and what a deletion leaves. */
  const EmptyZone := Zone(0, 0.0, 0.0, 0.0, 0.0, 0.0, Some(0), 0)

  /** One row of the zone columns together with its breaker flag. */
  datatype Cell = Cell(zone: Zone, breaker: bool)

  /** The columns the two passes share. */
  datatype State = State(zones: seq<Zone>, breaker: seq<bool>, crossed: seq<bool>)

  /** The extreme candle between a swing and the close that crosses it. */
  datatype Anchor = Anchor(index: nat, top: real, bottom: real)

  /** A reported order block. */
  datatype OrderBlock = OrderBlock(dir: Dir, top: real, bottom: real, obVolume: real,
                                   mitigatedIndex: int, percentage: Option<int>)

  predicate Sized(s: State, n: nat)
  {
    |s.zones| == n && |s.breaker| == n && |s.crossed| == n
  }

  /** After a first crossing, the candle at ci trades back through the far side of the zone. */
  predicate Retakes(c: Series, dir: Dir, ci: nat, z: Zone)
    requires ci < |c|
  {
    if dir == Bullish then c[ci].high > z.top else c[ci].low < z.bottom
  }

  /** The candle at ci crosses the zone: by its wick, or by its body under close mitigation. */
  predicate Penetrates(c: Series, closeMitigation: bool, dir: Dir, ci: nat, z: Zone)
    requires ci < |c|
  {
    if dir == Bullish then
      (if closeMitigation then Min(c[ci].open, c[ci].close) else c[ci].low) < z.bottom
    else
      (if closeMitigation then Max(c[ci].open, c[ci].close) else c[ci].high) > z.top
  }

  /**
   The invalidation of one row at close index ci (lines 393-417 and 465-489):
   only live zones of the pass's own kind are looked at; a breaker that is
   retaken is deleted, any other zone that is crossed becomes a breaker.
   */
  function InvalidateRow(c: Series, closeMitigation: bool, dir: Dir, ci: nat, z: Zone, b: bool): (r: Cell)
    requires ci < |c|
    ensures z.kind != KindOf(dir) ==> r == Cell(z, b)
    ensures b ==> r.breaker
    ensures (r.zone == EmptyZone && z != EmptyZone) <==> z.kind == KindOf(dir) && b && Retakes(c, dir, ci, z)
    ensures r.zone != EmptyZone ==> r.zone.kind == z.kind && r.zone.top == z.top && r.zone.bottom == z.bottom
    ensures (r.breaker && !b) <==> z.kind == KindOf(dir) && !b && Penetrates(c, closeMitigation, dir, ci, z)
    ensures r.breaker && !b ==> r.zone == z.(mitigatedIndex := if dir == Bullish then ci - 1 else ci)
    ensures r.zone != EmptyZone && !(r.breaker && !b) ==> r.zone == z
  {
    if z.kind != KindOf(dir) then Cell(z, b)
    else if b then (if Retakes(c, dir, ci, z) then Cell(EmptyZone, b) else Cell(z, b))
    else if Penetrates(c, closeMitigation, dir, ci, z) then
      Cell(z.(mitigatedIndex := if dir == Bullish then ci - 1 else ci), true)
    else Cell(z, b)
  }

  /** Every row invalidated at close index ci; `crossed` is not touched. */
  function Invalidate(c: Series, closeMitigation: bool, dir: Dir, ci: nat, s: State): (r: State)
    requires ci < |c| && Sized(s, |c|)
    ensures Sized(r, |c|) && r.crossed == s.crossed
    ensures forall j :: 0 <= j < |c| ==>
              Cell(r.zones[j], r.breaker[j]) == InvalidateRow(c, closeMitigation, dir, ci, s.zones[j], s.breaker[j])
  {
    State(seq(|c|, j requires 0 <= j < |c| => InvalidateRow(c, closeMitigation, dir, ci, s.zones[j], s.breaker[j]).zone),
          seq(|c|, j requires 0 <= j < |c| => InvalidateRow(c, closeMitigation, dir, ci, s.zones[j], s.breaker[j]).breaker),
          s.crossed)
  }

  /** The descending loop over the rows of lines 393-417 (465-489 for the bearish pass). */
  method InvalidateAll(c: Series, closeMitigation: bool, dir: Dir, ci: nat,
                       zones: array<Zone>, breaker: array<bool>)
    requires ci < |c| && zones.Length == |c| && breaker.Length == |c|
    modifies zones, breaker
    ensures forall j :: 0 <= j < |c| ==>
              Cell(zones[j], breaker[j]) == InvalidateRow(c, closeMitigation, dir, ci, old(zones[j]), old(breaker[j]))
  {
    var j := |c|;
    while j > 0
      invariant 0 <= j <= |c|
      invariant forall k :: j <= k < |c| ==>
                  Cell(zones[k], breaker[k]) == InvalidateRow(c, closeMitigation, dir, ci, old(zones[k]), old(breaker[k]))
      invariant forall k :: 0 <= k < j ==> zones[k] == old(zones[k]) && breaker[k] == old(breaker[k])
    {
      j := j - 1;
      if zones[j].kind == KindOf(dir) {
        if breaker[j] {
          if Retakes(c, dir, ci, zones[j]) {
            zones[j] := EmptyZone;
          }
        } else if Penetrates(c, closeMitigation, dir, ci, zones[j]) {
          breaker[j] := true;
          zones[j] := zones[j].(mitigatedIndex := if dir == Bullish then ci - 1 else ci);
        }
      }
    }
  }

  /** The greatest swing of the given kind before ci. */
  function LastSwing(t: SwingTable, kind: int, ci: nat): (r: Option<nat>)
    ensures r.Some? ==> r.value < ci && r.value < |t| && IsKind(t, r.value, kind)
    ensures r.Some? ==> forall k :: r.value < k < ci && k < |t| ==> !IsKind(t, k, kind)
    ensures r.None? ==> forall k :: 0 <= k < ci && k < |t| ==> !IsKind(t, k, kind)
  {
    var hi := if ci < |t| then ci else |t|;
    LastSwingBelow(t, kind, hi)
  }

  function LastSwingBelow(t: SwingTable, kind: int, hi: nat): (r: Option<nat>)
    requires hi <= |t|
    ensures r.Some? ==> r.value < hi && IsKind(t, r.value, kind)
    ensures r.Some? ==> forall k :: r.value < k < hi ==> !IsKind(t, k, kind)
    ensures r.None? ==> forall k :: 0 <= k < hi ==> !IsKind(t, k, kind)
  {
    if hi == 0 then None
    else if IsKind(t, hi - 1, kind) then Some(hi - 1)
    else LastSwingBelow(t, kind, hi - 1)
  }

  /** The forward scan of lines 418-421 (490-493) that keeps the last match. */
  method LastSwingBefore(t: SwingTable, kind: int, ci: nat) returns (r: Option<nat>)
    ensures r == LastSwing(t, kind, ci)
  {
    r := None;
    for j := 0 to |t|
      invariant r == LastSwingBelow(t, kind, if j < ci then j else ci)
    {
      if IsKind(t, j, kind) && j < ci {
        r := Some(j);
      }
    }
  }

  /** The close at ci crosses the swing s: above its high (bullish) or below its low (bearish). */
  predicate Triggers(c: Series, dir: Dir, ci: nat, s: nat)
    requires ci < |c| && s < |c|
  {
    if dir == Bullish then c[ci].close > c[s].high else c[ci].close < c[s].low
  }

  /** The swing a pass forms a zone from at ci, given the crossed flags (lines 422-424, 494-496). */
  function FormingSwing(c: Series, t: SwingTable, dir: Dir, ci: nat, crossed: seq<bool>): (r: Option<nat>)
    requires |t| == |c| && |crossed| == |c| && ci < |c|
    ensures r.Some? ==> r == LastSwing(t, KindOf(dir), ci) && Triggers(c, dir, ci, r.value) && !crossed[r.value]
    ensures r.None? ==> (LastSwing(t, KindOf(dir), ci).None?
                         || !Triggers(c, dir, ci, LastSwing(t, KindOf(dir), ci).value)
                         || crossed[LastSwing(t, KindOf(dir), ci).value])
  {
    var s := LastSwing(t, KindOf(dir), ci);
    if s.Some? && Triggers(c, dir, ci, s.value) && !crossed[s.value] then s else None
  }

  /** The last index in [lo, hi) whose low is the minimum low of that range. */
  function LastMinLow(c: Series, lo: nat, hi: nat): (k: nat)
    requires lo < hi <= |c|
    ensures lo <= k < hi && c[k].low == MinLow(c, lo, hi)
    ensures forall m :: k < m < hi ==> c[m].low > c[k].low
    decreases hi
  {
    if c[hi - 1].low == MinLow(c, lo, hi) then hi - 1 else LastMinLow(c, lo, hi - 1)
  }

  /** The last index in [lo, hi) whose high is the maximum high of that range. */
  function LastMaxHigh(c: Series, lo: nat, hi: nat): (k: nat)
    requires lo < hi <= |c|
    ensures lo <= k < hi && c[k].high == MaxHigh(c, lo, hi)
    ensures forall m :: k < m < hi ==> c[m].high < c[k].high
    decreases hi
  {
    if c[hi - 1].high == MaxHigh(c, lo, hi) then hi - 1 else LastMaxHigh(c, lo, hi - 1)
  }

  /**
   The bullish anchor for swing s and close ci. The search of lines 428-442
   starts from candle ci-1 with Bottom its high and Top its low, and moves to
   every candle of (s, ci) whose low reaches the running minimum.
   */
  function BullishAnchorOf(c: Series, s: nat, ci: nat): (a: Anchor)
    requires s < ci < |c|
    ensures a.index < ci && (a.index == ci - 1 || s < a.index)
  {
    if ci == s + 1 || c[ci - 1].high < MinLow(c, s + 1, ci) then Anchor(ci - 1, c[ci - 1].low, c[ci - 1].high)
    else var k := LastMinLow(c, s + 1, ci); Anchor(k, c[k].high, c[k].low)
  }

  /**
   The bearish anchor: the search of lines 500-514 starts from candle ci-1
   and moves to every candle of (s, ci) whose high reaches the running maximum.
   */
  function BearishAnchorOf(c: Series, s: nat, ci: nat): (a: Anchor)
    requires s < ci < |c|
    ensures a.index < ci && (a.index == ci - 1 || s < a.index)
  {
    if ci == s + 1 then Anchor(ci - 1, c[ci - 1].high, c[ci - 1].low)
    else var k := LastMaxHigh(c, s + 1, ci); Anchor(k, c[k].high, c[k].low)
  }

  function AnchorOf(c: Series, dir: Dir, s: nat, ci: nat): (a: Anchor)
    requires s < ci < |c|
    ensures a.index < ci && (a.index == ci - 1 || s < a.index)
  {
    if dir == Bullish then BullishAnchorOf(c, s, ci) else BearishAnchorOf(c, s, ci)
  }

  /**
   With a candle between the swing and the close, and a well-formed candle
   before the close, the bullish anchor is the last candle of the window with
   the lowest low, and the zone spans that candle.
   */
  lemma BullishAnchorIsLastMinimum(c: Series, s: nat, ci: nat)
    requires s + 1 < ci < |c| && c[ci - 1].low <= c[ci - 1].high
    ensures var a := BullishAnchorOf(c, s, ci);
              s < a.index < ci && c[a.index].low == MinLow(c, s + 1, ci)
              && (forall k :: a.index < k < ci ==> c[k].low > c[a.index].low)
              && a.top == c[a.index].high && a.bottom == c[a.index].low
  {
    assert MinLow(c, s + 1, ci) <= c[ci - 1].low;
  }

  /** With a candle between the swing and the close, the bearish anchor is the last candle with the highest high. */
  lemma BearishAnchorIsLastMaximum(c: Series, s: nat, ci: nat)
    requires s + 1 < ci < |c|
    ensures var a := BearishAnchorOf(c, s, ci);
              s < a.index < ci && c[a.index].high == MaxHigh(c, s + 1, ci)
              && (forall k :: a.index < k < ci ==> c[k].high < c[a.index].high)
              && a.top == c[a.index].high && a.bottom == c[a.index].low
  {
  }

  /** The loop of lines 428-442. */
  method BullishAnchor(c: Series, s: nat, ci: nat) returns (a: Anchor)
    requires s < ci < |c|
    ensures a == BullishAnchorOf(c, s, ci)
  {
    var btm := c[ci - 1].high;
    var top := c[ci - 1].low;
    var idx := ci - 1;
    for j := 1 to ci - s
      invariant j == 1 ==> btm == c[ci - 1].high && idx == ci - 1 && top == c[ci - 1].low
      invariant j > 1 ==> btm == Min(c[ci - 1].high, MinLow(c, s + 1, s + j))
      invariant j > 1 && c[ci - 1].high < MinLow(c, s + 1, s + j) ==> idx == ci - 1 && top == c[ci - 1].low
      invariant j > 1 && !(c[ci - 1].high < MinLow(c, s + 1, s + j)) ==>
                  idx == LastMinLow(c, s + 1, s + j) && top == c[idx].high && btm == c[idx].low
    {
      var k := s + j;
      btm := Min(c[k].low, btm);
      if btm == c[k].low {
        top := c[k].high;
      }
      idx := if btm == c[k].low then k else idx;
    }
    a := Anchor(idx, top, btm);
  }

  /** The loop of lines 500-514. */
  method BearishAnchor(c: Series, s: nat, ci: nat) returns (a: Anchor)
    requires s < ci < |c|
    ensures a == BearishAnchorOf(c, s, ci)
  {
    var btm := c[ci - 1].low;
    var top := c[ci - 1].high;
    var idx := ci - 1;
    for j := 1 to ci - s
      invariant j == 1 ==> top == c[ci - 1].high && idx == ci - 1 && btm == c[ci - 1].low
      invariant j > 1 ==> top == Max(c[ci - 1].high, MaxHigh(c, s + 1, s + j))
      invariant j > 1 && MaxHigh(c, s + 1, s + j) < c[ci - 1].high ==> idx == ci - 1 && btm == c[ci - 1].low
      invariant j > 1 && !(MaxHigh(c, s + 1, s + j) < c[ci - 1].high) ==>
                  idx == LastMaxHigh(c, s + 1, s + j) && top == c[idx].high && btm == c[idx].low
    {
      var k := s + j;
      top := Max(c[k].high, top);
      btm := if top == c[k].high then c[k].low else btm;
      idx := if top == c[k].high then k else idx;
    }
    assert ci - s > 1 ==> MaxHigh(c, s + 1, ci) >= c[ci - 1].high;
    a := Anchor(idx, top, btm);
  }

  /** `volume.iloc[k]`: a negative k counts from the end of the series. */
  function Vol(c: Series, k: int): real
    requires -|c| <= k < |c|
  {
    if k >= 0 then c[k].volume else c[|c| + k].volume
  }

  /** A ratio of a nonnegative value to a larger positive one lies in [0, 1]. */
  lemma RatioBound(mn: real, mx: real)
    requires 0.0 <= mn <= mx && 0.0 < mx
    ensures 0.0 <= mn / mx <= 1.0
  {
    var q := mn / mx;
    assert q * mx == mn;
  }

  lemma DivSelf(x: real)
    requires x != 0.0
    ensures x / x == 1.0
  {
  }

  /**
   Percentage of lines 455-458 (527-530): the smaller aggregate as a
   percentage of the larger, converted to an integer by truncation; None where
   the larger aggregate is 0 and the division has no finite value.
   */
  function Percentage(highVolume: real, lowVolume: real): (p: Option<int>)
    ensures p.None? <==> Max(highVolume, lowVolume) == 0.0
    ensures p.Some? && 0.0 <= highVolume && 0.0 <= lowVolume ==> 0 <= p.value <= 100
    ensures p.Some? && 0.0 <= highVolume && 0.0 <= lowVolume && highVolume == lowVolume ==> p.value == 100
  {
    var mx := Max(highVolume, lowVolume);
    var mn := Min(highVolume, lowVolume);
    if mx == 0.0 then None
    else
      var ratio := mn / mx * 100.0;
      assert 0.0 <= mn ==> 0.0 <= ratio <= 100.0 by {
        if 0.0 <= mn {
          RatioBound(mn, mx);
        }
      }
      assert mn == mx ==> ratio == 100.0 by {
        if mn == mx {
          DivSelf(mx);
        }
      }
      Some(Trunc(ratio))
  }

  /**
   The row a formation writes at the anchor (lines 444-458, 516-530). The
   volumes are those of the close and the two candles before it; the
   mitigation index of the row is left as it was.
   */
  function NewZone(c: Series, dir: Dir, ci: nat, a: Anchor, prev: Zone): (z: Zone)
    requires 1 <= ci < |c|
    ensures z.kind == KindOf(dir) && z.top == a.top && z.bottom == a.bottom
    ensures z.obVolume == Vol(c, ci) + Vol(c, ci - 1) + Vol(c, ci - 2)
    ensures dir == Bullish ==> z.lowVolume == Vol(c, ci - 2) && z.highVolume == Vol(c, ci) + Vol(c, ci - 1)
    ensures dir == Bearish ==> z.highVolume == Vol(c, ci - 2) && z.lowVolume == Vol(c, ci) + Vol(c, ci - 1)
    ensures z.mitigatedIndex == prev.mitigatedIndex
    ensures z.percentage == Percentage(Vol(c, ci) + Vol(c, ci - 1), Vol(c, ci - 2))
  {
    var recent := Vol(c, ci) + Vol(c, ci - 1);
    var earlier := Vol(c, ci - 2);
    var lowV := if dir == Bullish then earlier else recent;
    var highV := if dir == Bullish then recent else earlier;
    Zone(KindOf(dir), a.top, a.bottom, recent + earlier, lowV, highV, Percentage(highV, lowV), prev.mitigatedIndex)
  }

  /**
   Formation at close index ci (lines 418-458 and 490-530): when the close
   crosses the latest swing of the pass's kind for the first time, the swing
   is marked crossed and the anchor row takes the new zone.
   */
  function Form(c: Series, t: SwingTable, dir: Dir, ci: nat, s: State): (r: State)
    requires |t| == |c| && ci < |c| && Sized(s, |c|)
    ensures Sized(r, |c|) && r.breaker == s.breaker
    ensures FormingSwing(c, t, dir, ci, s.crossed).None? ==> r == s
    ensures var f := FormingSwing(c, t, dir, ci, s.crossed);
              f.Some? ==> r.crossed == s.crossed[f.value := true]
    ensures var f := FormingSwing(c, t, dir, ci, s.crossed);
              f.Some? ==> var a := AnchorOf(c, dir, f.value, ci);
                          r.zones[a.index] == NewZone(c, dir, ci, a, s.zones[a.index])
    ensures forall j :: 0 <= j < |c| && r.zones[j] != s.zones[j] ==>
              var f := FormingSwing(c, t, dir, ci, s.crossed);
              f.Some? && j == AnchorOf(c, dir, f.value, ci).index
              && f.value <= j < ci && r.zones[j].kind == KindOf(dir)
  {
    var f := FormingSwing(c, t, dir, ci, s.crossed);
    if f.None? then s
    else
      var x := f.value;
      var a := AnchorOf(c, dir, x, ci);
      State(s.zones[a.index := NewZone(c, dir, ci, a, s.zones[a.index])], s.breaker, s.crossed[x := true])
  }

  /** The search and the writes of lines 418-458 (490-530). */
  method FormZone(c: Series, t: SwingTable, dir: Dir, ci: nat,
                  zones: array<Zone>, breaker: array<bool>, crossed: array<bool>)
    requires |t| == |c| && ci < |c|
    requires zones.Length == |c| && breaker.Length == |c| && crossed.Length == |c| && breaker != crossed
    modifies zones, crossed
    ensures State(zones[..], breaker[..], crossed[..])
              == Form(c, t, dir, ci, old(State(zones[..], breaker[..], crossed[..])))
  {
    ghost var s := State(zones[..], breaker[..], crossed[..]);
    var last := LastSwingBefore(t, KindOf(dir), ci);
    if last.Some? {
      var x := last.value;
      if Triggers(c, dir, ci, x) && !crossed[x] {
        crossed[x] := true;
        var a;
        if dir == Bullish {
          a := BullishAnchor(c, x, ci);
        } else {
          a := BearishAnchor(c, x, ci);
        }
        zones[a.index] := NewZone(c, dir, ci, a, zones[a.index]);
        assert zones[..] == s.zones[a.index := NewZone(c, dir, ci, a, s.zones[a.index])];
        assert crossed[..] == s.crossed[x := true];
      }
    }
  }

  /** One close index of a pass: invalidation, then formation. */
  function Step(c: Series, t: SwingTable, closeMitigation: bool, dir: Dir, ci: nat, s: State): (r: State)
    requires |t| == |c| && ci < |c| && Sized(s, |c|)
    ensures Sized(r, |c|)
  {
    Form(c, t, dir, ci, Invalidate(c, closeMitigation, dir, ci, s))
  }

  /** The step of a pass, taken as the identity outside the series. */
  function StepOf(c: Series, t: SwingTable, closeMitigation: bool, dir: Dir): (nat, State) -> State
  {
    (ci: nat, st: State) =>
      if |t| == |c| && ci < |c| && Sized(st, |c|) then Step(c, t, closeMitigation, dir, ci, st) else st
  }

  /** The size invariant, as a predicate on states. */
  ghost function SizedAt(n: nat): State -> bool
  {
    (st: State) => Sized(st, n)
  }

  /** Steps that keep the state's size. */
  ghost predicate KeepsSize(step: (nat, State) -> State, n: nat)
  {
    StepKeeps(step, SizedAt(n))
  }

  /** Steps that never clear the crossed or the breaker flag of row j. */
  ghost predicate KeepsFlags(step: (nat, State) -> State, n: nat, j: nat)
    requires j < n
  {
    forall i: nat, st: State :: Sized(st, n) ==>
      Sized(step(i, st), n)
      && (st.crossed[j] ==> step(i, st).crossed[j])
      && (st.breaker[j] ==> step(i, st).breaker[j])
  }

  /** Steps after which a zone of the given kind in row j is the zone the row held before. */
  ghost predicate KeepsKind(step: (nat, State) -> State, n: nat, j: nat, kind: int)
    requires j < n
  {
    forall i: nat, st: State :: Sized(st, n) ==>
      Sized(step(i, st), n) && (step(i, st).zones[j].kind == kind ==> step(i, st).zones[j] == st.zones[j])
  }

  lemma {:induction false} FoldKeepsFlags(step: (nat, State) -> State, n: nat, s: State, k1: nat, k2: nat, j: nat)
    requires j < n && k1 <= k2 && KeepsSize(step, n) && KeepsFlags(step, n, j) && Sized(s, n)
    ensures Sized(Fold(step, s, k1), n) && Sized(Fold(step, s, k2), n)
    ensures Fold(step, s, k1).crossed[j] ==> Fold(step, s, k2).crossed[j]
    ensures Fold(step, s, k1).breaker[j] ==> Fold(step, s, k2).breaker[j]
    decreases k2
  {
    FoldKeeps(step, SizedAt(n), s, k1);
    if k2 > k1 {
      FoldKeepsFlags(step, n, s, k1, k2 - 1, j);
      FoldKeeps(step, SizedAt(n), s, k2 - 1);
    }
  }

  lemma {:induction false} FoldKeepsKind(step: (nat, State) -> State, n: nat, s: State, k: nat, j: nat, kind: int)
    requires j < n && KeepsSize(step, n) && KeepsKind(step, n, j, kind) && Sized(s, n)
    ensures Sized(Fold(step, s, k), n)
    ensures Fold(step, s, k).zones[j].kind == kind ==> Fold(step, s, k).zones[j] == s.zones[j]
    decreases k
  {
    FoldKeeps(step, SizedAt(n), s, k);
    if k > 0 {
      FoldKeepsKind(step, n, s, k - 1, j, kind);
      FoldKeeps(step, SizedAt(n), s, k - 1);
    }
  }

  lemma StepOfKeepsSize(c: Series, t: SwingTable, closeMitigation: bool, dir: Dir)
    ensures KeepsSize(StepOf(c, t, closeMitigation, dir), |c|)
  {
  }

  /** The state after the first k close indices of a pass. */
  function Pass(c: Series, t: SwingTable, closeMitigation: bool, dir: Dir, s: State, k: nat): (r: State)
    requires |t| == |c| && k <= |c| && Sized(s, |c|)
    ensures Sized(r, |c|)
  {
    StepOfKeepsSize(c, t, closeMitigation, dir);
    FoldKeeps(StepOf(c, t, closeMitigation, dir), SizedAt(|c|), s, k);
    Fold(StepOf(c, t, closeMitigation, dir), s, k)
  }

  /** Close index k of a pass is one step. */
  lemma PassNext(c: Series, t: SwingTable, closeMitigation: bool, dir: Dir, s: State, k: nat)
    requires |t| == |c| && k < |c| && Sized(s, |c|)
    ensures Pass(c, t, closeMitigation, dir, s, k + 1)
            == Step(c, t, closeMitigation, dir, k, Pass(c, t, closeMitigation, dir, s, k))
  {
  }

  /** The body of a pass at one close index. */
  method StepAll(c: Series, t: SwingTable, closeMitigation: bool, dir: Dir, ci: nat,
                 zones: array<Zone>, breaker: array<bool>, crossed: array<bool>)
    requires |t| == |c| && ci < |c|
    requires zones.Length == |c| && breaker.Length == |c| && crossed.Length == |c| && breaker != crossed
    modifies zones, breaker, crossed
    ensures State(zones[..], breaker[..], crossed[..])
              == Step(c, t, closeMitigation, dir, ci, old(State(zones[..], breaker[..], crossed[..])))
  {
    ghost var before := State(zones[..], breaker[..], crossed[..]);
    InvalidateAll(c, closeMitigation, dir, ci, zones, breaker);
    ghost var inv := Invalidate(c, closeMitigation, dir, ci, before);
    assert zones[..] == inv.zones;
    assert breaker[..] == inv.breaker;
    FormZone(c, t, dir, ci, zones, breaker, crossed);
  }

  /** One pass (lines 387-458, or 460-530): every close index in order. */
  method ObPass(c: Series, t: SwingTable, closeMitigation: bool, dir: Dir,
                zones: array<Zone>, breaker: array<bool>, crossed: array<bool>)
    requires |t| == |c|
    requires zones.Length == |c| && breaker.Length == |c| && crossed.Length == |c| && breaker != crossed
    modifies zones, breaker, crossed
    ensures State(zones[..], breaker[..], crossed[..])
              == Pass(c, t, closeMitigation, dir, old(State(zones[..], breaker[..], crossed[..])), |c|)
  {
    ghost var s0 := State(zones[..], breaker[..], crossed[..]);
    for ci := 0 to |c|
      invariant State(zones[..], breaker[..], crossed[..]) == Pass(c, t, closeMitigation, dir, s0, ci)
    {
      PassNext(c, t, closeMitigation, dir, s0, ci);
      StepAll(c, t, closeMitigation, dir, ci, zones, breaker, crossed);
    }
  }

  function Initial(n: nat): (s: State)
    ensures Sized(s, n)
  {
    State(seq(n, _ => EmptyZone), seq(n, _ => false), seq(n, _ => false))
  }

  /** The final state of both passes: the bearish pass starts where the bullish one ended. */
  function Passes(c: Series, t: SwingTable, closeMitigation: bool): (s: State)
    requires |t| == |c|
    ensures Sized(s, |c|)
  {
    var bullish := Pass(c, t, closeMitigation, Bullish, Initial(|c|), |c|);
    Pass(c, t, closeMitigation, Bearish, bullish, |c|)
  }

  /** The reported row: a zone is reported wherever OB is not 0 (lines 532-537). */
  function ReportRow(z: Zone): (r: Option<OrderBlock>)
    ensures r.Some? <==> z.kind != 0
    ensures r.Some? ==> (r.value.dir == Bullish <==> z.kind == 1)
    ensures r.Some? ==> (r.value.top == z.top && r.value.bottom == z.bottom && r.value.obVolume == z.obVolume
                         && r.value.mitigatedIndex == z.mitigatedIndex && r.value.percentage == z.percentage)
  {
    if z.kind == 0 then None
    else Some(OrderBlock(if z.kind == 1 then Bullish else Bearish, z.top, z.bottom, z.obVolume, z.mitigatedIndex, z.percentage))
  }

  /** The whole detector: the bullish pass, then the bearish pass on the same columns. */
  method Ob(c: Series, t: SwingTable, closeMitigation: bool) returns (r: seq<Option<OrderBlock>>)
    requires |t| == |c|
    ensures |r| == |c|
    ensures forall j :: 0 <= j < |c| ==> r[j] == ReportRow(Passes(c, t, closeMitigation).zones[j])
  {
    var n := |c|;
    var zones := new Zone[n](_ => EmptyZone);
    var breaker := new bool[n](_ => false);
    var crossed := new bool[n](_ => false);
    assert State(zones[..], breaker[..], crossed[..]) == Initial(n);
    ObPass(c, t, closeMitigation, Bullish, zones, breaker, crossed);
    ObPass(c, t, closeMitigation, Bearish, zones, breaker, crossed);
    r := seq(n, j requires 0 <= j < n reads zones => ReportRow(zones[j]));
  }

  /** One step keeps every crossed flag and every breaker flag that was set. */
  lemma StepKeepsFlags(c: Series, t: SwingTable, closeMitigation: bool, dir: Dir, ci: nat, s: State, j: nat)
    requires |t| == |c| && ci < |c| && Sized(s, |c|) && j < |c|
    ensures s.crossed[j] ==> Step(c, t, closeMitigation, dir, ci, s).crossed[j]
    ensures s.breaker[j] ==> Step(c, t, closeMitigation, dir, ci, s).breaker[j]
  {
    var q := Invalidate(c, closeMitigation, dir, ci, s);
    assert InvalidateRow(c, closeMitigation, dir, ci, s.zones[j], s.breaker[j]).breaker == q.breaker[j];
  }

  lemma StepOfKeepsFlags(c: Series, t: SwingTable, closeMitigation: bool, dir: Dir, j: nat)
    requires j < |c|
    ensures KeepsFlags(StepOf(c, t, closeMitigation, dir), |c|, j)
  {
    forall i: nat, st: State | Sized(st, |c|)
      ensures var st' := StepOf(c, t, closeMitigation, dir)(i, st);
                Sized(st', |c|) && (st.crossed[j] ==> st'.crossed[j]) && (st.breaker[j] ==> st'.breaker[j])
    {
      if |t| == |c| && i < |c| {
        StepKeepsFlags(c, t, closeMitigation, dir, i, st, j);
      }
    }
  }

  /**
   Between close indices k1 and k2 of a pass no crossed or breaker flag is
   cleared; a breaker flag survives even the deletion of its zone.
   */
  lemma FlagsStay(c: Series, t: SwingTable, closeMitigation: bool, dir: Dir, s: State, k1: nat, k2: nat, j: nat)
    requires |t| == |c| && k1 <= k2 <= |c| && Sized(s, |c|) && j < |c|
    ensures Pass(c, t, closeMitigation, dir, s, k1).crossed[j] ==> Pass(c, t, closeMitigation, dir, s, k2).crossed[j]
    ensures Pass(c, t, closeMitigation, dir, s, k1).breaker[j] ==> Pass(c, t, closeMitigation, dir, s, k2).breaker[j]
  {
    StepOfKeepsSize(c, t, closeMitigation, dir);
    StepOfKeepsFlags(c, t, closeMitigation, dir, j);
    FoldKeepsFlags(StepOf(c, t, closeMitigation, dir), |c|, s, k1, k2, j);
  }

  /** A swing forms at most one zone in a pass: forming from it sets its crossed flag for good. */
  lemma OncePerSwing(c: Series, t: SwingTable, closeMitigation: bool, dir: Dir, s: State, k1: nat, k2: nat)
    requires |t| == |c| && k1 < k2 < |c| && Sized(s, |c|)
    requires FormingSwing(c, t, dir, k1, Pass(c, t, closeMitigation, dir, s, k1).crossed).Some?
    ensures FormingSwing(c, t, dir, k2, Pass(c, t, closeMitigation, dir, s, k2).crossed)
              != FormingSwing(c, t, dir, k1, Pass(c, t, closeMitigation, dir, s, k1).crossed)
  {
    var p := Pass(c, t, closeMitigation, dir, s, k1);
    var x := FormingSwing(c, t, dir, k1, p.crossed).value;
    var q := Invalidate(c, closeMitigation, dir, k1, p);
    assert q.crossed == p.crossed;
    assert Form(c, t, dir, k1, q).crossed[x];
    PassNext(c, t, closeMitigation, dir, s, k1);
    assert Pass(c, t, closeMitigation, dir, s, k1 + 1).crossed[x];
    FlagsStay(c, t, closeMitigation, dir, s, k1 + 1, k2, x);
  }

  /**
   One step leaves a zone of the other kind alone: if the row still holds
   such a zone afterwards, it held the same zone before.
   */
  lemma StepKeepsOtherKind(c: Series, t: SwingTable, closeMitigation: bool, dir: Dir, ci: nat, s: State, j: nat)
    requires |t| == |c| && ci < |c| && Sized(s, |c|) && j < |c|
    requires Step(c, t, closeMitigation, dir, ci, s).zones[j].kind == -KindOf(dir)
    ensures Step(c, t, closeMitigation, dir, ci, s).zones[j] == s.zones[j]
  {
    var q := Invalidate(c, closeMitigation, dir, ci, s);
    assert InvalidateRow(c, closeMitigation, dir, ci, s.zones[j], s.breaker[j]).zone == q.zones[j];
  }

  lemma StepOfKeepsKind(c: Series, t: SwingTable, closeMitigation: bool, dir: Dir, j: nat)
    requires j < |c|
    ensures KeepsKind(StepOf(c, t, closeMitigation, dir), |c|, j, -KindOf(dir))
  {
    forall i: nat, st: State | Sized(st, |c|)
      ensures var st' := StepOf(c, t, closeMitigation, dir)(i, st);
                Sized(st', |c|) && (st'.zones[j].kind == -KindOf(dir) ==> st'.zones[j] == st.zones[j])
    {
      if |t| == |c| && i < |c| && Step(c, t, closeMitigation, dir, i, st).zones[j].kind == -KindOf(dir) {
        StepKeepsOtherKind(c, t, closeMitigation, dir, i, st, j);
      }
    }
  }

  /** A pass never touches a zone of the other kind, except by overwriting it with one of its own. */
  lemma OtherKindKept(c: Series, t: SwingTable, closeMitigation: bool, dir: Dir, s: State, k: nat, j: nat)
    requires |t| == |c| && k <= |c| && Sized(s, |c|) && j < |c|
    requires Pass(c, t, closeMitigation, dir, s, k).zones[j].kind == -KindOf(dir)
    ensures Pass(c, t, closeMitigation, dir, s, k).zones[j] == s.zones[j]
  {
    StepOfKeepsSize(c, t, closeMitigation, dir);
    StepOfKeepsKind(c, t, closeMitigation, dir, j);
    FoldKeepsKind(StepOf(c, t, closeMitigation, dir), |c|, s, k, j, -KindOf(dir));
  }
}
