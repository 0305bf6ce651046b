/**
 `smc.fvg`: the three-candle fair value gap. Row i is a gap when the wicks of
 its neighbours leave a hole that the body of candle i jumps over; the gap is
 mitigated by the first candle from i+2 on that trades back into it.
 */
module FairValueGaps {
  import opened Candles

  /** Direction and bounds of a gap: the FVG, Top and Bottom columns of one row. */
  datatype Bounds = Bounds(dir: Dir, top: real, bottom: real)

  /** One row of the result; MitigatedIndex is 0 when no later candle mitigates the gap. */
  datatype Gap = Gap(dir: Dir, top: real, bottom: real, mitigatedIndex: nat)

  /**
   The element-wise part (the three `np.where` columns): the shifted
   neighbour of row 0 and of row N-1 is NaN, so neither row is ever a gap.
   */
  function Detect(c: Series, i: nat): (g: Option<Bounds>)
    requires i < |c|
    ensures g.Some? ==> 0 < i < |c| - 1
    ensures g.Some? ==> g.value.bottom < g.value.top
    ensures (g.Some? && g.value.dir == Bullish) <==>
              0 < i < |c| - 1 && c[i - 1].high < c[i + 1].low && c[i].close > c[i].open
    ensures (g.Some? && g.value.dir == Bearish) <==>
              0 < i < |c| - 1 && c[i - 1].low > c[i + 1].high && c[i].close < c[i].open
    ensures g.Some? && g.value.dir == Bullish ==> g.value.top == c[i + 1].low && g.value.bottom == c[i - 1].high
    ensures g.Some? && g.value.dir == Bearish ==> g.value.top == c[i - 1].low && g.value.bottom == c[i + 1].high
  {
    if 0 < i < |c| - 1 then
      var bullish := c[i - 1].high < c[i + 1].low && c[i].close > c[i].open;
      var bearish := c[i - 1].low > c[i + 1].high && c[i].close < c[i].open;
      if bullish || bearish then
        if c[i].close > c[i].open then Some(Bounds(Bullish, c[i + 1].low, c[i - 1].high))
        else Some(Bounds(Bearish, c[i - 1].low, c[i + 1].high))
      else None
    else None
  }

  /** Candle j trades back into the gap: its low reaches the top of a bullish gap, its high the bottom of a bearish one. */
  predicate Mitigates(c: Series, b: Bounds, j: nat)
    requires j < |c|
  {
    if b.dir == Bullish then c[j].low <= b.top else c[j].high >= b.bottom
  }

  /** j is the least index from i+2 on that mitigates b, or 0 when there is none. */
  predicate IsFirstMitigation(c: Series, b: Bounds, i: nat, j: nat)
  {
    if j == 0 then forall k :: i + 2 <= k < |c| ==> !Mitigates(c, b, k)
    else i + 2 <= j < |c| && Mitigates(c, b, j) && forall k :: i + 2 <= k < j ==> !Mitigates(c, b, k)
  }

  /**
   The first-match characterisation agrees with `np.argmax` under `np.any`
   (lines 109-111): the index is the first mitigating one from i+2 on, 0 if none.
   */
  lemma FirstMitigationIsFirstFrom(c: Series, b: Bounds, i: nat, j: nat)
    requires IsFirstMitigation(c, b, i, j)
    ensures j == OrZero(FirstFrom((k: nat) => k < |c| && Mitigates(c, b, k), i + 2, |c|))
  {
    var p := (k: nat) => k < |c| && Mitigates(c, b, k);
    var f := FirstFrom(p, i + 2, |c|);
    if j != 0 {
      assert p(j);
    }
    if f.Some? {
      assert p(f.value);
      assert Mitigates(c, b, f.value);
    }
  }

  /** The forward first-match scan of lines 104-111. */
  method FirstMitigation(c: Series, b: Bounds, i: nat) returns (j: nat)
    ensures IsFirstMitigation(c, b, i, j)
    ensures j == OrZero(FirstFrom((k: nat) => k < |c| && Mitigates(c, b, k), i + 2, |c|))
  {
    var k := i + 2;
    while k < |c|
      invariant i + 2 <= k
      invariant forall m :: i + 2 <= m < k && m < |c| ==> !Mitigates(c, b, m)
    {
      if Mitigates(c, b, k) {
        j := k;
        FirstMitigationIsFirstFrom(c, b, i, j);
        return;
      }
      k := k + 1;
    }
    j := 0;
    FirstMitigationIsFirstFrom(c, b, i, j);
  }

  /** The whole detector: one optional gap per candle. */
  method Fvg(c: Series) returns (r: seq<Option<Gap>>)
    ensures |r| == |c|
    ensures forall i :: 0 <= i < |c| ==> (r[i].Some? <==> Detect(c, i).Some?)
    ensures forall i :: 0 <= i < |c| && r[i].Some? ==>
              var b := Detect(c, i).value;
              r[i].value.dir == b.dir && r[i].value.top == b.top && r[i].value.bottom == b.bottom
              && IsFirstMitigation(c, b, i, r[i].value.mitigatedIndex)
  {
    var gaps := new Option<Gap>[|c|](_ => None);
    for i := 0 to |c|
      invariant forall k :: i <= k < |c| ==> gaps[k] == None
      invariant forall k :: 0 <= k < i ==> (gaps[k].Some? <==> Detect(c, k).Some?)
      invariant forall k :: 0 <= k < i && gaps[k].Some? ==>
                  var b := Detect(c, k).value;
                  gaps[k].value.dir == b.dir && gaps[k].value.top == b.top && gaps[k].value.bottom == b.bottom
                  && IsFirstMitigation(c, b, k, gaps[k].value.mitigatedIndex)
    {
      var d := Detect(c, i);
      if d.Some? {
        var j := FirstMitigation(c, d.value, i);
        gaps[i] := Some(Gap(d.value.dir, d.value.top, d.value.bottom, j));
      }
    }
    r := gaps[..];
  }

  /**
   Mitigation is a first match: cutting the series just before the mitigating
   candle leaves the gap in place and reports it unmitigated.
   */
  lemma TruncatedBeforeMitigation(c: Series, i: nat, j: nat)
    requires i < |c| && Detect(c, i).Some?
    requires j != 0 && IsFirstMitigation(c, Detect(c, i).value, i, j)
    ensures i < j && Detect(c[..j], i) == Detect(c, i)
    ensures IsFirstMitigation(c[..j], Detect(c, i).value, i, 0)
  {
    var b := Detect(c, i).value;
    forall k | i + 2 <= k < j
      ensures !Mitigates(c[..j], b, k)
    {
      assert c[..j][k] == c[k];
      assert !Mitigates(c, b, k);
    }
  }
}
