/**
 `smc.bos_choch`: break of structure (BOS) and change of character (CHOCH).
 A scan over the swing table classifies every run of four consecutive swings
 and writes the result at the second of them (the anchor); a second scan
 looks for the first candle from anchor+2 on that breaks the anchor's level,
 and a third erases the events that were never broken.

 The three columns BOS, CHOCH and Level that the scan writes together are
 held as one array of `Pending` records; 0 stands for NaN as in the source.
 */
module StructureBreaks {
  import opened Candles

  /** The BOS, CHOCH and Level entries of one row before confirmation. */
  datatype Pending = Pending(bos: int, choch: int, level: real)

  const NoEvent := Pending(0, 0, 0.0)

  /** One row of the result: absent columns are None, BrokenIndex is always present. */
  datatype Break = Break(bos: Option<Dir>, choch: Option<Dir>, level: Option<real>, brokenIndex: nat)

  predicate BullishKinds(k: seq<int>) { k == [-1, 1, -1, 1] }

  predicate BearishKinds(k: seq<int>) { k == [1, -1, 1, -1] }

  /**
   The four sequential writes of lines 243-316 on the last four swing kinds k
   and levels l (oldest first, so l[1] is `level_order[-3]`, the anchor's own
   level). Each write may overwrite the one before it; the resulting row is
   described by the contract.
   */
  function Classify(k: seq<int>, l: seq<real>): (e: Pending)
    requires |k| == 4 && |l| == 4
    ensures e.bos == 1 <==> BullishKinds(k) && l[0] < l[2] < l[1] < l[3]
    ensures e.bos == -1 <==> BearishKinds(k) && l[0] > l[2] > l[1] > l[3]
    ensures e.choch == 1 <==> BullishKinds(k) && l[3] > l[1] > l[0] > l[2]
    ensures e.choch == -1 <==> BearishKinds(k) && l[3] < l[1] < l[0] < l[2]
    ensures -1 <= e.bos <= 1 && -1 <= e.choch <= 1
    ensures e.bos == 0 || e.choch == 0
    ensures e.level == (if e.bos != 0 || e.choch != 0 then l[1] else 0.0)
  {
    var bull := BullishKinds(k);
    var bear := BearishKinds(k);
    var bos1 := if bull && l[0] < l[2] < l[1] < l[3] then 1 else 0;
    var level1 := if bos1 != 0 then l[1] else 0.0;
    var bos2 := if bear && l[0] > l[2] > l[1] > l[3] then -1 else bos1;
    var level2 := if bos2 != 0 then l[1] else 0.0;
    var choch1 := if bull && l[3] > l[1] > l[0] > l[2] then 1 else 0;
    var level3 := if choch1 != 0 then l[1] else level2;
    var choch2 := if bear && l[3] < l[1] < l[0] < l[2] then -1 else choch1;
    var level4 := if choch2 != 0 then l[1] else level3;
    Pending(bos2, choch2, level4)
  }

  /** Every index of p is a present row of t. */
  predicate MarkedIn(t: SwingTable, p: seq<nat>)
  {
    forall m :: 0 <= m < |p| ==> p[m] < |t| && t[p[m]].Some?
  }

  /** `highs_lows_order`: the kinds of the rows at p, in order. */
  function Kinds(t: SwingTable, p: seq<nat>): (k: seq<int>)
    requires MarkedIn(t, p)
    ensures |k| == |p| && forall m :: 0 <= m < |p| ==> k[m] == t[p[m]].value.highLow
  {
    seq(|p|, m requires 0 <= m < |p| => t[p[m]].value.highLow)
  }

  /** `level_order`: the levels of the rows at p, in order. */
  function Levels(t: SwingTable, p: seq<nat>): (l: seq<real>)
    requires MarkedIn(t, p)
    ensures |l| == |p| && forall m :: 0 <= m < |p| ==> l[m] == t[p[m]].value.level
  {
    seq(|p|, m requires 0 <= m < |p| => t[p[m]].value.level)
  }

  /**
   The row written at the anchor p[q] once swing p[q+2] has been read: the
   classification of swings p[q-1] .. p[q+2]. Its Level is the anchor's own.
   */
  function PendingAt(t: SwingTable, p: seq<nat>, q: nat): (e: Pending)
    requires MarkedIn(t, p) && 1 <= q && q + 2 < |p|
    ensures e.level == 0.0 || e.level == t[p[q]].value.level
    ensures e.bos == 0 || e.choch == 0
  {
    Classify(Kinds(t, p)[q - 1..q + 3], Levels(t, p)[q - 1..q + 3])
  }

  /** j is the anchor of some run of four swings in p. */
  predicate IsAnchor(p: seq<nat>, j: nat)
  {
    exists q :: 1 <= q && q + 2 < |p| && p[q] == j
  }

  lemma AnchorGrows(p: seq<nat>, x: nat, j: nat)
    requires IsAnchor(p, j)
    ensures IsAnchor(p + [x], j)
  {
    var q :| 1 <= q && q + 2 < |p| && p[q] == j;
    assert (p + [x])[q] == j;
  }

  /** Reading one more swing does not change what was written at earlier anchors. */
  lemma PendingAtSnoc(t: SwingTable, p: seq<nat>, x: nat, q: nat)
    requires MarkedIn(t, p + [x]) && 1 <= q && q + 2 < |p|
    ensures MarkedIn(t, p) && PendingAt(t, p + [x], q) == PendingAt(t, p, q)
  {
    var p' := p + [x];
    assert forall m :: 0 <= m < |p| ==> p'[m] == p[m];
    assert Kinds(t, p')[q - 1..q + 3] == Kinds(t, p)[q - 1..q + 3];
    assert Levels(t, p')[q - 1..q + 3] == Levels(t, p)[q - 1..q + 3];
  }

  /**
   What the scan has written once the swings at p have been read: every anchor
   of p holds its classification and every other row is still empty.
   */
  predicate Scanned(t: SwingTable, p: seq<nat>, w: seq<Pending>)
  {
    MarkedIn(t, p)
    && (forall q :: 1 <= q && q + 2 < |p| ==> p[q] < |w| && w[p[q]] == PendingAt(t, p, q))
    && (forall j :: 0 <= j < |w| && w[j] != NoEvent ==> IsAnchor(p, j))
  }

  /** Reading the swing at row i extends the scan by the write at the new anchor, if any. */
  lemma ScanExtend(t: SwingTable, p: seq<nat>, i: nat, w: seq<Pending>)
    requires Scanned(t, p, w) && |w| == |t| && i < |t| && t[i].Some?
    requires forall m, m' :: 0 <= m < m' < |p| ==> p[m] < p[m']
    ensures MarkedIn(t, p + [i])
    ensures |p| >= 3 ==> Scanned(t, p + [i], w[p[|p| - 2] := PendingAt(t, p + [i], |p| - 2)])
    ensures |p| < 3 ==> Scanned(t, p + [i], w)
  {
    var p' := p + [i];
    assert MarkedIn(t, p');
    var w' := if |p| >= 3 then w[p[|p| - 2] := PendingAt(t, p', |p| - 2)] else w;
    forall q | 1 <= q && q + 2 < |p'|
      ensures p'[q] < |w'| && w'[p'[q]] == PendingAt(t, p', q)
    {
      if q + 2 < |p| {
        assert p[q] < p[|p| - 2];
        PendingAtSnoc(t, p, i, q);
      }
    }
    forall j | 0 <= j < |w'| && w'[j] != NoEvent
      ensures IsAnchor(p', j)
    {
      if |p| >= 3 && j == p[|p| - 2] {
        assert p'[|p| - 2] == j;
      } else {
        AnchorGrows(p, i, j);
      }
    }
  }

  /** Reading the swing at row i appends its kind and its level. */
  lemma OrdersSnoc(t: SwingTable, p: seq<nat>, i: nat)
    requires MarkedIn(t, p) && i < |t| && t[i].Some?
    ensures MarkedIn(t, p + [i])
    ensures Kinds(t, p + [i]) == Kinds(t, p) + [t[i].value.highLow]
    ensures Levels(t, p + [i]) == Levels(t, p) + [t[i].value.level]
  {
    assert MarkedIn(t, p + [i]);
  }

  /** The last four kinds and levels classify the anchor `last_positions[-2]`. */
  lemma LastFourRow(t: SwingTable, p: seq<nat>, i: nat)
    requires MarkedIn(t, p + [i]) && |p| >= 3
    ensures Classify(Kinds(t, p + [i])[|p| - 3..], Levels(t, p + [i])[|p| - 3..]) == PendingAt(t, p + [i], |p| - 2)
  {
    var p' := p + [i];
    assert Kinds(t, p')[|p| - 3..] == Kinds(t, p')[|p| - 3..|p'|];
    assert Levels(t, p')[|p| - 3..] == Levels(t, p')[|p| - 3..|p'|];
  }

  /**
   One present row i of the scan (lines 238-318): append its level and kind,
   write the anchor `last_positions[-2]` once four swings are known, then
   append i to `last_positions`.
   */
  method ReadSwing(t: SwingTable, pending: array<Pending>, lastPositions: seq<nat>,
                   kindOrder: seq<int>, levelOrder: seq<real>, i: nat)
    returns (positions': seq<nat>, kinds': seq<int>, levels': seq<real>)
    requires pending.Length == |t| && i < |t| && t[i].Some?
    requires forall m, m' :: 0 <= m < m' < |lastPositions| ==> lastPositions[m] < lastPositions[m']
    requires Scanned(t, lastPositions, pending[..])
    requires kindOrder == Kinds(t, lastPositions) && levelOrder == Levels(t, lastPositions)
    modifies pending
    ensures positions' == lastPositions + [i]
    ensures Scanned(t, positions', pending[..])
    ensures kinds' == Kinds(t, positions') && levels' == Levels(t, positions')
  {
    ghost var before := pending[..];
    ScanExtend(t, lastPositions, i, before);
    OrdersSnoc(t, lastPositions, i);
    levels' := levelOrder + [t[i].value.level];
    kinds' := kindOrder + [t[i].value.highLow];
    positions' := lastPositions + [i];
    if |levels'| >= 4 {
      LastFourRow(t, lastPositions, i);
      var a := lastPositions[|lastPositions| - 2];
      pending[a] := Classify(kinds'[|kinds'| - 4..], levels'[|levels'| - 4..]);
      assert pending[..] == before[a := PendingAt(t, positions', |lastPositions| - 2)];
    }
  }

  /**
   The scan of lines 236-318: the running lists `level_order`,
   `highs_lows_order` and `last_positions` grow by one entry per present row,
   and from the fourth swing on, the anchor `last_positions[-2]` gets its row.
   */
  method ScanSwings(t: SwingTable, n: nat) returns (pending: array<Pending>)
    requires |t| == n
    ensures fresh(pending) && pending.Length == n
    ensures Scanned(t, Positions(t, None), pending[..])
  {
    pending := new Pending[n](_ => NoEvent);
    var levelOrder: seq<real> := [];
    var kindOrder: seq<int> := [];
    var lastPositions: seq<nat> := [];
    for i := 0 to |t|
      invariant lastPositions == Positions(t[..i], None)
      invariant kindOrder == Kinds(t, lastPositions) && levelOrder == Levels(t, lastPositions)
      invariant Scanned(t, lastPositions, pending[..])
    {
      PositionsPrefix(t, None, i);
      PositionsIncreasing(t[..i], None);
      if t[i].Some? {
        lastPositions, kindOrder, levelOrder := ReadSwing(t, pending, lastPositions, kindOrder, levelOrder, i);
      }
    }
    assert t[..|t|] == t;
  }

  /** Candle k breaks the level upward (close or high above it) or downward (close or low below it). */
  predicate Breaks(c: Series, closeBreak: bool, up: bool, level: real, k: nat)
    requires k < |c|
  {
    if up then (if closeBreak then c[k].close else c[k].high) > level
    else (if closeBreak then c[k].close else c[k].low) < level
  }

  /** The least k in [from, |c|) that breaks the level. */
  function FirstBreakOf(c: Series, closeBreak: bool, up: bool, level: real, from: nat): (r: Option<nat>)
    ensures r.Some? ==> from <= r.value < |c| && Breaks(c, closeBreak, up, level, r.value)
    ensures r.Some? ==> forall k :: from <= k < r.value ==> !Breaks(c, closeBreak, up, level, k)
    ensures r.None? ==> forall k :: from <= k < |c| ==> !Breaks(c, closeBreak, up, level, k)
    decreases |c| - from
  {
    if from >= |c| then None
    else if Breaks(c, closeBreak, up, level, from) then Some(from)
    else FirstBreakOf(c, closeBreak, up, level, from + 1)
  }

  /** The `np.argmax` of the mask of lines 324-330, guarded by `np.any`, as a forward scan. */
  method FirstBreak(c: Series, closeBreak: bool, up: bool, level: real, from: nat) returns (r: Option<nat>)
    ensures r == FirstBreakOf(c, closeBreak, up, level, from)
  {
    var k := from;
    while k < |c|
      invariant from <= k
      invariant forall m :: from <= m < k && m < |c| ==> !Breaks(c, closeBreak, up, level, m)
    {
      if Breaks(c, closeBreak, up, level, k) {
        r := Some(k);
        assert FirstBreakOf(c, closeBreak, up, level, from) == r;
        return;
      }
      k := k + 1;
    }
    r := None;
  }

  predicate HasEvent(e: Pending) { e.bos != 0 || e.choch != 0 }

  /**
   BrokenIndex of lines 321-333: the bullish test (BOS or CHOCH equal to 1)
   is tried first, then the bearish one; no event, or no breaking candle,
   leaves None (the source's 0).
   */
  function BrokenOf(c: Series, closeBreak: bool, i: nat, e: Pending): (r: Option<nat>)
    ensures r.Some? ==> HasEvent(e) && i + 2 <= r.value < |c|
    ensures r.Some? ==> var up := e.bos == 1 || e.choch == 1;
              Breaks(c, closeBreak, up, e.level, r.value)
              && forall k :: i + 2 <= k < r.value ==> !Breaks(c, closeBreak, up, e.level, k)
    ensures HasEvent(e) && -1 <= e.bos <= 1 && -1 <= e.choch <= 1 && r.None? ==>
              var up := e.bos == 1 || e.choch == 1;
              forall k :: i + 2 <= k < |c| ==> !Breaks(c, closeBreak, up, e.level, k)
  {
    if e.bos == 1 || e.choch == 1 then FirstBreakOf(c, closeBreak, true, e.level, i + 2)
    else if e.bos == -1 || e.choch == -1 then FirstBreakOf(c, closeBreak, false, e.level, i + 2)
    else None
  }

  function DirOf(v: int): Option<Dir>
  {
    if v == 1 then Some(Bullish) else if v == -1 then Some(Bearish) else None
  }

  /**
   The reported row at i: an event survives only when it was broken
   (lines 335-339); a Level of exactly 0 is reported absent (line 344).
   */
  function Confirm(c: Series, closeBreak: bool, i: nat, e: Pending): (r: Option<Break>)
    ensures r.Some? <==> BrokenOf(c, closeBreak, i, e).Some?
    ensures r.Some? ==> r.value.brokenIndex == BrokenOf(c, closeBreak, i, e).value
    ensures r.Some? ==> r.value.bos == DirOf(e.bos) && r.value.choch == DirOf(e.choch)
    ensures r.Some? ==> (r.value.level.Some? <==> e.level != 0.0)
    ensures r.Some? && r.value.level.Some? ==> r.value.level.value == e.level
  {
    match BrokenOf(c, closeBreak, i, e)
    case None => None
    case Some(j) => Some(Break(DirOf(e.bos), DirOf(e.choch), if e.level != 0.0 then Some(e.level) else None, j))
  }

  /** The row of the result built from the final columns. */
  function Report(e: Pending, broken: nat): Option<Break>
  {
    if HasEvent(e) then Some(Break(DirOf(e.bos), DirOf(e.choch), if e.level != 0.0 then Some(e.level) else None, broken))
    else None
  }

  /** The loop of lines 321-333 over the rows holding an event. */
  method FindBreaks(c: Series, closeBreak: bool, pending: array<Pending>) returns (broken: array<nat>)
    requires pending.Length == |c|
    ensures fresh(broken) && broken.Length == |c|
    ensures forall k :: 0 <= k < |c| ==> broken[k] == OrZero(BrokenOf(c, closeBreak, k, pending[k]))
  {
    var n := |c|;
    broken := new nat[n](_ => 0);
    for i := 0 to n
      invariant forall k :: 0 <= k < i ==> broken[k] == OrZero(BrokenOf(c, closeBreak, k, pending[k]))
      invariant forall k :: i <= k < n ==> broken[k] == 0
    {
      var e := pending[i];
      if HasEvent(e) {
        var j: Option<nat> := None;
        if e.bos == 1 || e.choch == 1 {
          j := FirstBreak(c, closeBreak, true, e.level, i + 2);
        } else if e.bos == -1 || e.choch == -1 {
          j := FirstBreak(c, closeBreak, false, e.level, i + 2);
        }
        assert j == BrokenOf(c, closeBreak, i, e);
        if j.Some? {
          broken[i] := j.value;
        }
      }
    }
  }

  /** The loop of lines 335-339: events without a breaking candle are erased. */
  method EraseUnbroken(pending: array<Pending>, broken: array<nat>)
    requires pending.Length == broken.Length
    modifies pending
    ensures forall k :: 0 <= k < pending.Length ==>
              pending[k] == (if HasEvent(old(pending[k])) && broken[k] == 0 then NoEvent else old(pending[k]))
  {
    for i := 0 to pending.Length
      invariant forall k :: 0 <= k < i ==>
                  pending[k] == (if HasEvent(old(pending[k])) && broken[k] == 0 then NoEvent else old(pending[k]))
      invariant forall k :: i <= k < pending.Length ==> pending[k] == old(pending[k])
    {
      if HasEvent(pending[i]) && broken[i] == 0 {
        pending[i] := NoEvent;
      }
    }
  }

  /**
   The whole detector. Every anchor p[q] of the swing positions p reports the
   confirmed classification of swings p[q-1] .. p[q+2]; every other row
   reports nothing.
   */
  method BosChoch(c: Series, t: SwingTable, closeBreak: bool) returns (r: seq<Option<Break>>)
    requires |t| == |c|
    ensures |r| == |c|
    ensures var p := Positions(t, None);
              MarkedIn(t, p)
              && (forall q :: 1 <= q && q + 2 < |p| ==> r[p[q]] == Confirm(c, closeBreak, p[q], PendingAt(t, p, q)))
              && (forall j :: 0 <= j < |c| && !IsAnchor(p, j) ==> r[j] == None)
  {
    var n := |c|;
    var pending := ScanSwings(t, n);
    ghost var scanned := pending[..];
    var broken := FindBreaks(c, closeBreak, pending);
    EraseUnbroken(pending, broken);
    r := seq(n, i requires 0 <= i < n reads pending, broken => Report(pending[i], broken[i]));
    assert forall k :: 0 <= k < n ==> r[k] == Confirm(c, closeBreak, k, scanned[k]);
    ghost var p := Positions(t, None);
    forall j | 0 <= j < n && !IsAnchor(p, j)
      ensures r[j] == None
    {
      assert scanned[j] == NoEvent;
    }
  }
}
