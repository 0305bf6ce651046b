# smartmoneyconcepts detectors in Dafny

A model of the five batch detectors of the `smc` class of the
smartmoneyconcepts library (`smartmoneyconcepts/smc.py`), with proofs of
what each detector computes. Every detector reads a fixed series of OHLCV
candles; three of them also read the swing table that `swing_highs_lows`
produces.

- **Fair value gaps** (`fvg`, module `FairValueGaps`, `fvg.dfy`). A fair value
  gap is a three-candle imbalance. A bullish candle whose neighbours leave a gap
  between the previous high and the next low forms a bullish gap. The bearish
  case is the mirror. The gap's top and bottom come from the neighbours. The
  first later candle that trades back into the gap mitigates it.
- **Swing highs and lows** (`swing_highs_lows`, module `SwingPoints`,
  `swings.dfy`). It works in four steps:
  - it marks rolling-window extrema as candidate swing highs (1) and lows (-1);
  - a fixed-point loop clears the less extreme of every pair of adjacent
    same-kind marks, until the marks alternate;
  - it forces the first mark to be a low and the last to be a high;
  - it fills in the Level column.
- **Break of structure / change of character** (`bos_choch`, module
  `StructureBreaks`, `structure.dfy`). A scan over the swings reads the last
  four. It classifies them as a BOS or a CHOCH, and writes the result at the
  anchor, the swing two places back. A forward search then looks for the
  candle that breaks each event's level. Events that never break are erased.
- **Order blocks** (`ob`, module `OrderBlocks`, `orderblocks.dfy`). There is a
  bullish pass, then a bearish pass, over one set of shared zone arrays. At
  every close index each pass does two things:
  - it first invalidates zones: the first crossing sets a breaker flag, the
    second deletes the zone;
  - it then forms a zone when the close crosses the latest uncrossed swing.
    The anchor is the extreme candle of the window behind the close.
- **Liquidity** (`liquidity`, module `LiquidityPools`, `liquidity.dfy`). There
  is a high pass and then a low pass. Each swing of the pass's kind starts a
  forward scan. The scan absorbs later same-kind swings whose level is within
  a pip range of the starting swing, until a candle sweeps that band. It
  reports the mean level, the last absorbed swing and the sweeping candle.
  Absorbed swings get HighLow 0 in the caller's table, so they can neither
  start nor join another pool.

`candles.dfy` (module `Candles`) holds the shared vocabulary:
- candles and directions;
- the swing table (`Option<Swing>` per row; `None` is the NaN row);
- first-match search and window extrema;
- the ordered list of marked positions.

The loops of the source are imperative Dafny: methods with loop invariants
over arrays. Each method's contract ties its result or its new array
contents to a specification function of its inputs. The detectors'
properties are proved as lemmas about those functions. A per-candle loop
that carries state is specified by `Candles.Fold`, a step applied to the
indices in order, and `Candles.FoldKeeps` carries any invariant that every
step keeps through the whole loop. Each detector supplies its own step and
the invariants that step keeps.

Where this model departs from the library's general description, it follows
the code:
- `liquidity` changes the swing table it is given. The model's `Liquidity`
  therefore modifies its `table` argument.
- The BOS and CHOCH conditions on the four levels exclude each other, so an
  anchor never carries both (`Classify`).
- The bearish pass of `ob` writes into the same arrays as the bullish pass.
  A bearish zone can therefore replace a bullish zone at the same row. The
  replacing zone keeps that row's mitigation index and breaker flag
  (`Form`, `NewZone`).
- The bullish anchor search of `ob` starts from top = low[ci-1] and
  bottom = high[ci-1] (line 426-427). The bearish search does not swap them
  (line 498-499). So the bullish zone keeps the swapped bounds when the window
  between the swing and the close is empty, or when high[ci-1] lies below
  every low of the window (`BullishAnchorOf`).

## Model

| member | source | states |
|---|---|---|
| Candles.Trunc | smartmoneyconcepts/smc.py:455-458 | the integer is the real truncated toward zero: the greatest integer not above a nonnegative value, the least not below a nonpositive one |
| Candles.FirstFrom | smartmoneyconcepts/smc.py:109-111 | the result is the least index in the range that satisfies the mask, and absent exactly when no index in the range does |
| Candles.MaxHigh | smartmoneyconcepts/smc.py:577 | the result is the largest high of the window and is attained in it |
| Candles.MinLow | smartmoneyconcepts/smc.py:577 | the result is the smallest low of the window and is attained in it |
| Candles.Positions | smartmoneyconcepts/smc.py:164 | every listed position is a marked row, and every marked row is listed |
| Candles.PositionsIncreasing | smartmoneyconcepts/smc.py:164 | the listed positions are strictly increasing |
| FairValueGaps.Detect | smartmoneyconcepts/smc.py:69-100 | row i is a bullish gap iff high[i-1] < low[i+1] and the candle closes up, and bearish iff low[i-1] > high[i+1] and it closes down; top/bottom are low[i+1]/high[i-1] (bullish) or low[i-1]/high[i+1] (bearish); bottom < top; rows 0 and N-1 are never gaps |
| FairValueGaps.FirstMitigation | smartmoneyconcepts/smc.py:103-111 | the result is the least j >= i+2 whose low reaches the top (bullish) or whose high reaches the bottom (bearish), and 0 when no candle does; it is the first index of the mitigation mask from i+2 (FirstFrom), or 0 |
| FairValueGaps.FirstMitigationIsFirstFrom | smartmoneyconcepts/smc.py:103-111 | the first mitigating index is FirstFrom's least index of the mitigation mask from i+2, with absence mapped to 0 |
| FairValueGaps.Fvg | smartmoneyconcepts/smc.py:56-123 | row i of the result is present exactly when a gap is detected there, with that gap's direction, top and bottom, and its first mitigation index |
| FairValueGaps.TruncatedBeforeMitigation | smartmoneyconcepts/smc.py:69-111 | cutting the series just before the mitigating candle keeps the gap and makes its mitigation absent (0) |
| SwingPoints.Candidate | smartmoneyconcepts/smc.py:144-160 | the mark is 1 iff the window i-L+1 .. i+L lies inside the series and high[i] is its maximum; -1 iff the window lies inside, high[i] is not its maximum and low[i] is its minimum; otherwise 0 |
| SwingPoints.CandidateMarks | smartmoneyconcepts/smc.py:144-160 | the mark column has one entry per candle, each the candidate mark of its row; the first and last rows are never marked |
| SwingPoints.CandidateMarksNonEmpty | smartmoneyconcepts/smc.py:190-191 | when some row is a candidate, the list of marked positions that line 191 indexes is nonempty |
| SwingPoints.ClearedOf | smartmoneyconcepts/smc.py:179-187 | of a same-kind pair, the cleared index is never strictly more extreme than the kept one (higher low for lows, lower high for highs), and a tie clears the later one |
| SwingPoints.ClearOneOfPair | smartmoneyconcepts/smc.py:179-188 | the array changes only at the index ClearedOf picks, which becomes absent; the number of marks drops by one and stays positive |
| SwingPoints.MarksPositions | smartmoneyconcepts/smc.py:164 | the number of marked rows is the number of positions the scan lists |
| SwingPoints.MarksClear | smartmoneyconcepts/smc.py:181-187 | clearing a marked row removes exactly one mark |
| SwingPoints.Walk | smartmoneyconcepts/smc.py:166-188 | after the first i pairs of a pass the column has only lost marks, keeps one when the snapshot had one, has fewer marks when it differs from the snapshot, and, while it equals the snapshot, every visited pair alternates |
| SwingPoints.VisitWalked | smartmoneyconcepts/smc.py:179-188 | visiting one more pair keeps the invariant Walk states |
| SwingPoints.VisitClearing | smartmoneyconcepts/smc.py:179-188 | visiting a pair whose two entries still hold the same kind makes the column differ from the snapshot, only clears, and removes exactly one mark while keeping at least one |
| SwingPoints.VisitPair | smartmoneyconcepts/smc.py:166-188 | the array becomes Visit of its old contents: the ClearedOf mark of a same-kind pair is cleared, any other pair leaves it alone; the continue flag says whether the column now differs from the snapshot |
| SwingPoints.PassOfFacts | smartmoneyconcepts/smc.py:164-188 | a pass only clears marks, keeps one when there was one, removes at least one when it changes anything, and changes nothing exactly when the marks alternate |
| SwingPoints.PassOfUnchanged | smartmoneyconcepts/smc.py:162-188 | a pass leaves the column unchanged iff its marks already alternate |
| SwingPoints.WalkAlternating | smartmoneyconcepts/smc.py:166-188 | on alternating marks no pair of a pass clears anything |
| SwingPoints.WalkClears | smartmoneyconcepts/smc.py:179-188 | every mark cleared so far in a pass is the ClearedOf pick of some consecutive same-kind pair of the pass's snapshot |
| SwingPoints.PassOfClears | smartmoneyconcepts/smc.py:164-188 | every mark a whole pass clears is the ClearedOf pick of some consecutive same-kind pair of its snapshot |
| SwingPoints.ResolvePass | smartmoneyconcepts/smc.py:164-188 | the array after one pass is PassOf of the array before, and the continue flag is set iff the pass changed the column |
| SwingPoints.ResolveOfFacts | smartmoneyconcepts/smc.py:162-188 | the fixed point of the passes alternates, is reached by clearing marks only, keeps a mark when there was one, and is the input itself when the input alternates |
| SwingPoints.Resolve | smartmoneyconcepts/smc.py:162-188 | the `while continue_` loop terminates and leaves ResolveOf of the initial marks |
| SwingPoints.Table | smartmoneyconcepts/smc.py:196-200 | a row is present iff it is marked; its HighLow is the mark and its Level is the candle's high at a high and its low at a low; the table's marked positions are the marks' |
| SwingPoints.TableOfAlternating | smartmoneyconcepts/smc.py:190-200 | alternating marks that start with a low and end with a high give a table whose consecutive swings alternate, starting with a low and ending with a high |
| SwingPoints.MarkFirstLow | smartmoneyconcepts/smc.py:191-192 | marking row 0 as a low in front of a leading high keeps the marks alternating and puts 0 first in the positions |
| SwingPoints.MarkLastHigh | smartmoneyconcepts/smc.py:193-194 | marking the last row as a high after a trailing low keeps the marks alternating and puts that row last in the positions |
| SwingPoints.ForcedFirst | smartmoneyconcepts/smc.py:191-192 | forcing row 0 keeps the marks alternating, makes the first mark a low, leaves every other row and the last marked position alone |
| SwingPoints.ForcedLast | smartmoneyconcepts/smc.py:193-194 | forcing the last row keeps the marks alternating and the first a low, makes the last mark a high, and leaves every other row alone |
| SwingPoints.ForcedFacts | smartmoneyconcepts/smc.py:190-194 | after forcing, the marks alternate, the first is -1 and the last is 1, and only rows 0 and N-1 can have changed, to -1 and 1 respectively |
| SwingPoints.ForceBoundaries | smartmoneyconcepts/smc.py:190-194 | the array becomes Forced of its old contents; afterwards the first mark is -1 and the last is 1, the marks still alternate, and every row other than the first and last keeps its mark |
| SwingPoints.ThinnedFacts | smartmoneyconcepts/smc.py:162-194 | the resolved and forced candidates alternate, start with -1 and end with 1, and every surviving mark is the candidate's own, except a forced low at row 0 or a forced high at the last row |
| SwingPoints.Thin | smartmoneyconcepts/smc.py:162-194 | the final marks are Forced of ResolveOf of the candidates, and so alternate, start with -1, end with 1, and are the candidates' own marks except for the forced ends |
| SwingPoints.SwingsFacts | smartmoneyconcepts/smc.py:126-208 | every present row of the table is a high at the candle's high or a low at the candle's low, carries its candidate mark (or is a forced boundary), and the swings alternate, starting with a low and ending with a high |
| SwingPoints.SwingHighsLows | smartmoneyconcepts/smc.py:126-208 | the table is the Table of the forced, resolved candidate marks (Swings), and so has the properties SwingsFacts states |
| StructureBreaks.Classify | smartmoneyconcepts/smc.py:243-316 | BOS is 1 iff kinds are [-1,1,-1,1] with L[-4] < L[-2] < L[-3] < L[-1], and -1 iff [1,-1,1,-1] with L[-4] > L[-2] > L[-3] > L[-1]; CHOCH is 1 iff [-1,1,-1,1] with L[-1] > L[-3] > L[-4] > L[-2], and -1 iff [1,-1,1,-1] with L[-1] < L[-3] < L[-4] < L[-2]; BOS and CHOCH are never both set; Level is L[-3] when an event is set and 0 otherwise |
| StructureBreaks.Kinds | smartmoneyconcepts/smc.py:228-240 | the running kind list holds the HighLow, in order, of every swing read |
| StructureBreaks.Levels | smartmoneyconcepts/smc.py:228-240 | the running level list holds the Level, in order, of every swing read |
| StructureBreaks.PendingAt | smartmoneyconcepts/smc.py:241-316 | the row written at an anchor carries at most one of BOS and CHOCH, and its Level is 0 or the anchor swing's own level |
| StructureBreaks.PendingAtSnoc | smartmoneyconcepts/smc.py:237-318 | reading a further swing does not change what an earlier anchor holds |
| StructureBreaks.OrdersSnoc | smartmoneyconcepts/smc.py:239-240 | reading swing i appends its kind and its level to the running lists |
| StructureBreaks.LastFourRow | smartmoneyconcepts/smc.py:241-316 | classifying the last four entries of the running lists gives the row of the anchor two swings back |
| StructureBreaks.ScanExtend | smartmoneyconcepts/smc.py:237-318 | reading one more swing writes only the row of the swing two places back in the order, with the classification of the last four |
| StructureBreaks.ReadSwing | smartmoneyconcepts/smc.py:238-318 | after one swing is read, the running lists and last positions describe all swings read so far, and the pending rows are those the analysis assigns them |
| StructureBreaks.ScanSwings | smartmoneyconcepts/smc.py:228-318 | after the whole scan, every anchor of the swing order holds the classification of its four swings, and every other row holds no event |
| StructureBreaks.FirstBreakOf | smartmoneyconcepts/smc.py:324-331 | the result is the least index from the start that crosses the level in the tested direction (close or high/low by close_break), or absent when none does |
| StructureBreaks.FirstBreak | smartmoneyconcepts/smc.py:324-331 | the loop's result is the first breaking candle of FirstBreakOf |
| StructureBreaks.BrokenOf | smartmoneyconcepts/smc.py:320-331 | an evented row's BrokenIndex is the least j >= i+2 that breaks its level, testing upward first when BOS or CHOCH is 1; rows without an event, or never broken, have none |
| StructureBreaks.Confirm | smartmoneyconcepts/smc.py:333-345 | a row is reported iff its event is broken, with its BOS, CHOCH and BrokenIndex, and with a Level that is absent exactly when it is 0 |
| StructureBreaks.FindBreaks | smartmoneyconcepts/smc.py:320-331 | the BrokenIndex column holds BrokenOf of each row, 0 where there is none |
| StructureBreaks.EraseUnbroken | smartmoneyconcepts/smc.py:333-339 | every evented row without a break is cleared, and every other row is unchanged |
| StructureBreaks.BosChoch | smartmoneyconcepts/smc.py:211-352 | every anchor of the swing order holds the confirmation of its classification, and every row that is not an anchor is absent |
| OrderBlocks.InvalidateRow | smartmoneyconcepts/smc.py:393-417 | a zone of the other kind is untouched; a zone is deleted iff it is of the pass's kind, already a breaker, and price retakes it; it becomes a breaker iff it is of the pass's kind, not yet a breaker, and price penetrates it; it then takes the mitigation index close_index-1 (bullish) or close_index (bearish); breaker flags are never cleared; a surviving zone keeps its top and bottom; a surviving zone that does not just become a breaker is the zone it was, and one that becomes a breaker differs from it only in the mitigation index |
| OrderBlocks.Invalidate | smartmoneyconcepts/smc.py:465-489 | invalidation acts on every row independently, as InvalidateRow, and leaves the crossed flags alone |
| OrderBlocks.InvalidateAll | smartmoneyconcepts/smc.py:393-417 | the loop over the rows leaves every row as InvalidateRow makes it |
| OrderBlocks.LastSwing | smartmoneyconcepts/smc.py:418-421 | the result is the greatest index below the close index holding a swing of the given kind, or absent when there is none |
| OrderBlocks.LastSwingBelow | smartmoneyconcepts/smc.py:490-493 | the result is the greatest index below the bound holding a swing of the given kind, or absent when there is none |
| OrderBlocks.LastSwingBefore | smartmoneyconcepts/smc.py:418-421 | the loop's result is LastSwing's |
| OrderBlocks.FormingSwing | smartmoneyconcepts/smc.py:422-425 | a zone forms from the last swing before the close exactly when the close crosses the swing's price and the swing is not yet crossed |
| OrderBlocks.LastMinLow | smartmoneyconcepts/smc.py:429-440 | the result attains the minimum low of the window, and no later index of the window attains it |
| OrderBlocks.LastMaxHigh | smartmoneyconcepts/smc.py:501-512 | the result attains the maximum high of the window, and no later index of the window attains it |
| OrderBlocks.BullishAnchorOf | smartmoneyconcepts/smc.py:426-440 | the anchor lies below the close index, after the swing or at close_index-1 |
| OrderBlocks.BearishAnchorOf | smartmoneyconcepts/smc.py:498-512 | the anchor lies below the close index, after the swing or at close_index-1 |
| OrderBlocks.AnchorOf | smartmoneyconcepts/smc.py:426-440 | the pass's anchor lies below the close index, after the swing or at close_index-1 |
| OrderBlocks.BullishAnchorIsLastMinimum | smartmoneyconcepts/smc.py:426-440 | over a nonempty window between the swing and the close, the bullish anchor is the last candle with the window's minimum low, and the zone is that candle's high and low |
| OrderBlocks.BearishAnchorIsLastMaximum | smartmoneyconcepts/smc.py:498-512 | over a nonempty window between the swing and the close, the bearish anchor is the last candle with the window's maximum high, and the zone is that candle's high and low |
| OrderBlocks.BullishAnchor | smartmoneyconcepts/smc.py:426-440 | the backward loop's anchor, top and bottom are BullishAnchorOf's |
| OrderBlocks.BearishAnchor | smartmoneyconcepts/smc.py:498-512 | the backward loop's anchor, top and bottom are BearishAnchorOf's |
| OrderBlocks.RatioBound | smartmoneyconcepts/smc.py:455-458 | the ratio of the smaller aggregate to the larger lies in [0, 1] |
| OrderBlocks.Percentage | smartmoneyconcepts/smc.py:455-458 | the percentage is absent exactly when the larger aggregate is 0; for nonnegative volumes it lies in [0, 100], and it is 100 when the aggregates are equal |
| OrderBlocks.NewZone | smartmoneyconcepts/smc.py:442-458 | the new zone has the pass's kind and the anchor's top and bottom; OBVolume is v[c]+v[c-1]+v[c-2]; low and high volume are v[c-2] and v[c]+v[c-1] (bullish) or the reverse (bearish); it keeps the row's mitigation index; its percentage is that of the two aggregates |
| OrderBlocks.Form | smartmoneyconcepts/smc.py:418-458 | without a forming swing the state is unchanged; otherwise the swing becomes crossed, the anchor row takes the new zone, no other row changes, the changed row lies between the swing and the close, and breaker flags are untouched |
| OrderBlocks.FormZone | smartmoneyconcepts/smc.py:490-530 | the search and writes leave the arrays as Form describes |
| OrderBlocks.StepAll | smartmoneyconcepts/smc.py:388-458 | one close index's invalidation and then formation leave the arrays as Step describes |
| OrderBlocks.ObPass | smartmoneyconcepts/smc.py:460-530 | one full pass over the close indices leaves the arrays as the pass function describes |
| OrderBlocks.PassNext | smartmoneyconcepts/smc.py:388-389 | the pass after close index k is one step applied to the pass up to k |
| OrderBlocks.ReportRow | smartmoneyconcepts/smc.py:532-537 | a row is reported iff its OB is nonzero, with its direction, top, bottom, volume, mitigation index and percentage |
| OrderBlocks.Ob | smartmoneyconcepts/smc.py:355-556 | every row of the result is the report of the zone that the bullish pass and then the bearish pass leave at that row |
| OrderBlocks.StepKeepsFlags | smartmoneyconcepts/smc.py:416-425 | no step clears a crossed flag or a breaker flag |
| OrderBlocks.FlagsStay | smartmoneyconcepts/smc.py:377-458 | during a pass a crossed or breaker flag, once set, stays set, even when its zone is deleted |
| OrderBlocks.OncePerSwing | smartmoneyconcepts/smc.py:422-425 | a swing that forms a zone at one close index never forms one at a later close index of the same pass |
| OrderBlocks.StepKeepsOtherKind | smartmoneyconcepts/smc.py:465-530 | if a row holds a zone of the other kind after a step, it held that same zone before the step |
| OrderBlocks.OtherKindKept | smartmoneyconcepts/smc.py:460-530 | a zone of the other kind found after any part of a pass is the one the pass started with: the bearish pass never builds or changes a bullish zone, it can only replace one |
| LiquidityPools.PipRange | smartmoneyconcepts/smc.py:577 | the pip range is the fraction of the series' overall high-low spread, nonnegative for a nonnegative fraction |
| LiquidityPools.GatherSound | smartmoneyconcepts/smc.py:594-601 | the scan absorbs increasing rows, each a same-kind swing inside the band with no sweeping candle before it |
| LiquidityPools.GatherComplete | smartmoneyconcepts/smc.py:594-598 | every same-kind swing inside the band reached before the first sweep is absorbed |
| LiquidityPools.GatherSweeps | smartmoneyconcepts/smc.py:599-601 | Swept is the first candle from the scan start whose high reaches the band's top (or whose low reaches its bottom), or 0 when none does |
| LiquidityPools.MeanInBand | smartmoneyconcepts/smc.py:603 | the mean of levels that all lie in a band lies in that band |
| LiquidityPools.PoolLevelsIndex | smartmoneyconcepts/smc.py:590-597 | the level list is the starting swing's level followed by the absorbed swings' levels in order |
| LiquidityPools.PoolAtExists | smartmoneyconcepts/smc.py:602 | a pool starts at swing i iff its scan reaches at least one later swing |
| LiquidityPools.PoolAtReaches | smartmoneyconcepts/smc.py:594-602 | when a pool exists, its first absorbed swing is reached by the scan |
| LiquidityPools.PoolAtReached | smartmoneyconcepts/smc.py:594-602 | a swing reached by the scan makes the pool exist |
| LiquidityPools.PoolAtEnd | smartmoneyconcepts/smc.py:596-606 | End is a row the scan reaches, and no later row is reached |
| LiquidityPools.PoolAtLevel | smartmoneyconcepts/smc.py:603-605 | the pool's Level lies within pip of the starting swing's level |
| LiquidityPools.PoolAtSwept | smartmoneyconcepts/smc.py:599-607 | the pool's Swept is the first candle after i that sweeps the band, or 0 |
| LiquidityPools.ZeroedRow | smartmoneyconcepts/smc.py:598 | a row is zeroed or unchanged; rows not absorbed are unchanged; present absorbed rows get HighLow 0 |
| LiquidityPools.ZeroedMeaning | smartmoneyconcepts/smc.py:594-598 | zeroing keeps every row's presence and level, sets HighLow to 0 exactly at the absorbed rows, and changes nothing else |
| LiquidityPools.PassStep | smartmoneyconcepts/smc.py:586-607 | a row that is not a swing of the pass's kind changes nothing |
| LiquidityPools.StepZeroesOnly | smartmoneyconcepts/smc.py:598 | a step changes table rows only by setting HighLow to 0 |
| LiquidityPools.StepKeepsOtherPools | smartmoneyconcepts/smc.py:604-607 | the step at row i writes no pool at any other row |
| LiquidityPools.PassNext | smartmoneyconcepts/smc.py:585-586 | the pass after row k is one step applied to the pass up to k |
| LiquidityPools.AbsorbOne | smartmoneyconcepts/smc.py:598 | writing HighLow 0 at row k extends the zeroing by k |
| LiquidityPools.ScanCandle | smartmoneyconcepts/smc.py:595-601 | one candle of the scan absorbs it when it joins, stops exactly when it sweeps (recording it as Swept), and keeps the table zeroed at exactly the absorbed rows |
| LiquidityPools.GatherPool | smartmoneyconcepts/smc.py:590-601 | the inner loop absorbs exactly what the scan absorbs, zeroes exactly those rows, and collects their levels, the last absorbed row and the sweeping candle |
| LiquidityPools.PoolRow | smartmoneyconcepts/smc.py:586-607 | handling one swing leaves table and pools as one pass step describes |
| LiquidityPools.RunPass | smartmoneyconcepts/smc.py:585-607 | a full pass leaves table and pools as the pass function describes |
| LiquidityPools.Liquidity | smartmoneyconcepts/smc.py:559-644 | the result and the caller's changed swing table are what the high pass and then the low pass, over one shared table, leave |
| LiquidityPools.PassZeroesBetween | smartmoneyconcepts/smc.py:594-598 | between any two points of a pass a table row is only zeroed or left alone |
| LiquidityPools.PassOnlyZeroes | smartmoneyconcepts/smc.py:585-607 | a pass changes the swing table only by setting HighLow entries to 0 |
| LiquidityPools.AbsorbedStays | smartmoneyconcepts/smc.py:598 | an absorbed swing stays absorbed for the rest of the pass |
| LiquidityPools.PoolUntouched | smartmoneyconcepts/smc.py:604-607 | the pool at row j changes only at step j |
| LiquidityPools.AbsorbedStartsNoPool | smartmoneyconcepts/smc.py:586 | a swing absorbed before its own row is reached starts no pool |
| LiquidityPools.AbsorbedNeverJoins | smartmoneyconcepts/smc.py:595 | an absorbed swing never joins a later scan of the pass |
| LiquidityPools.PoolWritten | smartmoneyconcepts/smc.py:586-607 | the pool at row i is the one that starts at i on the table the pass has when it reaches i, when i is still a swing of the pass's kind and its scan absorbs something; otherwise the entry the pass started with |

## Left out

- The `inputvalidator` and `apply` decorators (smartmoneyconcepts/smc.py:7-48) are not part of this model. They handle column-name normalisation and missing columns.
- pandas and NumPy data structures are not modelled. The output is one record per row (`Option<Gap>`, `Option<Break>`, `Option<OrderBlock>`, `Option<Pool>`) instead of parallel columns. NaN is `None`. The final 0-to-NaN conversions become the reporting functions.
- Floating point is not modelled. Prices and volumes are exact reals, and the float32 storage of levels, tops, bottoms and volumes is ignored. NaN comparisons do not arise because absent rows are `None`.
- The int32 cast of the percentage is truncation toward zero (`Trunc`). The 32-bit range of the index columns is not modelled.
- `shift` and `rolling` are not modelled as library functions. Only the window bounds they produce are, in `HasWindow` and `Candidate`.
- SwingPoints.SwingHighsLows: requires swing_length >= 1 and at least one candidate swing. With no candidate, the source fails with an IndexError at line 191.
- SwingPoints.ForceBoundaries: requires at least two candles. This always holds once a candidate exists, because a candidate needs a full window.
- LiquidityPools.Liquidity: requires a nonempty series, because `max` of the empty high column raises.
- OrderBlocks.Percentage: is absent when the larger volume aggregate is 0. The infinite or NaN value the source then casts to int32 is not modelled.
- OrderBlocks.NewZone: for a close index below 2, the source's negative `iloc` wraps to the end of the series, and `Vol` models that wrap exactly.
- LiquidityPools.PipRange: its nonnegativity is stated only when the first candle's low does not exceed its high. The model does not require well-formed candles.
- OrderBlocks.Form: the contract does not prove that anchors grow within a pass. So it does not exclude two formations of one pass writing to the same row.
- The structure break detector's comparison of float32 levels against float64 closes is not modelled. Both are the same real.
