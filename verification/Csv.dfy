/** Relative-timelock maturity: depth in blocks and wall-clock time, in checked machine arithmetic. */
module Csv {
  import opened Basics
  import opened Pin

  function CsvDepth(tipHeight: U32, confirmHeight: U32): PolicyResult<U32> {
    if tipHeight < confirmHeight then Err(CsvImmatureDepth)
    else if tipHeight - confirmHeight + 1 > U32_MAX then Err(CsvImmatureDepth)
    else Ok(tipHeight - confirmHeight + 1)
  }

  predicate CsvDepthIsMature(depth: U32, csvBlocks: U32, safetyMargin: U32) {
    csvBlocks + safetyMargin <= U32_MAX && depth >= csvBlocks + safetyMargin
  }

  function WallClockDeadlineUnix(tConfirmUnix: U64, csvBlocks: U32, safetyMargin: U32): PolicyResult<U64> {
    if csvBlocks + safetyMargin > U32_MAX then Err(CsvImmatureWallclock)
    else
      // The checked multiplication never fails: the product of a u32 and 600 is a u64.
      var delta: U64 := (csvBlocks + safetyMargin) * WALL_CLOCK_SECONDS_PER_BLOCK;
      if tConfirmUnix + delta > U64_MAX then Err(CsvImmatureWallclock)
      else Ok(tConfirmUnix + delta)
  }

  function WallClockIsMature(nowUnix: U64, tConfirmUnix: U64, csvBlocks: U32, safetyMargin: U32)
    : PolicyResult<bool>
  {
    var deadline :- WallClockDeadlineUnix(tConfirmUnix, csvBlocks, safetyMargin);
    Ok(nowUnix >= deadline)
  }

  function CheckCsvMaturity(tipHeight: U32, confirmHeight: U32, nowUnix: U64, tConfirmUnix: U64,
                            csvBlocks: U32, safetyMargin: U32): PolicyResult<()>
  {
    var depth :- CsvDepth(tipHeight, confirmHeight);
    if !CsvDepthIsMature(depth, csvBlocks, safetyMargin) then Err(CsvImmatureDepth)
    else
      var mature :- WallClockIsMature(nowUnix, tConfirmUnix, csvBlocks, safetyMargin);
      if mature then Ok(()) else Err(CsvImmatureWallclock)
  }

  /** The two documented bounds, over unbounded integers. The confirming block counts as depth 1. */
  predicate DeepEnough(tip: int, confirm: int, need: int) {
    confirm <= tip && tip - confirm + 1 >= need
  }

  predicate OldEnough(now: int, tConfirm: int, need: int) {
    now >= tConfirm + need * 600
  }

  /** The checked arithmetic decides exactly the two bounds, except where the depth itself is 2^32:
      there a coin that is deep and old enough is refused. The depth error comes first. */
  lemma {:induction false} MaturityExact(tip: U32, confirm: U32, now: U64, tConfirm: U64, csv: U32, margin: U32)
    ensures var r := CheckCsvMaturity(tip, confirm, now, tConfirm, csv, margin);
            var deep := DeepEnough(tip, confirm, csv + margin) && tip - confirm != U32_MAX;
            && (r == Ok(()) <==> deep && OldEnough(now, tConfirm, csv + margin))
            && (r == Err(CsvImmatureDepth) <==> !deep)
            && (r == Err(CsvImmatureWallclock) <==> deep && !OldEnough(now, tConfirm, csv + margin))
  {
  }

  /** A coin in the corner: confirmed in block 0, tip 2^32 - 1, both bounds met, and refused. */
  lemma {:induction false} MaturityCornerIsRefused()
    ensures DeepEnough(U32_MAX, 0, 5328) && OldEnough(3_196_800, 0, 5328)
    ensures CheckCsvMaturity(U32_MAX, 0, 3_196_800, 0, 4320, 1008) == Err(CsvImmatureDepth)
  {
  }

  /** Once mature, a coin stays mature as tip and clock advance, short of the last tip height. */
  lemma {:induction false} MaturityPersists(tip: U32, tip': U32, confirm: U32, now: U64, now': U64, tConfirm: U64,
                         csv: U32, margin: U32)
    requires CheckCsvMaturity(tip, confirm, now, tConfirm, csv, margin).Ok?
    requires tip <= tip' < U32_MAX && now <= now'
    ensures CheckCsvMaturity(tip', confirm, now', tConfirm, csv, margin).Ok?
  {
    MaturityExact(tip, confirm, now, tConfirm, csv, margin);
    MaturityExact(tip', confirm, now', tConfirm, csv, margin);
  }
}
