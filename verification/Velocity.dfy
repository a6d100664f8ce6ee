/** Velocity caps on external value: per signature, and over the trailing 144 heights. */
module Velocity {
  import opened Basics
  import opened Pin

  datatype VelocitySample = VelocitySample(tipHeight: U32, externalSats: U64)

  function CheckVelocityCap(externalSats: U64, cap: U64): PolicyResult<()> {
    if externalSats > cap then Err(PolicyErrorCode.Velocity) else Ok(())
  }

  /** The window of a height is the 144 heights that end there. */
  predicate InWindow(s: VelocitySample, tipHeight: nat) {
    tipHeight - 144 < s.tipHeight <= tipHeight
  }

  function Weight(s: VelocitySample, tipHeight: nat): nat {
    if InWindow(s, tipHeight) then s.externalSats else 0
  }

  /** The unbounded sum of the samples in the window that ends at a height. */
  function WindowSum(samples: seq<VelocitySample>, tipHeight: nat): nat {
    if samples == [] then 0
    else WindowSum(samples[..|samples| - 1], tipHeight) + Weight(samples[|samples| - 1], tipHeight)
  }

  function WindowVerdict(samples: seq<VelocitySample>, tipHeight: U32, thisExternal: U64,
                         perSigSats: U64, perWindowSats: U64): PolicyResult<()>
  {
    if thisExternal <= perSigSats && thisExternal + WindowSum(samples, tipHeight) <= perWindowSats
    then Ok(()) else Err(PolicyErrorCode.Velocity)
  }

  /** The loop over u64 with checked addition: it accepts exactly when the unbounded sum fits. */
  method CheckVelocityWindowCapped(samples: seq<VelocitySample>, tipHeight: U32, thisExternal: U64,
                                   perSigSats: U64, perWindowSats: U64)
    returns (r: PolicyResult<()>)
    ensures r == WindowVerdict(samples, tipHeight, thisExternal, perSigSats, perWindowSats)
  {
    var cap := CheckVelocityCap(thisExternal, perSigSats);
    if cap.Err? {
      return cap;
    }
    // Both subtractions saturate at zero.
    var windowStart: U32 :=
      if tipHeight < VELOCITY_WINDOW_BLOCKS - 1 then 0 else tipHeight - (VELOCITY_WINDOW_BLOCKS - 1);
    var total: U64 := thisExternal;
    for i := 0 to |samples|
      invariant total == thisExternal + WindowSum(samples[..i], tipHeight)
    {
      var sample := samples[i];
      assert samples[..i + 1][..i] == samples[..i];
      if windowStart <= sample.tipHeight && sample.tipHeight <= tipHeight {
        if total + sample.externalSats > U64_MAX {
          WindowSumPrefix(samples, i + 1, tipHeight);
          return Err(PolicyErrorCode.Velocity);
        }
        total := total + sample.externalSats;
      }
    }
    assert samples[..|samples|] == samples;
    if total > perWindowSats {
      return Err(PolicyErrorCode.Velocity);
    }
    return Ok(());
  }

  lemma {:induction false} WindowSumPrefix(samples: seq<VelocitySample>, n: nat, tipHeight: nat)
    requires n <= |samples|
    ensures WindowSum(samples[..n], tipHeight) <= WindowSum(samples, tipHeight)
  {
    if n == |samples| {
      assert samples[..n] == samples;
    } else {
      var m := |samples| - 1;
      WindowSumPrefix(samples[..m], n, tipHeight);
      assert samples[..m][..n] == samples[..n];
    }
  }

  lemma {:induction false} WindowSumIsSumBy(samples: seq<VelocitySample>, tipHeight: nat, f: VelocitySample -> nat)
    requires forall s :: f(s) == Weight(s, tipHeight)
    ensures WindowSum(samples, tipHeight) == SumBy(f, samples)
  {
    if samples == [] {
    } else {
      WindowSumIsSumBy(samples[..|samples| - 1], tipHeight, f);
    }
  }

  /** The verdict does not depend on the order of the samples. */
  lemma {:induction false} SampleOrderIsIrrelevant(a: seq<VelocitySample>, b: seq<VelocitySample>, tipHeight: U32,
                                thisExternal: U64, perSigSats: U64, perWindowSats: U64)
    requires multiset(a) == multiset(b)
    ensures WindowVerdict(a, tipHeight, thisExternal, perSigSats, perWindowSats)
         == WindowVerdict(b, tipHeight, thisExternal, perSigSats, perWindowSats)
  {
    var f: VelocitySample -> nat := s => Weight(s, tipHeight);
    WindowSumIsSumBy(a, tipHeight, f);
    WindowSumIsSumBy(b, tipHeight, f);
    SumOfPermutation(f, a, b);
  }

  // ----- The cap over a growing record of samples -----

  /** No window, whatever height it ends at, holds more than the cap. */
  ghost predicate WithinCap(samples: seq<VelocitySample>, cap: nat) {
    forall h: nat :: WindowSum(samples, h) <= cap
  }

  ghost predicate TipsUpTo(samples: seq<VelocitySample>, tip: nat) {
    forall i :: 0 <= i < |samples| ==> samples[i].tipHeight <= tip
  }

  /** Among samples no later than `tip`, the window ending at `tip` holds at least what any later one holds. */
  lemma {:induction false} LaterWindowHoldsLess(samples: seq<VelocitySample>, tip: nat, h: nat)
    requires TipsUpTo(samples, tip) && tip <= h
    ensures WindowSum(samples, h) <= WindowSum(samples, tip)
  {
    if samples == [] {
    } else {
      var m := |samples| - 1;
      assert forall i :: 0 <= i < m ==> samples[..m][i] == samples[i];
      LaterWindowHoldsLess(samples[..m], tip, h);
    }
  }

  /** A charge at `tip` fits into every window that holds that height. */
  ghost predicate FitsWindows(samples: seq<VelocitySample>, tip: nat, charged: nat, cap: nat) {
    forall h: nat :: tip <= h < tip + 144 ==> charged + WindowSum(samples, h) <= cap
  }

  /** If no sample is later, the window that ends at `tip` decides. */
  lemma {:induction false} LastWindowDecides(samples: seq<VelocitySample>, tip: nat, charged: nat, cap: nat)
    requires TipsUpTo(samples, tip)
    ensures FitsWindows(samples, tip, charged, cap) <==> charged + WindowSum(samples, tip) <= cap
  {
    forall h: nat | tip <= h < tip + 144
      ensures WindowSum(samples, h) <= WindowSum(samples, tip)
    {
      LaterWindowHoldsLess(samples, tip, h);
    }
  }

  /** Recording a sample keeps every window within the cap exactly when it fits, whatever the tips before. */
  lemma {:induction false} RecordingKeepsCapExactly(samples: seq<VelocitySample>, tip: U32, charged: U64, cap: nat)
    ensures WithinCap(samples + [VelocitySample(tip, charged)], cap)
       <==> WithinCap(samples, cap) && FitsWindows(samples, tip, charged, cap)
  {
    var after := samples + [VelocitySample(tip, charged)];
    assert after[..|samples|] == samples;
    assert forall h: nat :: WindowSum(after, h) == WindowSum(samples, h) + Weight(after[|samples|], h);
    if WithinCap(after, cap) {
      forall h: nat
        ensures WindowSum(samples, h) <= cap
        ensures tip <= h < tip + 144 ==> charged + WindowSum(samples, h) <= cap
      {
        assert WindowSum(after, h) <= cap;
      }
    }
  }

  /** One accepted check, at a tip no lower than those before, keeps every window within the cap. */
  lemma {:induction false} RecordingKeepsCap(samples: seq<VelocitySample>, tip: U32, charged: U64, perSig: U64,
                                             cap: U64)
    requires WithinCap(samples, cap) && TipsUpTo(samples, tip)
    requires WindowVerdict(samples, tip, charged, perSig, cap).Ok?
    ensures WithinCap(samples + [VelocitySample(tip, charged)], cap)
    ensures TipsUpTo(samples + [VelocitySample(tip, charged)], tip)
  {
    LastWindowDecides(samples, tip, charged, cap);
    RecordingKeepsCapExactly(samples, tip, charged, cap);
  }
}
