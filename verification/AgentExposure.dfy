/** What the signatures of a run can move together, against what was charged and what was sampled. */
module AgentExposure {
  import opened Basics
  import opened Bitcoin
  import opened Pin
  import opened Velocity
  import opened Replay
  import opened Store
  import opened EvaluateProofs
  import opened Agent

  /** The external value of the chosen entries among the first n. */
  function ExternalOver(ledger: seq<Entry>, chosen: set<nat>, n: nat): nat
    requires n <= |ledger|
  {
    if n == 0 then 0
    else ExternalOver(ledger, chosen, n - 1) + if n - 1 in chosen then ExternalOf(ledger[n - 1].record) else 0
  }

  function ChargedOver(ledger: seq<Entry>, chosen: set<nat>, n: nat): nat
    requires n <= |ledger|
  {
    if n == 0 then 0
    else ChargedOver(ledger, chosen, n - 1) + if n - 1 in chosen then ledger[n - 1].charged else 0
  }

  function TotalCharged(ledger: seq<Entry>): nat {
    if ledger == [] then 0 else TotalCharged(ledger[..|ledger| - 1]) + ledger[|ledger| - 1].charged
  }

  lemma {:induction false} ChargedOverInsert(ledger: seq<Entry>, chosen: set<nat>, j: nat, n: nat)
    requires n <= |ledger| && j !in chosen
    ensures ChargedOver(ledger, chosen + {j}, n)
         == ChargedOver(ledger, chosen, n) + if j < n then ledger[j].charged else 0
  {
    if n == 0 {
    } else {
      ChargedOverInsert(ledger, chosen, j, n - 1);
    }
  }

  lemma {:induction false} ChargedOverBounded(ledger: seq<Entry>, chosen: set<nat>, n: nat)
    requires n <= |ledger|
    ensures ChargedOver(ledger, chosen, n) <= TotalCharged(ledger[..n])
  {
    if n == 0 {
    } else {
      ChargedOverBounded(ledger, chosen, n - 1);
      assert ledger[..n][..n - 1] == ledger[..n - 1];
    }
  }

  /** No two chosen signatures share a coin: what one chain can confirm together. */
  ghost predicate CanConfirmTogether(ledger: seq<Entry>, chosen: set<nat>) {
    forall i, j :: i in chosen && j in chosen && i < j && j < |ledger| ==>
      !OutpointsOverlap(ledger[i].record.outpoints, ledger[j].record.outpoints)
  }

  /** Every entry of `paid` is for the spend of a chosen one below n. */
  ghost predicate CoversChosen(ledger: seq<Entry>, paid: set<nat>, chosen: set<nat>, n: nat)
    requires n <= |ledger|
  {
    forall j :: j in paid ==> j < |ledger| && PaysForChosen(ledger, j, chosen, n)
  }

  ghost predicate PaysForChosen(ledger: seq<Entry>, j: nat, chosen: set<nat>, n: nat)
    requires j < |ledger| && n <= |ledger|
  {
    exists k :: 0 <= k < n && k in chosen && SameSpend(ledger[j].record, ledger[k].record)
  }

  /** Each chosen signature has its own fully charged entry. */
  lemma {:induction false} ChoosePaid(ledger: seq<Entry>, chosen: set<nat>, n: nat) returns (paid: set<nat>)
    requires LedgerOk(ledger) && CanConfirmTogether(ledger, chosen)
    requires n <= |ledger|
    ensures CoversChosen(ledger, paid, chosen, n)
    ensures ChargedOver(ledger, paid, |ledger|) == ExternalOver(ledger, chosen, n)
  {
    if n == 0 {
      paid := {};
      NothingChosen(ledger, |ledger|);
    } else {
      var before := ChoosePaid(ledger, chosen, n - 1);
      CoversMore(ledger, before, chosen, n);
      paid := before;
      if n - 1 in chosen {
        var j := PaidEntry(ledger, n - 1);
        PaidEntriesDiffer(ledger, j, chosen, n - 1);
        assert j !in before;
        ChargedOverInsert(ledger, before, j, |ledger|);
        paid := before + {j};
        assert PaysForChosen(ledger, j, chosen, n);
      }
    }
  }

  lemma {:induction false} CoversMore(ledger: seq<Entry>, paid: set<nat>, chosen: set<nat>, n: nat)
    requires 0 < n <= |ledger| && CoversChosen(ledger, paid, chosen, n - 1)
    ensures CoversChosen(ledger, paid, chosen, n)
  {
    forall j | j in paid
      ensures PaysForChosen(ledger, j, chosen, n)
    {
      assert PaysForChosen(ledger, j, chosen, n - 1);
    }
  }

  lemma {:induction false} PaidEntry(ledger: seq<Entry>, k: nat) returns (j: nat)
    requires LedgerOk(ledger) && k < |ledger|
    ensures j < |ledger| && ledger[j].charged == ExternalOf(ledger[k].record)
    ensures SameSpend(ledger[j].record, ledger[k].record)
  {
    assert EntryOk(ledger, k);
    j :| 0 <= j < |ledger| && IsFullyCharged(ledger[j]) && SameSpend(ledger[j].record, ledger[k].record);
  }

  /** One entry does not pay for two signatures that can confirm together. */
  lemma {:induction false} PaidEntriesDiffer(ledger: seq<Entry>, j: nat, chosen: set<nat>, k: nat)
    requires LedgerOk(ledger) && CanConfirmTogether(ledger, chosen)
    requires j < |ledger| && k < |ledger| && k in chosen
    requires SameSpend(ledger[j].record, ledger[k].record)
    ensures !PaysForChosen(ledger, j, chosen, k)
  {
    if PaysForChosen(ledger, j, chosen, k) {
      var k' :| 0 <= k' < k && k' in chosen && SameSpend(ledger[j].record, ledger[k'].record);
      assert EntryOk(ledger, k');
      SameCoinsOverlap(ledger[k'].record.outpoints, ledger[k].record.outpoints);
      assert false;
    }
  }

  lemma {:induction false} SameCoinsOverlap(a: seq<OutPoint>, b: seq<OutPoint>)
    requires a != [] && Elements(a) == Elements(b)
    ensures OutpointsOverlap(a, b)
  {
    assert a[0] in Elements(a) * Elements(b);
  }

  lemma {:induction false} NothingChosen(ledger: seq<Entry>, n: nat)
    requires n <= |ledger|
    ensures ChargedOver(ledger, {}, n) == 0
  {
    if n == 0 {
    } else {
      NothingChosen(ledger, n - 1);
    }
  }

  /** On every run, whatever the interleaving, the failures and the crashes: any set of signatures that one
      chain can confirm together moves at most what the ledger charges, although fee bumps are charged
      nothing and the store may have changed between an evaluation and its commit. */
  lemma {:induction false} ExposureIsCharged(lib: Library, pin: AgentPin, rule: SampleRule, events: seq<AgentEvent>,
                                             chosen: set<nat>)
    requires lib.OutPointTextRoundTrips()
    ensures AgentRun(lib, pin, rule, NewAgent(lib), events).Ok?
    ensures var ledger := AgentRun(lib, pin, rule, NewAgent(lib), events).value.ledger;
            CanConfirmTogether(ledger, chosen) ==>
              ExternalOver(ledger, chosen, |ledger|) <= TotalCharged(ledger)
  {
    NewAgentHasInv(lib, pin);
    RunKeepsInv(lib, pin, rule, NewAgent(lib), events);
    var a := AgentRun(lib, pin, rule, NewAgent(lib), events).value;
    if CanConfirmTogether(a.ledger, chosen) {
      var paid := ChoosePaid(a.ledger, chosen, |a.ledger|);
      ChargedOverBounded(a.ledger, paid, |a.ledger|);
      assert a.ledger[..|a.ledger|] == a.ledger;
    }
  }

  // ----- What the samples cover -----

  function TotalSampled(samples: seq<VelocitySample>): nat {
    if samples == [] then 0
    else TotalSampled(samples[..|samples| - 1]) + samples[|samples| - 1].externalSats
  }

  /** The samples among the first n entries that were taken for the spends of the chosen signatures. */
  ghost function SampledFor(rule: SampleRule, ledger: seq<Entry>, chosen: set<nat>, n: nat): nat
    requires n <= |ledger|
  {
    if n == 0 then 0
    else
      SampledFor(rule, ledger, chosen, n - 1)
      + if Sampled(rule, ledger[n - 1]) && PaysForChosen(ledger, n - 1, chosen, |ledger|)
        then ledger[n - 1].charged else 0
  }

  lemma {:induction false} SampledForIsSampled(rule: SampleRule, ledger: seq<Entry>, chosen: set<nat>, n: nat)
    requires n <= |ledger|
    ensures SampledFor(rule, ledger, chosen, n) <= TotalSampled(Samples(rule, ledger[..n]))
  {
    if n == 0 {
    } else {
      SampledForIsSampled(rule, ledger, chosen, n - 1);
      assert ledger[..n][..n - 1] == ledger[..n - 1];
      var before, sample := Samples(rule, ledger[..n - 1]), VelocitySample(ledger[n - 1].tip, ledger[n - 1].charged);
      assert (before + [sample])[..|before|] == before;
    }
  }

  /** Whatever can confirm together is covered by the samples taken for the very same spends. */
  ghost predicate ExposureCovered(rule: SampleRule, ledger: seq<Entry>) {
    forall chosen: set<nat> :: CanConfirmTogether(ledger, chosen) ==>
      ExternalOver(ledger, chosen, |ledger|) <= SampledFor(rule, ledger, chosen, |ledger|)
  }

  /** Entry k pays nothing out, or the full charge for its spend was sampled, with this entry or another. */
  ghost predicate SpendSampled(rule: SampleRule, ledger: seq<Entry>, k: nat)
    requires k < |ledger|
  {
    ExternalOf(ledger[k].record) > 0 ==>
      exists j :: 0 <= j < |ledger| && SamplesSpend(rule, ledger[j], ledger[k].record)
  }

  predicate SamplesSpend(rule: SampleRule, e: Entry, r: Record) {
    Sampled(rule, e) && IsFullyCharged(e) && SameSpend(e.record, r)
  }

  ghost predicate SpendsSampled(rule: SampleRule, ledger: seq<Entry>) {
    forall k :: 0 <= k < |ledger| ==> SpendSampled(rule, ledger, k)
  }

  /** The ledger as the samples know it. */
  function Discounted(rule: SampleRule, ledger: seq<Entry>): (d: seq<Entry>)
    ensures |d| == |ledger|
    ensures forall i :: 0 <= i < |d| ==>
              d[i] == if Sampled(rule, ledger[i]) then ledger[i] else ledger[i].(charged := 0)
  {
    seq(|ledger|, i requires 0 <= i < |ledger| =>
      if Sampled(rule, ledger[i]) then ledger[i] else ledger[i].(charged := 0))
  }

  lemma {:induction false} DiscountedIsOk(rule: SampleRule, ledger: seq<Entry>)
    requires LedgerOk(ledger) && SpendsSampled(rule, ledger)
    ensures LedgerOk(Discounted(rule, ledger))
  {
    var d := Discounted(rule, ledger);
    forall k | 0 <= k < |d|
      ensures EntryOk(d, k)
    {
      assert EntryOk(ledger, k) && SpendSampled(rule, ledger, k);
      if ExternalOf(d[k].record) > 0 {
        var j :| 0 <= j < |ledger| && SamplesSpend(rule, ledger[j], ledger[k].record);
        assert IsFullyCharged(d[j]) && SameSpend(d[j].record, d[k].record);
      } else {
        assert IsFullyCharged(d[k]) && SameSpend(d[k].record, d[k].record);
      }
    }
  }

  lemma {:induction false} DiscountKeepsExternal(rule: SampleRule, ledger: seq<Entry>, chosen: set<nat>, n: nat)
    requires n <= |ledger|
    ensures ExternalOver(Discounted(rule, ledger), chosen, n) == ExternalOver(ledger, chosen, n)
  {
    if n == 0 {
    } else {
      DiscountKeepsExternal(rule, ledger, chosen, n - 1);
    }
  }

  lemma {:induction false} PaidIsSampled(rule: SampleRule, ledger: seq<Entry>, paid: set<nat>, chosen: set<nat>, n: nat)
    requires n <= |ledger|
    requires CoversChosen(Discounted(rule, ledger), paid, chosen, |ledger|)
    ensures ChargedOver(Discounted(rule, ledger), paid, n) <= SampledFor(rule, ledger, chosen, n)
  {
    if n == 0 {
    } else {
      PaidIsSampled(rule, ledger, paid, chosen, n - 1);
      if n - 1 in paid {
        var d := Discounted(rule, ledger);
        assert PaysForChosen(d, n - 1, chosen, |ledger|);
        var k :| 0 <= k < |ledger| && k in chosen && SameSpend(d[n - 1].record, d[k].record);
        assert SameSpend(ledger[n - 1].record, ledger[k].record);
      }
    }
  }

  lemma {:induction false} SampledSpendsCover(rule: SampleRule, ledger: seq<Entry>, chosen: set<nat>)
    requires LedgerOk(ledger) && SpendsSampled(rule, ledger) && CanConfirmTogether(ledger, chosen)
    ensures ExternalOver(ledger, chosen, |ledger|) <= SampledFor(rule, ledger, chosen, |ledger|)
  {
    var d := Discounted(rule, ledger);
    DiscountedIsOk(rule, ledger);
    assert CanConfirmTogether(d, chosen);
    var paid := ChoosePaid(d, chosen, |d|);
    DiscountKeepsExternal(rule, ledger, chosen, |ledger|);
    PaidIsSampled(rule, ledger, paid, chosen, |ledger|);
  }

  /** Some sample behind a positive sum for one signature. */
  lemma {:induction false} SampleForOne(rule: SampleRule, ledger: seq<Entry>, k: nat, n: nat) returns (j: nat)
    requires k < |ledger| && n <= |ledger|
    requires SampledFor(rule, ledger, {k}, n) > 0
    ensures j < |ledger| && Sampled(rule, ledger[j]) && ledger[j].charged > 0
    ensures SameSpend(ledger[j].record, ledger[k].record)
  {
    if Sampled(rule, ledger[n - 1]) && PaysForChosen(ledger, n - 1, {k}, |ledger|) && ledger[n - 1].charged > 0 {
      j := n - 1;
    } else {
      j := SampleForOne(rule, ledger, k, n - 1);
    }
  }

  lemma {:induction false} ExternalOfOne(ledger: seq<Entry>, k: nat, n: nat)
    requires k < |ledger| && n <= |ledger|
    ensures ExternalOver(ledger, {k}, n) == if k < n then ExternalOf(ledger[k].record) else 0
  {
    if n == 0 {
    } else {
      ExternalOfOne(ledger, k, n - 1);
    }
  }

  lemma {:induction false} CoveredSpendIsSampled(rule: SampleRule, ledger: seq<Entry>, k: nat)
    requires LedgerOk(ledger) && ExposureCovered(rule, ledger) && k < |ledger|
    ensures SpendSampled(rule, ledger, k)
  {
    if ExternalOf(ledger[k].record) > 0 {
      ExternalOfOne(ledger, k, |ledger|);
      assert CanConfirmTogether(ledger, {k});
      var j := SampleForOne(rule, ledger, k, |ledger|);
      assert EntryOk(ledger, j);
      assert SamplesSpend(rule, ledger[j], ledger[k].record);
    }
  }

  /** On every run, the samples cover what can confirm together exactly when every spend that pays something
      out was sampled in full at least once. It need not be at its own entry: a retry after a crash, or the
      spend that a bump replaces, will do. */
  lemma {:induction false} ExposureIsCoveredExactly(lib: Library, pin: AgentPin, rule: SampleRule,
                                                    events: seq<AgentEvent>)
    requires lib.OutPointTextRoundTrips()
    ensures AgentRun(lib, pin, rule, NewAgent(lib), events).Ok?
    ensures var ledger := AgentRun(lib, pin, rule, NewAgent(lib), events).value.ledger;
            ExposureCovered(rule, ledger) <==> SpendsSampled(rule, ledger)
  {
    NewAgentHasInv(lib, pin);
    RunKeepsInv(lib, pin, rule, NewAgent(lib), events);
    var ledger := AgentRun(lib, pin, rule, NewAgent(lib), events).value.ledger;
    if SpendsSampled(rule, ledger) {
      forall chosen: set<nat> | CanConfirmTogether(ledger, chosen)
        ensures ExternalOver(ledger, chosen, |ledger|) <= SampledFor(rule, ledger, chosen, |ledger|)
      {
        SampledSpendsCover(rule, ledger, chosen);
      }
    }
    if ExposureCovered(rule, ledger) {
      forall k | 0 <= k < |ledger|
        ensures SpendSampled(rule, ledger, k)
      {
        CoveredSpendIsSampled(rule, ledger, k);
      }
    }
  }

  /** And then the exposure is within all that was sampled. */
  lemma {:induction false} ExposureIsSampled(lib: Library, pin: AgentPin, rule: SampleRule, events: seq<AgentEvent>,
                                             chosen: set<nat>)
    requires lib.OutPointTextRoundTrips()
    ensures AgentRun(lib, pin, rule, NewAgent(lib), events).Ok?
    ensures var ledger := AgentRun(lib, pin, rule, NewAgent(lib), events).value.ledger;
            SpendsSampled(rule, ledger) && CanConfirmTogether(ledger, chosen) ==>
              ExternalOver(ledger, chosen, |ledger|) <= TotalSampled(Samples(rule, ledger))
  {
    ExposureIsCoveredExactly(lib, pin, rule, events);
    var ledger := AgentRun(lib, pin, rule, NewAgent(lib), events).value.ledger;
    SampledForIsSampled(rule, ledger, chosen, |ledger|);
    assert ledger[..|ledger|] == ledger;
  }

  // ----- Callers and disks that leave nothing unsampled -----

  const ALL_DONE: Io := Io(true, true, true)

  /** The caller samples as soon as the record is stored, or no write fails. */
  predicate SamplesEvery(rule: SampleRule, e: AgentEvent) {
    rule.WhenStored? || (e.Committed? ==> e.io == ALL_DONE)
  }

  ghost predicate AllSampled(rule: SampleRule, ledger: seq<Entry>) {
    forall i :: 0 <= i < |ledger| ==> Sampled(rule, ledger[i])
  }

  lemma {:induction false} StepKeepsAllSampled(lib: Library, pin: AgentPin, rule: SampleRule, a: AgentState,
                                               e: AgentEvent)
    requires AllSampled(rule, a.ledger) && SamplesEvery(rule, e)
    requires AgentStep(lib, pin, rule, a, e).Ok?
    ensures AllSampled(rule, AgentStep(lib, pin, rule, a, e).value.ledger)
  {
  }

  lemma {:induction false} RunKeepsAllSampled(lib: Library, pin: AgentPin, rule: SampleRule, a: AgentState,
                                              events: seq<AgentEvent>)
    requires AllSampled(rule, a.ledger)
    requires forall i :: 0 <= i < |events| ==> SamplesEvery(rule, events[i])
    requires AgentRun(lib, pin, rule, a, events).Ok?
    ensures AllSampled(rule, AgentRun(lib, pin, rule, a, events).value.ledger)
    decreases |events|
  {
    if events == [] {
    } else {
      StepKeepsAllSampled(lib, pin, rule, a, events[0]);
      assert forall i :: 0 <= i < |events[1..]| ==> events[1..][i] == events[i + 1];
      RunKeepsAllSampled(lib, pin, rule, AgentStep(lib, pin, rule, a, events[0]).value, events[1..]);
    }
  }

  lemma {:induction false} AllSampledMeansSpendsSampled(rule: SampleRule, ledger: seq<Entry>)
    requires LedgerOk(ledger) && AllSampled(rule, ledger)
    ensures SpendsSampled(rule, ledger)
  {
    forall k | 0 <= k < |ledger|
      ensures SpendSampled(rule, ledger, k)
    {
      var j := PaidEntry(ledger, k);
      assert SamplesSpend(rule, ledger[j], ledger[k].record);
    }
  }

  /** A caller that samples when the record is stored never misses exposure, whatever fails; nor does one that
      waits for the report, when no write fails. */
  lemma {:induction false} CarefulCallerMissesNothing(lib: Library, pin: AgentPin, rule: SampleRule,
                                                      events: seq<AgentEvent>,
                                                      chosen: set<nat>)
    requires lib.OutPointTextRoundTrips()
    requires forall i :: 0 <= i < |events| ==> SamplesEvery(rule, events[i])
    ensures AgentRun(lib, pin, rule, NewAgent(lib), events).Ok?
    ensures var ledger := AgentRun(lib, pin, rule, NewAgent(lib), events).value.ledger;
            CanConfirmTogether(ledger, chosen) ==>
              ExternalOver(ledger, chosen, |ledger|) <= TotalSampled(Samples(rule, ledger))
  {
    ExposureIsSampled(lib, pin, rule, events, chosen);
    NewAgentHasInv(lib, pin);
    RunKeepsInv(lib, pin, rule, NewAgent(lib), events);
    RunKeepsAllSampled(lib, pin, rule, NewAgent(lib), events);
    AllSampledMeansSpendsSampled(rule, AgentRun(lib, pin, rule, NewAgent(lib), events).value.ledger);
  }
}
