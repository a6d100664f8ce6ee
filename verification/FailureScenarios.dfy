/** Runs that show why the main results ask for what they ask: a caller that samples only what is reported,
    a store that forgets, and requests that are evaluated before the signatures they should count. */
module FailureScenarios {
  import opened Basics
  import opened Bitcoin
  import opened Pin
  import opened Velocity
  import opened Replay
  import opened Store
  import opened Evaluate
  import opened EvaluateProofs
  import opened EvaluateExact
  import opened Agent
  import opened AgentExposure
  import opened AgentFees
  import opened ExampleSpend

  const WRITE_FAILS: Io := Io(false, false, false)

  /** A library in which the bytes are the PSBT of a spendable example. */
  ghost predicate ParsesExample(lib: Library, pin: AgentPin, destination: Script, op: OutPoint, external: U64,
                                change: U64,
                                bytes: seq<Byte>)
  {
    && ExampleIsSpendable(lib, pin, destination, external, change)
    && lib.parsePsbt(bytes) == Some(ExamplePsbt(pin, destination, op, external, change))
  }

  // ----- Sampling only what is reported -----

  function UnreportedEvents(pin: AgentPin, op: OutPoint, external: U64, requestId: Bytes16, bytes: seq<Byte>,
                            signature: seq<Byte>): seq<AgentEvent>
    requires pin.Provisioned()
  {
    [Evaluated(ExampleRequest(requestId, bytes, external), true, MatureChain(pin, op)),
     Committed(0, signature, WRITE_FAILS)]
  }

  lemma {:induction false} UnreportedRun(lib: Library, pin: AgentPin, destination: Script, op: OutPoint,
                                         external: U64, change: U64, requestId: Bytes16, bytes: seq<Byte>,
                                         signature: seq<Byte>)
    returns (a: AgentState, signed: Record)
    requires pin.Provisioned() && ParsesExample(lib, pin, destination, op, external, change, bytes)
    requires signature != []
    ensures AgentRun(lib, pin, WhenReported, NewAgent(lib),
                     UnreportedEvents(pin, op, external, requestId, bytes, signature))
         == Ok(a)
    ensures signed == ExampleRecord(lib, pin, destination, op, external, change, requestId, bytes)
                      .(payload := Signed(signature))
    ensures a.store.memory == [signed]
    ensures a.ledger == [Entry(signed, MatureChain(pin, op).tipHeight, external, false)]
  {
    var before := NewAgent(lib);
    var t := ExampleTicket(lib, pin, destination, op, external, change, requestId, bytes, 0);
    signed := t.record.(payload := Signed(signature));
    assert Samples(WhenReported, before.ledger) == [];
    NothingStoredIsFresh(t.record);
    EvaluateAndCommit(lib, pin, WhenReported, before, destination, op, external, change, requestId, bytes, signature,
                      WRITE_FAILS);
    FreshCommit(lib, before.(pending := [t]), t, signature, WRITE_FAILS);
    a := CommitTicket(lib, before.(pending := [t]), t, signature, WRITE_FAILS);
    var entry := Entry(signed, t.tip, external, false);
    assert [] + [entry] == [entry] && [] + [signed] == [signed];
  }

  lemma {:induction false} LoneEntryExposure(e: Entry)
    requires !e.reported
    ensures CanConfirmTogether([e], {0})
    ensures ExternalOver([e], {0}, 1) == ExternalOf(e.record)
    ensures TotalSampled(Samples(WhenReported, [e])) == 0
  {
    assert [e][..0] == [];
    assert ExternalOver([e], {0}, 0) == 0;
    assert Samples(WhenReported, [e]) == [];
  }

  lemma {:induction false} LoneRecordAnswers(lib: Library, pin: AgentPin, request: PolicyRequest, psbt: Psbt,
                                             chain: ChainView,
                                             signed: Record, samples: seq<VelocitySample>)
    requires lib.parsePsbt(request.psbtBytes) == Some(psbt) && ProperPsbt(lib, pin, chain, psbt)
    requires signed == FromPin(lib, pin, request.requestId, psbt, request.psbtBytes).(payload := signed.payload)
    requires signed.payload.Signed? && Constructible(signed)
    ensures Evaluation(lib, pin, request, true, chain, [signed], samples) == Ok(CachedSignature(signed.payload.bytes))
  {
    assert Consistent([signed]);
    RetryIsAnswered(lib, pin, request, chain, [signed], samples, 0);
  }

  /** A caller that samples only on a reported success: one failed write, and the exposure is the whole external
      amount against no sample at all, while the same request is now answered with the signature. */
  lemma {:induction false} ReportedSamplesMissExposure(lib: Library, pin: AgentPin, destination: Script, op: OutPoint,
                                                       external: U64, change: U64, requestId: Bytes16, bytes: seq<Byte>,
                                                       signature: seq<Byte>)
    returns (a: AgentState)
    requires pin.Provisioned() && ParsesExample(lib, pin, destination, op, external, change, bytes)
    requires external > 0 && signature != []
    ensures AgentRun(lib, pin, WhenReported, NewAgent(lib),
                     UnreportedEvents(pin, op, external, requestId, bytes, signature))
         == Ok(a)
    ensures CanConfirmTogether(a.ledger, {0})
    ensures |a.ledger| == 1 && ExternalOver(a.ledger, {0}, |a.ledger|) == external
    ensures TotalSampled(Samples(WhenReported, a.ledger)) == 0
    ensures Evaluation(lib, pin, ExampleRequest(requestId, bytes, external), true, MatureChain(pin, op),
                       a.store.memory, Samples(WhenReported, a.ledger)) == Ok(CachedSignature(signature))
  {
    var signed;
    a, signed := UnreportedRun(lib, pin, destination, op, external, change, requestId, bytes, signature);
    LoneEntryExposure(a.ledger[0]);
    ExampleClassification(pin, destination, external, change);
    ExamplePsbtIsProper(lib, pin, destination, op, external, change);
    LoneRecordAnswers(lib, pin, ExampleRequest(requestId, bytes, external),
                      ExamplePsbt(pin, destination, op, external, change), MatureChain(pin, op),
                      signed, Samples(WhenReported, a.ledger));
  }

  // ----- A sample that is made up for -----

  function RetriedEvents(pin: AgentPin, op: OutPoint, external: U64, requestId: Bytes16, bytes: seq<Byte>,
                         signature: seq<Byte>): seq<AgentEvent>
    requires pin.Provisioned()
  {
    UnreportedEvents(pin, op, external, requestId, bytes, signature) + [Crashed(0)]
    + [Evaluated(ExampleRequest(requestId, bytes, external), true, MatureChain(pin, op)),
       Committed(0, signature, ALL_DONE)]
  }

  /** Evaluate, fail to write, crash. */
  lemma {:induction false} CrashedRun(lib: Library, pin: AgentPin, destination: Script, op: OutPoint,
                                      external: U64, change: U64, requestId: Bytes16, bytes: seq<Byte>,
                                      signature: seq<Byte>)
    returns (a: AgentState)
    requires pin.Provisioned() && ParsesExample(lib, pin, destination, op, external, change, bytes)
    requires signature != []
    ensures AgentRun(lib, pin, WhenReported, NewAgent(lib),
                     UnreportedEvents(pin, op, external, requestId, bytes, signature) + [Crashed(0)])
         == Ok(a)
    ensures a.store == EmptyStore(lib) && a.pending == [] && |a.ledger| == 1
    ensures a.ledger[0].record == ExampleRecord(lib, pin, destination, op, external, change, requestId, bytes)
                                  .(payload := Signed(signature))
    ensures a.ledger[0].charged == external && !a.ledger[0].reported
  {
    var t := ExampleTicket(lib, pin, destination, op, external, change, requestId, bytes, 0);
    assert Samples(WhenReported, NewAgent(lib).ledger) == [];
    EvaluateAndCommit(lib, pin, WhenReported, NewAgent(lib), destination, op, external, change, requestId, bytes,
                      signature, WRITE_FAILS);
    CrashForgets(lib, pin, WhenReported, NewAgent(lib).(pending := [t]), t, signature);
    RunInParts(lib, pin, WhenReported, NewAgent(lib),
               UnreportedEvents(pin, op, external, requestId, bytes, signature), [Crashed(0)]);
    a := AgentRun(lib, pin, WhenReported, NewAgent(lib),
                  UnreportedEvents(pin, op, external, requestId, bytes, signature) + [Crashed(0)]).value;
  }

  /** If the same spend is committed again, and reported, its sample covers both signatures: the first entry is
      charged and was never sampled, and yet nothing is missed. */
  lemma {:induction false} RetryMakesUpForTheSample(lib: Library, pin: AgentPin, destination: Script, op: OutPoint,
                                                    external: U64, change: U64, requestId: Bytes16, bytes: seq<Byte>,
                                                    signature: seq<Byte>)
    returns (a: AgentState)
    requires pin.Provisioned() && ParsesExample(lib, pin, destination, op, external, change, bytes)
    requires external > 0 && signature != []
    ensures AgentRun(lib, pin, WhenReported, NewAgent(lib),
                     RetriedEvents(pin, op, external, requestId, bytes, signature))
         == Ok(a)
    ensures |a.ledger| == 2 && a.ledger[0].charged > 0 && !Sampled(WhenReported, a.ledger[0])
    ensures SpendsSampled(WhenReported, a.ledger)
  {
    var crashed := CrashedRun(lib, pin, destination, op, external, change, requestId, bytes, signature);
    var t := ExampleTicket(lib, pin, destination, op, external, change, requestId, bytes, 1);
    assert crashed.ledger[..0] == [] && Samples(WhenReported, crashed.ledger) == [];
    EvaluateAndCommit(lib, pin, WhenReported, crashed, destination, op, external, change, requestId, bytes,
                      signature, ALL_DONE);
    NothingStoredIsFresh(t.record);
    FreshCommit(lib, crashed.(pending := [t]), t, signature, ALL_DONE);
    RunInParts(lib, pin, WhenReported, NewAgent(lib),
               UnreportedEvents(pin, op, external, requestId, bytes, signature) + [Crashed(0)],
               [Evaluated(ExampleRequest(requestId, bytes, external), true, MatureChain(pin, op)),
                Committed(0, signature, ALL_DONE)]);
    a := CommitTicket(lib, crashed.(pending := [t]), t, signature, ALL_DONE);
    SameSpendIsSampled(pin, destination, external, change, a.ledger);
  }

  lemma {:induction false} SameSpendIsSampled(pin: AgentPin, destination: Script, external: U64, change: U64,
                                              ledger: seq<Entry>)
    requires destination != pin.scriptPubkey
    requires |ledger| == 2 && ledger[0].record == ledger[1].record
    requires ledger[0].record.outputs == ExampleOutputs(pin, destination, external, change)
    requires ledger[0].record.vaultScript == pin.scriptPubkey
    requires Sampled(WhenReported, ledger[1]) && ledger[1].charged == external
    ensures SpendsSampled(WhenReported, ledger)
  {
    ExampleClassification(pin, destination, external, change);
    assert SamplesSpend(WhenReported, ledger[1], ledger[0].record);
    forall k | 0 <= k < |ledger|
      ensures SpendSampled(WhenReported, ledger, k)
    {
      assert ledger[k].record == ledger[0].record;
    }
  }

  // ----- A store that forgets -----

  /** Evaluate, fail to write, crash: the store is as before, the signature exists. */
  function ForgetfulCycle(pin: AgentPin, op: OutPoint, requestId: Bytes16, bytes: seq<Byte>, signature: seq<Byte>)
    : seq<AgentEvent>
    requires pin.Provisioned()
  {
    UnreportedEvents(pin, op, 0, requestId, bytes, signature) + [Crashed(0)]
  }

  function ForgetfulEvents(pin: AgentPin, op: OutPoint, requestId: Bytes16, bytes: seq<Byte>, signature: seq<Byte>,
                           n: nat)
    : seq<AgentEvent>
    requires pin.Provisioned()
  {
    if n == 0 then []
    else ForgetfulCycle(pin, op, requestId, bytes, signature) + ForgetfulEvents(pin, op, requestId, bytes, signature,
                                                                                n - 1)
  }

  function ForgottenRecord(lib: Library, pin: AgentPin, destination: Script, op: OutPoint, change: U64,
                           requestId: Bytes16, bytes: seq<Byte>, signature: seq<Byte>): Record
  {
    ExampleRecord(lib, pin, destination, op, 0, change, requestId, bytes).(payload := Signed(signature))
  }

  /** An agent with nothing stored and no tickets, whose ledger repeats one record at no charge. */
  ghost predicate Forgetful(lib: Library, a: AgentState, r: Record) {
    && a.store == EmptyStore(lib) && a.pending == []
    && forall i :: 0 <= i < |a.ledger| ==> a.ledger[i].record == r && a.ledger[i].charged == 0
  }

  lemma {:induction false} NoChargeNoSum(rule: SampleRule, ledger: seq<Entry>, tip: nat)
    requires forall i :: 0 <= i < |ledger| ==> ledger[i].charged == 0
    ensures WindowSum(Samples(rule, ledger), tip) == 0
  {
    if ledger == [] {
    } else {
      var n := |ledger| - 1;
      NoChargeNoSum(rule, ledger[..n], tip);
      var before := Samples(rule, ledger[..n]);
      var sample := VelocitySample(ledger[n].tip, ledger[n].charged);
      assert (before + [sample])[..|before|] == before;
    }
  }

  lemma {:induction false} CycleForgets(lib: Library, pin: AgentPin, rule: SampleRule, a: AgentState,
                                        destination: Script,
                                        op: OutPoint, change: U64, requestId: Bytes16, bytes: seq<Byte>,
                                        signature: seq<Byte>)
    requires pin.Provisioned() && ParsesExample(lib, pin, destination, op, 0, change, bytes)
    requires signature != []
    requires Forgetful(lib, a, ForgottenRecord(lib, pin, destination, op, change, requestId, bytes, signature))
    ensures var r := AgentRun(lib, pin, rule, a, ForgetfulCycle(pin, op, requestId, bytes, signature));
            && r.Ok? && |r.value.ledger| == |a.ledger| + 1
            && Forgetful(lib, r.value, ForgottenRecord(lib, pin, destination, op, change, requestId, bytes, signature))
  {
    var t := ExampleTicket(lib, pin, destination, op, 0, change, requestId, bytes, |a.ledger|);
    NoChargeNoSum(rule, a.ledger, MatureChain(pin, op).tipHeight);
    EvaluateAndCommit(lib, pin, rule, a, destination, op, 0, change, requestId, bytes, signature, WRITE_FAILS);
    CrashForgets(lib, pin, rule, a.(pending := [t]), t, signature);
    RunInParts(lib, pin, rule, a, UnreportedEvents(pin, op, 0, requestId, bytes, signature), [Crashed(0)]);
  }

  /** An unwritten commit, then a crash: an empty store again, and one more entry. */
  lemma {:induction false} CrashForgets(lib: Library, pin: AgentPin, rule: SampleRule, a: AgentState, t: Ticket,
                                        signature: seq<Byte>)
    requires a.store == EmptyStore(lib) && signature != []
    ensures var entry := Entry(t.record.(payload := Signed(signature)), t.tip, Charged(t.verdict, t.externalSats),
                               false);
            AgentRun(lib, pin, rule, CommitTicket(lib, a, t, signature, WRITE_FAILS), [Crashed(0)])
            == Ok(AgentState(EmptyStore(lib), [], a.ledger + [entry]))
  {
    NothingStoredIsFresh(t.record);
    FreshCommit(lib, a, t, signature, WRITE_FAILS);
    UnwrittenCommitIsForgotten(lib, a.store, t.record.(payload := Signed(signature)));
    RunOfOne(lib, pin, rule, CommitTicket(lib, a, t, signature, WRITE_FAILS), Crashed(0));
  }

  lemma {:induction false} UnwrittenCommitIsForgotten(lib: Library, s: StoreState, r: Record)
    requires s == EmptyStore(lib)
    ensures Reopen(lib, CommitStep(lib, s, r, WRITE_FAILS).0, 0) == Ok(EmptyStore(lib))
  {
  }

  lemma {:induction false} CyclesForget(lib: Library, pin: AgentPin, rule: SampleRule, a: AgentState,
                                        destination: Script,
                                        op: OutPoint, change: U64, requestId: Bytes16, bytes: seq<Byte>,
                                        signature: seq<Byte>,
                                        n: nat)
    requires pin.Provisioned() && ParsesExample(lib, pin, destination, op, 0, change, bytes)
    requires signature != []
    requires Forgetful(lib, a, ForgottenRecord(lib, pin, destination, op, change, requestId, bytes, signature))
    ensures var r := AgentRun(lib, pin, rule, a, ForgetfulEvents(pin, op, requestId, bytes, signature, n));
            && r.Ok? && |r.value.ledger| == |a.ledger| + n
            && Forgetful(lib, r.value, ForgottenRecord(lib, pin, destination, op, change, requestId, bytes, signature))
    decreases n
  {
    if n == 0 {
    } else {
      var cycle := ForgetfulCycle(pin, op, requestId, bytes, signature);
      CycleForgets(lib, pin, rule, a, destination, op, change, requestId, bytes, signature);
      var next := AgentRun(lib, pin, rule, a, cycle).value;
      CyclesForget(lib, pin, rule, next, destination, op, change, requestId, bytes, signature, n - 1);
      RunInParts(lib, pin, rule, a, cycle, ForgetfulEvents(pin, op, requestId, bytes, signature, n - 1));
    }
  }

  lemma {:induction false} RepeatedRecordCount(records: seq<Record>, r: Record, n: nat)
    requires n <= |records| && r.outpoints != []
    requires forall i :: 0 <= i < |records| ==> records[i] == r
    ensures ConflictCount(records, r, n) == n
  {
    if n == 0 {
    } else {
      RepeatedRecordCount(records, r, n - 1);
      SameCoinsOverlap(records[n - 1].outpoints, r.outpoints);
    }
  }

  lemma {:induction false} ForgetfulEventsAreStable(lib: Library, pin: AgentPin, destination: Script, op: OutPoint,
                                                    change: U64,
                                                    requestId: Bytes16, bytes: seq<Byte>, signature: seq<Byte>,
                                                    value: OutPoint -> nat, n: nat)
    requires pin.Provisioned() && ParsesExample(lib, pin, destination, op, 0, change, bytes) && value(op) == COIN
    ensures StableEvents(lib, value, ForgetfulEvents(pin, op, requestId, bytes, signature, n))
  {
    if n == 0 {
    } else {
      ForgetfulEventsAreStable(lib, pin, destination, op, change, requestId, bytes, signature, value, n - 1);
      var cycle := ForgetfulCycle(pin, op, requestId, bytes, signature);
      assert OutPointsOf(ExamplePsbt(pin, destination, op, 0, change).unsignedTx) == [op];
      assert StableEvents(lib, value, cycle);
    }
  }

  /** With an external output that has no dust limit and carries nothing, the same coins can be signed any number
      of times, with stable values and distinct inputs: the bound on all signatures needs that no crash drops one. */
  lemma {:induction false} ForgottenBumpsAreUnbounded(lib: Library, pin: AgentPin, rule: SampleRule,
                                                      destination: Script,
                                                      op: OutPoint, change: U64, requestId: Bytes16, bytes: seq<Byte>,
                                                      signature: seq<Byte>, value: OutPoint -> nat, n: nat)
    requires pin.Provisioned() && ParsesExample(lib, pin, destination, op, 0, change, bytes)
    requires signature != [] && value(op) == COIN && n > 0
    ensures StableEvents(lib, value, ForgetfulEvents(pin, op, requestId, bytes, signature, n))
    ensures var r := AgentRun(lib, pin, rule, NewAgent(lib), ForgetfulEvents(pin, op, requestId, bytes, signature, n));
            && r.Ok?
            && var all := Recorded(r.value.ledger);
            && |all| == n && ConflictCount(all, all[0], n) == n
  {
    ForgetfulEventsAreStable(lib, pin, destination, op, change, requestId, bytes, signature, value, n);
    CyclesForget(lib, pin, rule, NewAgent(lib), destination, op, change, requestId, bytes, signature, n);
    var all := Recorded(AgentRun(lib, pin, rule, NewAgent(lib), ForgetfulEvents(pin, op, requestId, bytes, signature,
                                                                                n)).value.ledger);
    RepeatedRecordCount(all, all[0], n);
  }
}
