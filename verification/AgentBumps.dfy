/** Fee bumps: what an honest one gets, after any run. */
module AgentBumps {
  import opened Basics
  import opened Bitcoin
  import opened Encoding
  import opened Pin
  import opened Velocity
  import opened Replay
  import opened Evaluate
  import opened EvaluateProofs
  import opened EvaluateExact
  import opened Agent
  import opened AgentExposure
  import opened AgentVelocity

  // ----- Any proper bump of a stored record -----

  /** The bump pays the same external output and gives the vault less change than every stored record of
      the same coins did. */
  ghost predicate LowersChangeOnly(pin: AgentPin, records: seq<Record>, original: Record, outputs: seq<TxOut>) {
    var was, now := ClassifyOutputs(original.outputs, pin.scriptPubkey), ClassifyOutputs(outputs, pin.scriptPubkey);
    && was.Some? && now.Some? && was.value.external == now.value.external
    && forall k :: 0 <= k < |records| && OutpointsOverlap(records[k].outpoints, original.outpoints) ==>
                   now.value.changeSats < ChangeOf(records[k])
  }

  /** A proper PSBT over the coins of a stored record, under an unused request id, that lowers its change
      only. Its input maps and the order of its inputs are its own. */
  ghost predicate ProperBump(lib: Library, pin: AgentPin, records: seq<Record>, original: Record,
                             bump: PolicyRequest, psbt: Psbt, chain: ChainView, am: AmountBreakdown)
  {
    && lib.parsePsbt(bump.psbtBytes) == Some(psbt)
    && ProperPsbt(lib, pin, chain, psbt) && chain.genesisHash == pin.genesisHash
    && Elements(OutPointsOf(psbt.unsignedTx)) == Elements(original.outpoints)
    && FindRequest(records, bump.requestId).None?
    && LowersChangeOnly(pin, records, original, psbt.unsignedTx.outputs)
    && ProperAmounts(lib, pin, chain, psbt.unsignedTx, am)
    && bump.claimedExternalSats == am.externalSats
    && ConfirmedIfLarge(lib, pin, bump, psbt.unsignedTx, am.externalSats)
    && NoneCollides(lib, records, psbt.unsignedTx.outputs)
  }

  /** SHA256 does not make the commitments of different outputs collide. */
  ghost predicate NoneCollides(lib: Library, records: seq<Record>, outputs: seq<TxOut>) {
    forall k :: 0 <= k < |records| ==> lib.NoCollision(EncodeOutputs(records[k].outputs), EncodeOutputs(outputs))
  }

  ghost predicate Shaped(lib: Library, pin: AgentPin, records: seq<Record>) {
    forall k :: 0 <= k < |records| ==> PolicyShape(lib, pin, records[k])
  }

  /** An earlier record of the same coins, with more change, is superseded by the bump. */
  lemma {:induction false} StoreAllowsBump(lib: Library, pin: AgentPin, records: seq<Record>, i: nat, candidate: Record)
    requires Consistent(records) && i < |records| && Shaped(lib, pin, records)
    requires candidate.vaultScript == pin.scriptPubkey
    requires candidate.outputsCommitment == OutputsCommitment(lib, candidate.outputs)
    requires Elements(candidate.outpoints) == Elements(records[i].outpoints)
    requires LowersChangeOnly(pin, records, records[i], candidate.outputs)
    requires FindRequest(records, candidate.requestId).None?
    requires NoneCollides(lib, records, candidate.outputs)
    ensures PreflightVerdict(records, candidate) == Ok(FeeBump)
  {
    forall k | 0 <= k < |records|
      ensures !Blocks(records[k], candidate)
    {
      if OutpointsOverlap(records[k].outpoints, candidate.outpoints) {
        BumpSupersedes(lib, pin, records, i, k, candidate);
        DifferentChangeDifferentCommitment(lib, records, k, candidate);
      }
    }
    SameCoinsOverlap(records[i].outpoints, candidate.outpoints);
  }

  lemma {:induction false} BumpSupersedes(lib: Library, pin: AgentPin, records: seq<Record>, i: nat, k: nat,
                                          candidate: Record)
    requires Consistent(records) && i < |records| && k < |records|
    requires PolicyShape(lib, pin, records[i]) && PolicyShape(lib, pin, records[k])
    requires candidate.vaultScript == pin.scriptPubkey
    requires Elements(candidate.outpoints) == Elements(records[i].outpoints)
    requires LowersChangeOnly(pin, records, records[i], candidate.outputs)
    requires OutpointsOverlap(records[k].outpoints, candidate.outpoints)
    ensures IsVaultChangeOnly(records[k], candidate)
  {
    assert OutpointsOverlap(records[k].outpoints, records[i].outpoints);
    ConflictMeansSameSpend(records, k, i);
    assert records[k].outpoints[0] in Elements(records[k].outpoints);
  }

  /** What a bump gets that only the window check can refuse. It is charged nothing, so the window must be within
      the cap as it is. */
  function BumpAnswer(lib: Library, pin: AgentPin, bump: PolicyRequest, psbt: Psbt, tip: U32, am: AmountBreakdown,
                      samples: seq<VelocitySample>): PolicyResult<PolicyOutcome>
  {
    if WindowSum(samples, tip) <= 50_000_000
    then Ok(ValidatedUnsigned(FeeBump, FromPin(lib, pin, bump.requestId, psbt, bump.psbtBytes), am))
    else Err(PolicyErrorCode.Velocity)
  }

  /** In a state with the invariants of a run, that is what a proper bump of any stored record gets. */
  lemma {:induction false} ProperBumpIsDecidedIn(lib: Library, pin: AgentPin, a: AgentState,
                                                 samples: seq<VelocitySample>,
                                                 i: nat, bump: PolicyRequest, psbt: Psbt, chain: ChainView,
                                                 am: AmountBreakdown)
    requires pin.Provisioned() && AgentInv(lib, pin, a)
    requires i < |a.store.memory|
    requires ProperBump(lib, pin, a.store.memory, a.store.memory[i], bump, psbt, chain, am)
    ensures Evaluation(lib, pin, bump, true, chain, a.store.memory, samples)
         == BumpAnswer(lib, pin, bump, psbt, chain.tipHeight, am, samples)
  {
    var memory := a.store.memory;
    var candidate := FromPin(lib, pin, bump.requestId, psbt, bump.psbtBytes);
    assert Shaped(lib, pin, memory);
    StoreAllowsBump(lib, pin, memory, i, candidate);
    assert ProperRequest(lib, pin, bump, chain, memory, [], FeeBump, candidate, am);
    EvaluationIsExact(lib, pin, bump, true, chain, memory, [], FeeBump, candidate, am);
    SamplesDecideTheWindow(lib, pin, bump, true, chain, memory, [], samples, FeeBump, candidate, am);
  }

  /** So after any run, whichever way the caller samples: a proper bump of a stored record is accepted exactly
      when the window of its tip is within the cap, and otherwise it is refused by velocity. */
  lemma {:induction false} ProperBumpIsDecided(lib: Library, pin: AgentPin, rule: SampleRule, events: seq<AgentEvent>,
                                               a: AgentState, i: nat, bump: PolicyRequest, psbt: Psbt,
                                               chain: ChainView, am: AmountBreakdown)
    requires lib.OutPointTextRoundTrips() && pin.Provisioned()
    requires AgentRun(lib, pin, rule, NewAgent(lib), events) == Ok(a)
    requires i < |a.store.memory|
    requires ProperBump(lib, pin, a.store.memory, a.store.memory[i], bump, psbt, chain, am)
    ensures Evaluation(lib, pin, bump, true, chain, a.store.memory, Samples(rule, a.ledger))
         == BumpAnswer(lib, pin, bump, psbt, chain.tipHeight, am, Samples(rule, a.ledger))
  {
    NewAgentHasInv(lib, pin);
    RunKeepsInv(lib, pin, rule, NewAgent(lib), events);
    ProperBumpIsDecidedIn(lib, pin, a, Samples(rule, a.ledger), i, bump, psbt, chain, am);
  }

  /** After a run in order every window is within the cap, and the bump is accepted. */
  lemma {:induction false} ProperBumpIsAccepted(lib: Library, pin: AgentPin, rule: SampleRule, events: seq<AgentEvent>,
                                                tip: U32, a: AgentState, i: nat, bump: PolicyRequest, psbt: Psbt,
                                                chain: ChainView, am: AmountBreakdown)
    requires lib.OutPointTextRoundTrips() && pin.Provisioned()
    requires InOrder(lib, pin, rule, NewAgent(lib), events, tip)
    requires AgentRun(lib, pin, rule, NewAgent(lib), events) == Ok(a)
    requires i < |a.store.memory|
    requires ProperBump(lib, pin, a.store.memory, a.store.memory[i], bump, psbt, chain, am)
    ensures Evaluation(lib, pin, bump, true, chain, a.store.memory, Samples(rule, a.ledger))
         == Ok(ValidatedUnsigned(FeeBump, FromPin(lib, pin, bump.requestId, psbt, bump.psbtBytes), am))
  {
    ProperBumpIsDecided(lib, pin, rule, events, a, i, bump, psbt, chain, am);
    EverySampledWindowIsWithinCap(lib, pin, rule, events, tip);
    assert WindowSum(Samples(rule, a.ledger), chain.tipHeight) <= pin.velocityPer144Sats;
  }

  // ----- The bump of an accepted spend, later -----

  /** The facts about these coins still hold, and neither tip nor clock has gone back. */
  predicate FactsStillHold(before: ChainView, after: ChainView, ops: seq<OutPoint>) {
    && before.genesisHash == after.genesisHash
    && before.tipHeight <= after.tipHeight < U32_MAX
    && before.nowUnix <= after.nowUnix
    && forall op :: op in ops ==> FindFact(after.prevouts, op) == FindFact(before.prevouts, op)
  }

  lemma {:induction false} ProperInputPersists(lib: Library, pin: AgentPin, before: ChainView, after: ChainView,
                                               input: PsbtInput, txin: TxIn)
    requires ProperPsbtInput(lib, pin, before, input, txin)
    requires FindFact(after.prevouts, txin.previousOutput) == FindFact(before.prevouts, txin.previousOutput)
    requires before.tipHeight <= after.tipHeight < U32_MAX && before.nowUnix <= after.nowUnix
    ensures ProperPsbtInput(lib, pin, after, input, txin)
  {
  }

  /** A proper PSBT stays proper while the facts hold: maturity is never lost. */
  lemma {:induction false} ProperPsbtPersists(lib: Library, pin: AgentPin, before: ChainView, after: ChainView,
                                              psbt: Psbt)
    requires ProperPsbt(lib, pin, before, psbt)
    requires FactsStillHold(before, after, OutPointsOf(psbt.unsignedTx))
    ensures ProperPsbt(lib, pin, after, psbt)
  {
    var tx := psbt.unsignedTx;
    forall i | 0 <= i < |psbt.inputs|
      ensures ProperPsbtInput(lib, pin, after, psbt.inputs[i], tx.inputs[i])
    {
      assert OutPointsOf(tx)[i] == tx.inputs[i].previousOutput;
      ProperInputPersists(lib, pin, before, after, psbt.inputs[i], tx.inputs[i]);
    }
  }

  /** What a caller brings to bump a spend: a PSBT over the same coins, in any order and with its own input
      maps, that was already proper when the spend was accepted; lower change that is not dust; a fee
      within the cap; the right claim, and a valid token where one is needed. */
  ghost predicate HonestBump(lib: Library, pin: AgentPin, records: seq<Record>, original: Record, am: AmountBreakdown,
                             bump: PolicyRequest, psbt: Psbt, before: ChainView)
  {
    && lib.parsePsbt(bump.psbtBytes) == Some(psbt)
    && ProperPsbt(lib, pin, before, psbt)
    && multiset(OutPointsOf(psbt.unsignedTx)) == multiset(original.outpoints)
    && FindRequest(records, bump.requestId).None?
    && LowersChangeOnly(pin, records, original, psbt.unsignedTx.outputs)
    && bump.claimedExternalSats == am.externalSats
    && var change := ClassifyOutputs(psbt.unsignedTx.outputs, pin.scriptPubkey).value.changeSats;
    && (change == 0 || change >= lib.minimalNonDust(pin.scriptPubkey))
    && am.feeSats + am.changeSats - change <= MAX_POLICY_FEE_SATS
    && ConfirmedIfLarge(lib, pin, bump, psbt.unsignedTx, am.externalSats)
    && NoneCollides(lib, records, psbt.unsignedTx.outputs)
  }

  /** The amounts of the bump: the fee rises by what the change drops. */
  function BumpedAmounts(pin: AgentPin, am: AmountBreakdown, outputs: seq<TxOut>): AmountBreakdown
    requires ClassifyOutputs(outputs, pin.scriptPubkey).Some?
    requires ClassifyOutputs(outputs, pin.scriptPubkey).value.changeSats <= am.changeSats
    requires am.feeSats + am.changeSats <= U64_MAX
  {
    var change := ClassifyOutputs(outputs, pin.scriptPubkey).value.changeSats;
    am.(changeSats := change, feeSats := am.feeSats + (am.changeSats - change))
  }

  lemma {:induction false} SameCoinsSameWorth(before: ChainView, after: ChainView, a: seq<OutPoint>, b: seq<OutPoint>)
    requires multiset(a) == multiset(b)
    requires forall op :: op in a ==> FindFact(after.prevouts, op) == FindFact(before.prevouts, op)
    ensures Elements(a) == Elements(b)
    ensures SumBy(CoinValues(after), b) == SumBy(CoinValues(before), a)
  {
    forall op
      ensures op in a <==> op in b
    {
      assert op in a <==> op in multiset(a);
      assert op in b <==> op in multiset(b);
    }
    SumPointwise(CoinValues(after), a, CoinValues(before), a);
    SumOfPermutation(CoinValues(after), a, b);
  }

  /** An honest bump is a proper one, with those amounts. */
  lemma {:induction false} HonestBumpIsProper(lib: Library, pin: AgentPin, records: seq<Record>, original: Record,
                                              tx: Transaction, am: AmountBreakdown, before: ChainView,
                                              bump: PolicyRequest, psbt: Psbt, after: ChainView)
    requires original.outpoints == OutPointsOf(tx) && original.outputs == tx.outputs
    requires ProperAmounts(lib, pin, before, tx, am) && before.genesisHash == pin.genesisHash
    requires HonestBump(lib, pin, records, original, am, bump, psbt, before)
    requires ClassifyOutputs(psbt.unsignedTx.outputs, pin.scriptPubkey).value.changeSats < am.changeSats
    requires FactsStillHold(before, after, original.outpoints)
    ensures ProperBump(lib, pin, records, original, bump, psbt, after, BumpedAmounts(pin, am, psbt.unsignedTx.outputs))
  {
    var ops := OutPointsOf(psbt.unsignedTx);
    SameCoinsSameWorth(before, after, original.outpoints, ops);
    assert forall op :: op in ops ==> op in Elements(ops);
    ProperPsbtPersists(lib, pin, before, after, psbt);
  }

  /** After any run, take a spend that was once accepted and whose signature is in the store. An honest bump of
      it, while the facts about its coins hold, is refused by nothing but a window that is already over the
      cap: not by maturity, not by the fee-bump policy. */
  lemma {:induction false} HonestBumpIsDecided(
    lib: Library, pin: AgentPin, rule: SampleRule, events: seq<AgentEvent>, a: AgentState,
    request: PolicyRequest, before: ChainView, records: seq<Record>, samples: seq<VelocitySample>,
    verdict: Verdict, original: Record, am: AmountBreakdown, i: nat, signature: seq<Byte>,
    bump: PolicyRequest, psbt: Psbt, after: ChainView)
    requires lib.OutPointTextRoundTrips() && pin.Provisioned()
    requires AgentRun(lib, pin, rule, NewAgent(lib), events) == Ok(a)
    requires ProperRequest(lib, pin, request, before, records, samples, verdict, original, am)
    requires i < |a.store.memory| && a.store.memory[i] == original.(payload := Signed(signature))
    requires HonestBump(lib, pin, a.store.memory, original, am, bump, psbt, before)
    requires FactsStillHold(before, after, original.outpoints)
    ensures ClassifyOutputs(psbt.unsignedTx.outputs, pin.scriptPubkey).value.changeSats < am.changeSats
    ensures am.feeSats + am.changeSats <= U64_MAX
    ensures Evaluation(lib, pin, bump, true, after, a.store.memory, Samples(rule, a.ledger))
         == BumpAnswer(lib, pin, bump, psbt, after.tipHeight, BumpedAmounts(pin, am, psbt.unsignedTx.outputs),
                       Samples(rule, a.ledger))
  {
    var tx := lib.parsePsbt(request.psbtBytes).value.unsignedTx;
    assert |original.outpoints| == |tx.inputs| > 0;
    SameCoinsOverlap(a.store.memory[i].outpoints, original.outpoints);
    HonestBumpIsProper(lib, pin, a.store.memory, original, tx, am, before, bump, psbt, after);
    StoredBumpIsProper(lib, pin, a.store.memory, i, original, signature, bump, psbt, after,
                       BumpedAmounts(pin, am, psbt.unsignedTx.outputs));
    ProperBumpIsDecided(lib, pin, rule, events, a, i, bump, psbt, after,
                        BumpedAmounts(pin, am, psbt.unsignedTx.outputs));
  }

  /** After a run in order it is always accepted. */
  lemma {:induction false} HonestBumpIsAccepted(
    lib: Library, pin: AgentPin, rule: SampleRule, events: seq<AgentEvent>, tip: U32, a: AgentState,
    request: PolicyRequest, before: ChainView, records: seq<Record>, samples: seq<VelocitySample>,
    verdict: Verdict, original: Record, am: AmountBreakdown, i: nat, signature: seq<Byte>,
    bump: PolicyRequest, psbt: Psbt, after: ChainView)
    requires lib.OutPointTextRoundTrips() && pin.Provisioned()
    requires InOrder(lib, pin, rule, NewAgent(lib), events, tip)
    requires AgentRun(lib, pin, rule, NewAgent(lib), events) == Ok(a)
    requires ProperRequest(lib, pin, request, before, records, samples, verdict, original, am)
    requires i < |a.store.memory| && a.store.memory[i] == original.(payload := Signed(signature))
    requires HonestBump(lib, pin, a.store.memory, original, am, bump, psbt, before)
    requires FactsStillHold(before, after, original.outpoints)
    ensures ClassifyOutputs(psbt.unsignedTx.outputs, pin.scriptPubkey).value.changeSats < am.changeSats
    ensures am.feeSats + am.changeSats <= U64_MAX
    ensures Evaluation(lib, pin, bump, true, after, a.store.memory, Samples(rule, a.ledger))
         == Ok(ValidatedUnsigned(FeeBump, FromPin(lib, pin, bump.requestId, psbt, bump.psbtBytes),
                                 BumpedAmounts(pin, am, psbt.unsignedTx.outputs)))
  {
    HonestBumpIsDecided(lib, pin, rule, events, a, request, before, records, samples, verdict, original, am, i,
                        signature, bump, psbt, after);
    EverySampledWindowIsWithinCap(lib, pin, rule, events, tip);
    assert WindowSum(Samples(rule, a.ledger), after.tipHeight) <= pin.velocityPer144Sats;
  }

  /** It does not matter that the stored record carries the signature. */
  lemma {:induction false} StoredBumpIsProper(lib: Library, pin: AgentPin, records: seq<Record>, i: nat,
                                              original: Record,
                                              signature: seq<Byte>, bump: PolicyRequest, psbt: Psbt, chain: ChainView,
                                              am: AmountBreakdown)
    requires i < |records| && records[i] == original.(payload := Signed(signature))
    requires ProperBump(lib, pin, records, original, bump, psbt, chain, am)
    ensures ProperBump(lib, pin, records, records[i], bump, psbt, chain, am)
  {
  }
}
