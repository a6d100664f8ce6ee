/** What an accepted evaluation guarantees, and the agreement of the two fee-bump checks. */
module EvaluateProofs {
  import opened Basics
  import opened Bitcoin
  import opened Encoding
  import opened Pin
  import opened Structure
  import opened Velocity
  import opened Replay
  import opened Evaluate

  // ----- The stages, as one condition -----

  lemma {:induction false} ValidationMeans(lib: Library, pin: AgentPin, request: PolicyRequest, chain: ChainView,
                        records: seq<Record>, samples: seq<VelocitySample>, psbt: Psbt,
                        candidate: Record, verdict: Verdict, am: AmountBreakdown)
    requires |psbt.inputs| == |psbt.unsignedTx.inputs|
    ensures Validation(lib, pin, request, chain, records, samples, psbt, candidate, verdict) == Ok(am) <==>
            var prevouts := PrevoutsOf(lib, psbt, |psbt.inputs|);
            && RequireShape(psbt).Ok?
            && prevouts.Ok?
            && AmountsOf(pin, psbt.unsignedTx, prevouts.value) == Ok(am)
            && CheckFee(am).Ok?
            && InputsVerdict(pin, chain, psbt, prevouts.value).Ok?
            && AmountsVerdict(lib, pin, request, chain, records, samples, psbt.unsignedTx, candidate, verdict, am).Ok?
  {
  }

  lemma {:induction false} PinStageMeans(pin: AgentPin, psbt: Psbt, prevouts: seq<TxOut>)
    requires |psbt.inputs| == |prevouts|
    ensures CheckInputsAgainstPin(pin, psbt, prevouts).Ok? <==>
            forall i :: 0 <= i < |prevouts| ==> InputMatchesPin(pin, psbt.inputs[i], prevouts[i]).Ok?
  {
    var checks := PinChecks(pin, psbt, prevouts);
    assert forall i :: 0 <= i < |prevouts| ==> checks[i] == InputMatchesPin(pin, psbt.inputs[i], prevouts[i]);
  }

  lemma {:induction false} RecoveryStageMeans(pin: AgentPin, psbt: Psbt)
    requires |psbt.inputs| == |psbt.unsignedTx.inputs|
    ensures CheckRecoveryPath(pin, psbt).Ok? <==>
            forall i :: 0 <= i < |psbt.inputs| ==>
              RecoveryPathInput(pin, psbt.inputs[i], psbt.unsignedTx.inputs[i].sequence).Ok?
  {
    var checks := RecoveryChecks(pin, psbt);
    assert forall i :: 0 <= i < |psbt.inputs| ==>
      checks[i] == RecoveryPathInput(pin, psbt.inputs[i], psbt.unsignedTx.inputs[i].sequence);
  }

  lemma {:induction false} CsvStageMeans(pin: AgentPin, chain: ChainView, tx: Transaction)
    requires ChainKnows(chain, tx)
    ensures CheckCsvForInputs(pin, chain, tx).Ok? <==>
            forall i :: 0 <= i < |tx.inputs| ==>
              CsvOfFact(pin, chain, FindFact(chain.prevouts, tx.inputs[i].previousOutput).value).Ok?
  {
    var checks := CsvChecks(pin, chain, tx);
    assert forall i :: 0 <= i < |tx.inputs| ==>
      checks[i] == CsvOfFact(pin, chain, FindFact(chain.prevouts, tx.inputs[i].previousOutput).value);
  }

  /** The input stages pass exactly when the genesis matches and each input passes its own. */
  lemma {:induction false} InputsVerdictMeans(pin: AgentPin, chain: ChainView, psbt: Psbt, prevouts: seq<TxOut>)
    requires |psbt.inputs| == |psbt.unsignedTx.inputs| == |prevouts|
    ensures InputsVerdict(pin, chain, psbt, prevouts).Ok? <==>
            && chain.genesisHash == pin.genesisHash
            && forall i :: 0 <= i < |psbt.inputs| ==>
                 InputStages(pin, chain, psbt.inputs[i], psbt.unsignedTx.inputs[i], prevouts[i])
  {
    var tx := psbt.unsignedTx;
    PinStageMeans(pin, psbt, prevouts);
    ChainStageFindsFacts(pin, chain, tx, prevouts);
    RecoveryStageMeans(pin, psbt);
    if CheckChainPrevouts(pin, chain, tx, prevouts).Ok? {
      CsvStageMeans(pin, chain, tx);
      assert forall i :: 0 <= i < |tx.inputs| ==>
        PrevoutOnChain(pin, chain, tx.inputs[i].previousOutput, prevouts[i]).Ok?;
    }
    if forall i :: 0 <= i < |psbt.inputs| ==> InputStages(pin, chain, psbt.inputs[i], tx.inputs[i], prevouts[i]) {
      forall i | 0 <= i < |tx.inputs|
        ensures InputMatchesPin(pin, psbt.inputs[i], prevouts[i]).Ok?
        ensures PrevoutOnChain(pin, chain, tx.inputs[i].previousOutput, prevouts[i]).Ok?
        ensures RecoveryPathInput(pin, psbt.inputs[i], tx.inputs[i].sequence).Ok?
      {
        assert InputStages(pin, chain, psbt.inputs[i], tx.inputs[i], prevouts[i]);
      }
    }
  }

  /** All the stages that one input goes through. */
  predicate InputStages(pin: AgentPin, chain: ChainView, input: PsbtInput, txin: TxIn, prevout: TxOut) {
    && InputMatchesPin(pin, input, prevout).Ok?
    && PrevoutOnChain(pin, chain, txin.previousOutput, prevout).Ok?
    && RecoveryPathInput(pin, input, txin.sequence).Ok?
    && CsvOfFact(pin, chain, FindFact(chain.prevouts, txin.previousOutput).value).Ok?
  }

  lemma {:induction false} AmountsVerdictMeans(lib: Library, pin: AgentPin, request: PolicyRequest, chain: ChainView,
                          records: seq<Record>, samples: seq<VelocitySample>, tx: Transaction,
                          candidate: Record, verdict: Verdict, am: AmountBreakdown)
    ensures AmountsVerdict(lib, pin, request, chain, records, samples, tx, candidate, verdict, am).Ok? <==>
            && request.claimedExternalSats == am.externalSats
            && CheckDust(lib, pin, am).Ok?
            && (verdict.FeeBump? ==> FeeBumpVerdict(records, candidate, am.externalSats).Ok?)
            && am.externalSats <= pin.velocityPerSigSats
            && WindowVerdict(samples, chain.tipHeight, Charged(verdict, am.externalSats),
                             pin.velocityPerSigSats, pin.velocityPer144Sats).Ok?
            && CheckConfirm(lib, pin, request, tx, am.externalSats).Ok?
  {
  }

  /** What stands behind an accepted, unsigned evaluation. */
  ghost predicate Accepted(lib: Library, pin: AgentPin, request: PolicyRequest, chain: ChainView,
                           records: seq<Record>, samples: seq<VelocitySample>,
                           verdict: Verdict, record: Record, am: AmountBreakdown)
  {
    && ParsePsbtV0(lib, request.psbtBytes).Ok?
    && var psbt := ParsePsbtV0(lib, request.psbtBytes).value;
    && RequireNoUnknownPsbtFields(psbt).Ok?
    && record == FromPin(lib, pin, request.requestId, psbt, request.psbtBytes)
    && PreflightVerdict(records, record) == Ok(verdict)
    && verdict in {Fresh, FeeBump}
    && Validation(lib, pin, request, chain, records, samples, psbt, record, verdict) == Ok(am)
  }

  lemma {:induction false} EvaluationMeans(lib: Library, pin: AgentPin, request: PolicyRequest, authOk: bool,
                                           chain: ChainView,
                        records: seq<Record>, samples: seq<VelocitySample>,
                        verdict: Verdict, record: Record, am: AmountBreakdown)
    ensures Evaluation(lib, pin, request, authOk, chain, records, samples)
              == Ok(ValidatedUnsigned(verdict, record, am))
       <==> authOk && Accepted(lib, pin, request, chain, records, samples, verdict, record, am)
  {
  }

  // ----- Shape of accepted records -----

  /** A record made from the pin that the amount and per-signature stages have let through. */
  predicate PolicyShape(lib: Library, pin: AgentPin, r: Record) {
    && r.vaultScript == pin.scriptPubkey
    && r.outpoints != []
    && r.outputsCommitment == OutputsCommitment(lib, r.outputs)
    && ClassifyOutputs(r.outputs, r.vaultScript).Some?
    && ExternalOf(r) <= pin.velocityPerSigSats
  }

  function ExternalOf(r: Record): U64 {
    match ClassifyOutputs(r.outputs, r.vaultScript)
    case Some(c) => c.external.value
    case None => 0
  }

  function ChangeOf(r: Record): U64 {
    match ClassifyOutputs(r.outputs, r.vaultScript)
    case Some(c) => c.changeSats
    case None => 0
  }

  /** The amount stage and the replay store classify outputs alike, and the parts add up. */
  lemma {:induction false} ClassificationsAgree(pin: AgentPin, tx: Transaction, prevouts: seq<TxOut>)
    ensures AmountsOf(pin, tx, prevouts).Ok? ==> ClassifyOutputs(tx.outputs, pin.scriptPubkey).Some?
    ensures AmountsOf(pin, tx, prevouts).Ok? ==>
              var am := AmountsOf(pin, tx, prevouts).value;
              var c := ClassifyOutputs(tx.outputs, pin.scriptPubkey).value;
              && c.external.value == am.externalSats && c.external.scriptPubkey == am.externalScript
              && c.changeSats == am.changeSats
              && am.externalSats + am.changeSats + am.feeSats == SumBy(ValueOf, prevouts)
  {
    var externals, changes := Externals(tx.outputs, pin.scriptPubkey), Changes(tx.outputs, pin.scriptPubkey);
    OutputsSum(tx.outputs, pin.scriptPubkey);
    if |externals| == 1 && |changes| <= 1 {
      SumOfAtMostOne(externals);
      SumOfAtMostOne(changes);
    }
  }

  lemma {:induction false} SumOfAtMostOne(outputs: seq<TxOut>)
    requires |outputs| <= 1
    ensures SumBy(ValueOf, outputs) == ChangeSats(outputs)
  {
    if |outputs| == 1 {
      assert outputs[..0] == [];
      assert SumBy(ValueOf, outputs[..0]) == 0;
    }
  }

  lemma {:induction false} AcceptedRecordShape(lib: Library, pin: AgentPin, request: PolicyRequest, chain: ChainView,
                            records: seq<Record>, samples: seq<VelocitySample>,
                            verdict: Verdict, record: Record, am: AmountBreakdown)
    requires Accepted(lib, pin, request, chain, records, samples, verdict, record, am)
    ensures PolicyShape(lib, pin, record) && record.payload == Unsigned
    ensures ExternalOf(record) == am.externalSats && ChangeOf(record) == am.changeSats
    ensures am.externalSats <= pin.velocityPerSigSats
    ensures 1 <= am.feeSats <= MAX_POLICY_FEE_SATS
    ensures WindowVerdict(samples, chain.tipHeight, Charged(verdict, am.externalSats),
                          pin.velocityPerSigSats, pin.velocityPer144Sats).Ok?
  {
    var psbt := ParsePsbtV0(lib, request.psbtBytes).value;
    ValidationMeans(lib, pin, request, chain, records, samples, psbt, record, verdict, am);
    AmountsVerdictMeans(lib, pin, request, chain, records, samples, psbt.unsignedTx, record, verdict, am);
    ClassificationsAgree(pin, psbt.unsignedTx, PrevoutsOf(lib, psbt, |psbt.inputs|).value);
    assert |record.outpoints| == |psbt.unsignedTx.inputs|;
  }

  // ----- Conservation against the chain's own values -----

  function CoinValue(chain: ChainView, op: OutPoint): nat {
    match FindFact(chain.prevouts, op)
    case Some(fact) => fact.value
    case None => 0
  }

  function CoinValues(chain: ChainView): OutPoint -> nat {
    op => CoinValue(chain, op)
  }

  /** Past the input stages, the values the PSBT claims sum to what the chain says. */
  lemma {:induction false} InputValuesAreChainValues(pin: AgentPin, chain: ChainView, psbt: Psbt, prevouts: seq<TxOut>)
    requires |psbt.inputs| == |psbt.unsignedTx.inputs| == |prevouts|
    requires InputsVerdict(pin, chain, psbt, prevouts).Ok?
    ensures SumBy(CoinValues(chain), OutPointsOf(psbt.unsignedTx)) == SumBy(ValueOf, prevouts)
  {
    InputsVerdictMeans(pin, chain, psbt, prevouts);
    var ops := OutPointsOf(psbt.unsignedTx);
    forall i | 0 <= i < |ops|
      ensures CoinValue(chain, ops[i]) == prevouts[i].value
    {
      assert InputStages(pin, chain, psbt.inputs[i], psbt.unsignedTx.inputs[i], prevouts[i]);
    }
    SumPointwise(CoinValues(chain), ops, ValueOf, prevouts);
  }

  // ----- The two fee-bump checks -----

  lemma {:induction false} FirstExternalIsFirst(outputs: seq<TxOut>, vault: Script)
    ensures var externals := Externals(outputs, vault);
            FirstExternal(outputs, vault) == if externals == [] then None else Some(externals[0])
  {
    if outputs == [] {
    } else {
      FirstExternalIsFirst(outputs[..|outputs| - 1], vault);
    }
  }

  lemma {:induction false} BumpMatchedMeans(records: seq<Record>, candidate: Record, externalSats: U64)
    ensures BumpMatched(records, candidate, externalSats).Ok? <==>
            forall k :: 0 <= k < |records| ==> BumpAgainst(records[k], candidate, externalSats).Ok?
    ensures BumpMatched(records, candidate, externalSats) == Ok(true) ==>
            exists k :: 0 <= k < |records| && BumpAgainst(records[k], candidate, externalSats) == Ok(true)
    ensures BumpMatched(records, candidate, externalSats) == Ok(false) ==>
            forall k :: 0 <= k < |records| ==> BumpAgainst(records[k], candidate, externalSats) == Ok(false)
  {
    if records == [] {
    } else {
      var m := |records| - 1;
      BumpMatchedMeans(records[..m], candidate, externalSats);
      assert forall k :: 0 <= k < m ==> records[..m][k] == records[k];
    }
  }

  /** What one earlier record says about a candidate with this external amount. */
  lemma {:induction false} BumpAgainstMeans(previous: Record, candidate: Record)
    requires ClassifyOutputs(candidate.outputs, candidate.vaultScript).Some?
    ensures var r := BumpAgainst(previous, candidate, ExternalOf(candidate));
            && (r == Ok(true) <==> IsVaultChangeOnly(previous, candidate))
            && (r == Ok(false) <==> !OutpointsOverlap(previous.outpoints, candidate.outpoints))
  {
    var a, b := previous.outpoints, candidate.outpoints;
    FirstExternalIsFirst(previous.outputs, previous.vaultScript);
    assert OutpointsOverlap(a, b) <==> exists op :: op in a && op in b by {
      if op :| op in a && op in b {
        assert op in Elements(a) * Elements(b);
      }
      if OutpointsOverlap(a, b) {
        var op :| op in Elements(a) * Elements(b);
        assert op in a && op in b;
      }
    }
    if OutpointsIdentical(a, b) {
      assert Elements(a) * Elements(b) == Elements(a);
    }
  }

  /** Once the store has judged a candidate a fee bump, the explicit policy stage cannot refuse it. */
  lemma {:induction false} StoreBumpPassesPolicy(records: seq<Record>, candidate: Record)
    requires ClassifyOutputs(candidate.outputs, candidate.vaultScript).Some?
    requires PreflightVerdict(records, candidate) == Ok(FeeBump)
    ensures FeeBumpVerdict(records, candidate, ExternalOf(candidate)) == Ok(())
  {
    var e := ExternalOf(candidate);
    BumpMatchedMeans(records, candidate, e);
    forall k | 0 <= k < |records|
      ensures BumpAgainst(records[k], candidate, e).Ok?
    {
      BumpAgainstMeans(records[k], candidate);
      assert !Blocks(records[k], candidate);
    }
    var k :| 0 <= k < |records| && OutpointsOverlap(records[k].outpoints, candidate.outpoints);
    BumpAgainstMeans(records[k], candidate);
  }

  ghost predicate CommitmentsDistinguish(lib: Library, records: seq<Record>, candidate: Record) {
    forall k :: 0 <= k < |records| ==>
      && records[k].outputsCommitment == OutputsCommitment(lib, records[k].outputs)
      && lib.NoCollision(EncodeOutputs(records[k].outputs), EncodeOutputs(candidate.outputs))
  }

  lemma {:induction false} DifferentChangeDifferentCommitment(lib: Library, records: seq<Record>, k: nat,
                                                              candidate: Record)
    requires k < |records| && CommitmentsDistinguish(lib, records, candidate)
    requires candidate.outputsCommitment == OutputsCommitment(lib, candidate.outputs)
    requires IsVaultChangeOnly(records[k], candidate)
    ensures records[k].outputsCommitment != candidate.outputsCommitment
  {
    if records[k].outputsCommitment == candidate.outputsCommitment {
      EncodeOutputsInjective(records[k].outputs, candidate.outputs);
      assert false;
    }
  }

  /** The store's verdict and the separately written policy agree on every candidate with an unused request
      id and one external output, whatever the store holds, as long as SHA256 does not make the commitments
      of different outputs collide. */
  lemma {:induction false} TwoFeeBumpChecksAgree(lib: Library, records: seq<Record>, candidate: Record)
    requires FindRequest(records, candidate.requestId).None?
    requires ClassifyOutputs(candidate.outputs, candidate.vaultScript).Some?
    requires candidate.outputsCommitment == OutputsCommitment(lib, candidate.outputs)
    requires CommitmentsDistinguish(lib, records, candidate)
    ensures PreflightVerdict(records, candidate) == Ok(FeeBump)
       <==> FeeBumpVerdict(records, candidate, ExternalOf(candidate)) == Ok(())
  {
    var e := ExternalOf(candidate);
    if PreflightVerdict(records, candidate) == Ok(FeeBump) {
      StoreBumpPassesPolicy(records, candidate);
    }
    if FeeBumpVerdict(records, candidate, e) == Ok(()) {
      BumpMatchedMeans(records, candidate, e);
      forall k | 0 <= k < |records|
        ensures !Blocks(records[k], candidate)
      {
        BumpAgainstMeans(records[k], candidate);
        if OutpointsOverlap(records[k].outpoints, candidate.outpoints) {
          DifferentChangeDifferentCommitment(lib, records, k, candidate);
        }
      }
      var k :| 0 <= k < |records| && BumpAgainst(records[k], candidate, e) == Ok(true);
      BumpAgainstMeans(records[k], candidate);
      assert OutpointsOverlap(records[k].outpoints, candidate.outpoints);
    }
  }

  // ----- Retries -----

  /** The answer to a request whose id is that of a stored record, whatever the chain, the samples and
      the token say. */
  lemma {:induction false} RetryIsAnswered(lib: Library, pin: AgentPin, request: PolicyRequest, chain: ChainView,
                        records: seq<Record>, samples: seq<VelocitySample>, i: nat)
    requires Consistent(records) && i < |records|
    requires ParsePsbtV0(lib, request.psbtBytes).Ok?
    requires RequireNoUnknownPsbtFields(ParsePsbtV0(lib, request.psbtBytes).value).Ok?
    requires records[i].requestId == request.requestId
    ensures var psbt := ParsePsbtV0(lib, request.psbtBytes).value;
            var candidate := FromPin(lib, pin, request.requestId, psbt, request.psbtBytes);
            Evaluation(lib, pin, request, true, chain, records, samples)
            == if candidate.replayId == records[i].replayId
               then Ok(CachedSignature(records[i].payload.bytes)) else Err(ReplayConflict)
  {
    var psbt := ParsePsbtV0(lib, request.psbtBytes).value;
    CommittedRecordAnswers(records, i, FromPin(lib, pin, request.requestId, psbt, request.psbtBytes));
  }

  /** The replay id tells apart two PSBTs under one request id, unless SHA256 collides on them. */
  lemma {:induction false} ReplayIdIdentifiesBytes(lib: Library, pin: AgentPin, requestId: Bytes16,
                                psbt: Psbt, bytes: seq<Byte>, psbt': Psbt, bytes': seq<Byte>)
    requires lib.parsePsbt(bytes) == Some(psbt) && lib.parsePsbt(bytes') == Some(psbt')
    requires lib.NoCollision(bytes, bytes')
    requires var r, r' := FromPin(lib, pin, requestId, psbt, bytes), FromPin(lib, pin, requestId, psbt', bytes');
             lib.NoCollision(ReplayIdPreimage(requestId, r.psbtTxid, lib.sha256(bytes)),
                             ReplayIdPreimage(requestId, r'.psbtTxid, lib.sha256(bytes')))
    ensures FromPin(lib, pin, requestId, psbt, bytes).replayId == FromPin(lib, pin, requestId, psbt', bytes').replayId
       <==> bytes == bytes'
  {
    var r, r' := FromPin(lib, pin, requestId, psbt, bytes), FromPin(lib, pin, requestId, psbt', bytes');
    if r.replayId == r'.replayId {
      ReplayIdPreimageInjective(requestId, r.psbtTxid, lib.sha256(bytes),
                                requestId, r'.psbtTxid, lib.sha256(bytes'));
    }
  }
}
