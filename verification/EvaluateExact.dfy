/** The requests the pipeline accepts, stated flat: over the PSBT, the chain's facts and unbounded sums,
    without the stages. */
module EvaluateExact {
  import opened Basics
  import opened Bitcoin
  import opened Pin
  import opened Csv
  import opened Structure
  import opened Velocity
  import opened Confirm
  import opened Replay
  import opened Evaluate
  import opened EvaluateProofs

  /** What the PSBT says about the coin of an input: at least one description, and all of them this output. */
  predicate ClaimsPrevout(lib: Library, input: PsbtInput, op: OutPoint, prevout: TxOut) {
    && (input.witnessUtxo.Some? || input.nonWitnessUtxo.Some?)
    && (input.witnessUtxo.Some? ==> input.witnessUtxo.value == prevout)
    && (input.nonWitnessUtxo.Some? ==>
          var prevTx := input.nonWitnessUtxo.value;
          && lib.computeTxid(prevTx) == op.txid
          && op.vout < |prevTx.outputs|
          && prevTx.outputs[op.vout] == prevout)
  }

  /** A coin the chain shows as unspent, paying the vault, and mature on the recovery path. */
  predicate ProperCoin(pin: AgentPin, chain: ChainView, op: OutPoint, sequence: U32) {
    && FindFact(chain.prevouts, op).Some?
    && var fact := FindFact(chain.prevouts, op).value;
    && fact.visibleUnspent && fact.scriptPubkey == pin.scriptPubkey
    && DeepEnough(chain.tipHeight, fact.confirmHeight, pin.csvBlocks + 1008)
    && chain.tipHeight - fact.confirmHeight != U32_MAX
    && OldEnough(chain.nowUnix, fact.headerTimeUnix, pin.csvBlocks + 1008)
    && CheckSequenceVerify(pin.csvBlocks, 2, sequence)
  }

  /** An input map that uses the pinned script and keys, is open, and asks for SIGHASH_ALL throughout. */
  predicate ProperInputMap(pin: AgentPin, input: PsbtInput) {
    && !input.hasUnknownFields
    && input.sighashType == Some(1)
    && (forall pk :: pk in input.partialSigs ==> input.partialSigs[pk] == 1 && pin.ContainsPubkey(pk))
    && (forall pk :: pk in input.bip32Keys ==> pin.ContainsPubkey(pk))
    && input.witnessScript == Some(pin.witnessScript) && input.redeemScript.None?
    && !input.isFinalized
    && !(pin.primaryPubkey in input.partialSigs && pin.overridePubkey in input.partialSigs)
  }

  predicate ProperPsbtInput(lib: Library, pin: AgentPin, chain: ChainView, input: PsbtInput, txin: TxIn) {
    && ProperInputMap(pin, input)
    && ProperCoin(pin, chain, txin.previousOutput, txin.sequence)
    && var fact := FindFact(chain.prevouts, txin.previousOutput).value;
       ClaimsPrevout(lib, input, txin.previousOutput, TxOut(fact.value, fact.scriptPubkey))
  }

  predicate ProperPsbt(lib: Library, pin: AgentPin, chain: ChainView, psbt: Psbt) {
    var tx := psbt.unsignedTx;
    && psbt.version == 0 && tx.version == 2 && tx.lockTime == 0
    && 1 <= |psbt.inputs| == |tx.inputs| <= 100
    && 1 <= |psbt.outputs| == |tx.outputs|
    && !psbt.hasUnknownFields
    && (forall i :: 0 <= i < |psbt.outputs| ==> !psbt.outputs[i].hasUnknownFields)
    && (forall i :: 0 <= i < |psbt.inputs| ==> ProperPsbtInput(lib, pin, chain, psbt.inputs[i], tx.inputs[i]))
  }

  /** One external output, at most one change, no dust, and a positive fee of at most a million. */
  predicate ProperAmounts(lib: Library, pin: AgentPin, chain: ChainView, tx: Transaction, am: AmountBreakdown) {
    && ClassifyOutputs(tx.outputs, pin.scriptPubkey)
       == Some(ClassifiedOutputs(TxOut(am.externalSats, am.externalScript), am.changeSats))
    && am.inputSats == SumBy(CoinValues(chain), OutPointsOf(tx))
    && am.inputSats == am.externalSats + am.changeSats + am.feeSats
    && 1 <= am.feeSats <= 1_000_000
    && am.externalSats >= lib.minimalNonDust(am.externalScript)
    && (am.changeSats == 0 || am.changeSats >= lib.minimalNonDust(pin.scriptPubkey))
  }

  predicate WithinVelocity(samples: seq<VelocitySample>, tip: U32, verdict: Verdict, externalSats: U64) {
    && externalSats <= 10_000_000
    && (if verdict.FeeBump? then 0 else externalSats) + WindowSum(samples, tip) <= 50_000_000
  }

  /** From five million sats on, the override key has signed for this request, transaction and amount. */
  predicate ConfirmedIfLarge(lib: Library, pin: AgentPin, request: PolicyRequest, tx: Transaction, externalSats: U64) {
    externalSats >= 5_000_000 ==>
      && request.confirmToken.Some?
      && var token := request.confirmToken.value;
      && |token| == 64 && lib.isCompactSignature(token)
      && var binding := ConfirmBinding(request.requestId, Reversed(lib.computeTxid(tx)), externalSats, pin.genesisHash);
         lib.ecdsaVerify(lib.sha256(ConfirmPreimage(binding)), token, pin.overridePubkey)
  }

  ghost predicate ProperRequest(lib: Library, pin: AgentPin, request: PolicyRequest, chain: ChainView,
                                records: seq<Record>, samples: seq<VelocitySample>,
                                verdict: Verdict, record: Record, am: AmountBreakdown)
  {
    && lib.parsePsbt(request.psbtBytes).Some?
    && var psbt := lib.parsePsbt(request.psbtBytes).value;
    && ProperPsbt(lib, pin, chain, psbt)
    && chain.genesisHash == pin.genesisHash
    && record == FromPin(lib, pin, request.requestId, psbt, request.psbtBytes)
    && PreflightVerdict(records, record) == Ok(verdict) && !verdict.Idempotent?
    && ProperAmounts(lib, pin, chain, psbt.unsignedTx, am)
    && request.claimedExternalSats == am.externalSats
    && WithinVelocity(samples, chain.tipHeight, verdict, am.externalSats)
    && ConfirmedIfLarge(lib, pin, request, psbt.unsignedTx, am.externalSats)
  }

  // ----- Stage by stage -----

  lemma {:induction false} PrevoutOfMeans(lib: Library, psbt: Psbt, i: nat, prevout: TxOut)
    requires i < |psbt.inputs| == |psbt.unsignedTx.inputs|
    ensures PrevoutOf(lib, psbt, i) == Ok(prevout)
       <==> ClaimsPrevout(lib, psbt.inputs[i], psbt.unsignedTx.inputs[i].previousOutput, prevout)
  {
  }

  lemma {:induction false} PrevoutsOfMeans(lib: Library, psbt: Psbt, n: nat)
    requires n <= |psbt.inputs| == |psbt.unsignedTx.inputs|
    ensures PrevoutsOf(lib, psbt, n).Ok? <==> forall i :: 0 <= i < n ==> PrevoutOf(lib, psbt, i).Ok?
    ensures PrevoutsOf(lib, psbt, n).Ok? ==>
              forall i :: 0 <= i < n ==> PrevoutOf(lib, psbt, i) == Ok(PrevoutsOf(lib, psbt, n).value[i])
  {
    if n == 0 {
    } else {
      PrevoutsOfMeans(lib, psbt, n - 1);
    }
  }

  lemma {:induction false} CoinStagesMean(pin: AgentPin, chain: ChainView, txin: TxIn, prevout: TxOut)
    requires pin.Provisioned()
    ensures && PrevoutOnChain(pin, chain, txin.previousOutput, prevout).Ok?
            && RequireRecoverySequence(txin.sequence, pin.csvBlocks).Ok?
            && CsvOfFact(pin, chain, FindFact(chain.prevouts, txin.previousOutput).value).Ok?
       <==> && ProperCoin(pin, chain, txin.previousOutput, txin.sequence)
            && var fact := FindFact(chain.prevouts, txin.previousOutput).value;
               prevout == TxOut(fact.value, fact.scriptPubkey)
  {
    SequenceCheckIsConsensusCheck(txin.sequence, pin.csvBlocks);
    if FindFact(chain.prevouts, txin.previousOutput).Some? {
      var fact := FindFact(chain.prevouts, txin.previousOutput).value;
      MaturityExact(chain.tipHeight, fact.confirmHeight, chain.nowUnix, fact.headerTimeUnix,
                    pin.csvBlocks, pin.safetyMargin);
    }
  }

  predicate PassesStages(lib: Library, pin: AgentPin, chain: ChainView, psbt: Psbt, i: nat)
    requires i < |psbt.inputs| == |psbt.unsignedTx.inputs|
  {
    && !psbt.inputs[i].hasUnknownFields && PresentsSighashAll(psbt.inputs[i])
    && PrevoutOf(lib, psbt, i).Ok?
    && InputStages(pin, chain, psbt.inputs[i], psbt.unsignedTx.inputs[i], PrevoutOf(lib, psbt, i).value)
  }

  /** One input passes its stages exactly when it is proper. */
  lemma {:induction false} InputStagesMean(lib: Library, pin: AgentPin, chain: ChainView, psbt: Psbt, i: nat)
    requires pin.Provisioned()
    requires i < |psbt.inputs| == |psbt.unsignedTx.inputs|
    ensures PassesStages(lib, pin, chain, psbt, i)
       <==> ProperPsbtInput(lib, pin, chain, psbt.inputs[i], psbt.unsignedTx.inputs[i])
  {
    var input, txin, prevout := psbt.inputs[i], psbt.unsignedTx.inputs[i], PrevoutOf(lib, psbt, i);
    if prevout.Ok? {
      PrevoutOfMeans(lib, psbt, i, prevout.value);
      CoinStagesMean(pin, chain, txin, prevout.value);
      InputMapStagesMean(pin, input, prevout.value, txin.sequence);
    }
    if ProperPsbtInput(lib, pin, chain, input, txin) {
      var fact := FindFact(chain.prevouts, txin.previousOutput).value;
      PrevoutOfMeans(lib, psbt, i, TxOut(fact.value, fact.scriptPubkey));
    }
  }

  lemma {:induction false} InputMapStagesMean(pin: AgentPin, input: PsbtInput, prevout: TxOut, sequence: U32)
    ensures && !input.hasUnknownFields && PresentsSighashAll(input)
            && InputMatchesPin(pin, input, prevout).Ok?
            && RecoveryPathInput(pin, input, sequence).Ok?
       <==> && ProperInputMap(pin, input)
            && prevout.scriptPubkey == pin.scriptPubkey
            && RequireRecoverySequence(sequence, pin.csvBlocks).Ok?
  {
  }

  lemma {:induction false} StructureMeans(psbt: Psbt)
    ensures RequireNoUnknownPsbtFields(psbt).Ok? && RequireShape(psbt).Ok? <==>
            && psbt.unsignedTx.version == 2 && psbt.unsignedTx.lockTime == 0 && |psbt.inputs| <= 100
            && !psbt.hasUnknownFields
            && (forall i :: 0 <= i < |psbt.outputs| ==> !psbt.outputs[i].hasUnknownFields)
            && (forall i :: 0 <= i < |psbt.inputs| ==>
                  !psbt.inputs[i].hasUnknownFields && PresentsSighashAll(psbt.inputs[i]))
  {
  }

  lemma {:induction false} InputsTogether(lib: Library, pin: AgentPin, chain: ChainView, psbt: Psbt)
    requires |psbt.inputs| == |psbt.unsignedTx.inputs|
    ensures && PrevoutsOf(lib, psbt, |psbt.inputs|).Ok?
            && InputsVerdict(pin, chain, psbt, PrevoutsOf(lib, psbt, |psbt.inputs|).value).Ok?
       <==> && chain.genesisHash == pin.genesisHash
            && forall i :: 0 <= i < |psbt.inputs| ==>
                 && PrevoutOf(lib, psbt, i).Ok?
                 && InputStages(pin, chain, psbt.inputs[i], psbt.unsignedTx.inputs[i], PrevoutOf(lib, psbt, i).value)
  {
    PrevoutsOfMeans(lib, psbt, |psbt.inputs|);
    if PrevoutsOf(lib, psbt, |psbt.inputs|).Ok? {
      InputsVerdictMeans(pin, chain, psbt, PrevoutsOf(lib, psbt, |psbt.inputs|).value);
    }
  }

  /** The stages that look at the PSBT and the chain, together, input by input. */
  lemma {:induction false} StagesTogether(lib: Library, pin: AgentPin, chain: ChainView, psbt: Psbt)
    requires |psbt.inputs| == |psbt.unsignedTx.inputs|
    ensures && RequireNoUnknownPsbtFields(psbt).Ok?
            && RequireShape(psbt).Ok?
            && PrevoutsOf(lib, psbt, |psbt.inputs|).Ok?
            && InputsVerdict(pin, chain, psbt, PrevoutsOf(lib, psbt, |psbt.inputs|).value).Ok?
       <==> && chain.genesisHash == pin.genesisHash
            && psbt.unsignedTx.version == 2 && psbt.unsignedTx.lockTime == 0 && |psbt.inputs| <= 100
            && !psbt.hasUnknownFields
            && (forall i :: 0 <= i < |psbt.outputs| ==> !psbt.outputs[i].hasUnknownFields)
            && (forall i :: 0 <= i < |psbt.inputs| ==> PassesStages(lib, pin, chain, psbt, i))
  {
    StructureMeans(psbt);
    InputsTogether(lib, pin, chain, psbt);
    if forall i :: 0 <= i < |psbt.inputs| ==> PassesStages(lib, pin, chain, psbt, i) {
      forall i | 0 <= i < |psbt.inputs|
        ensures !psbt.inputs[i].hasUnknownFields && PresentsSighashAll(psbt.inputs[i])
        ensures PrevoutOf(lib, psbt, i).Ok?
        ensures InputStages(pin, chain, psbt.inputs[i], psbt.unsignedTx.inputs[i], PrevoutOf(lib, psbt, i).value)
      {
        assert PassesStages(lib, pin, chain, psbt, i);
      }
    }
  }

  lemma {:induction false} PsbtStagesMean(lib: Library, pin: AgentPin, chain: ChainView, psbt: Psbt)
    requires pin.Provisioned()
    requires psbt.version == 0 && |psbt.inputs| == |psbt.unsignedTx.inputs| > 0
    requires |psbt.outputs| == |psbt.unsignedTx.outputs| > 0
    ensures && RequireNoUnknownPsbtFields(psbt).Ok?
            && RequireShape(psbt).Ok?
            && PrevoutsOf(lib, psbt, |psbt.inputs|).Ok?
            && InputsVerdict(pin, chain, psbt, PrevoutsOf(lib, psbt, |psbt.inputs|).value).Ok?
       <==> ProperPsbt(lib, pin, chain, psbt) && chain.genesisHash == pin.genesisHash
  {
    StagesTogether(lib, pin, chain, psbt);
    forall i | 0 <= i < |psbt.inputs|
      ensures PassesStages(lib, pin, chain, psbt, i)
         <==> ProperPsbtInput(lib, pin, chain, psbt.inputs[i], psbt.unsignedTx.inputs[i])
    {
      InputStagesMean(lib, pin, chain, psbt, i);
    }
  }

  lemma {:induction false} AmountStagesMean(lib: Library, pin: AgentPin, chain: ChainView, tx: Transaction,
                                            prevouts: seq<TxOut>, am: AmountBreakdown)
    requires SumBy(CoinValues(chain), OutPointsOf(tx)) == SumBy(ValueOf, prevouts)
    ensures AmountsOf(pin, tx, prevouts) == Ok(am) && CheckFee(am).Ok? && CheckDust(lib, pin, am).Ok?
       <==> ProperAmounts(lib, pin, chain, tx, am)
  {
    ClassificationsAgree(pin, tx, prevouts);
    var externals, changes := Externals(tx.outputs, pin.scriptPubkey), Changes(tx.outputs, pin.scriptPubkey);
    OutputsSum(tx.outputs, pin.scriptPubkey);
    if |externals| == 1 && |changes| <= 1 {
      SumOfAtMostOne(externals);
      SumOfAtMostOne(changes);
    }
  }

  lemma {:induction false} LimitStagesMean(lib: Library, pin: AgentPin, request: PolicyRequest, chain: ChainView,
                                           samples: seq<VelocitySample>, tx: Transaction, verdict: Verdict,
                                           externalSats: U64)
    requires pin.Provisioned()
    ensures externalSats <= pin.velocityPerSigSats
            && WindowVerdict(samples, chain.tipHeight, Charged(verdict, externalSats),
                             pin.velocityPerSigSats, pin.velocityPer144Sats).Ok?
       <==> WithinVelocity(samples, chain.tipHeight, verdict, externalSats)
    ensures CheckConfirm(lib, pin, request, tx, externalSats).Ok?
       <==> ConfirmedIfLarge(lib, pin, request, tx, externalSats)
  {
  }

  // ----- The whole -----

  /** The pipeline accepts exactly the proper requests, with these amounts and this record. */
  lemma {:induction false} EvaluationIsExact(lib: Library, pin: AgentPin, request: PolicyRequest, authOk: bool,
                                             chain: ChainView, records: seq<Record>, samples: seq<VelocitySample>,
                                             verdict: Verdict, record: Record, am: AmountBreakdown)
    requires pin.Provisioned()
    ensures Evaluation(lib, pin, request, authOk, chain, records, samples) == Ok(ValidatedUnsigned(verdict, record, am))
       <==> authOk && ProperRequest(lib, pin, request, chain, records, samples, verdict, record, am)
  {
    EvaluationMeans(lib, pin, request, authOk, chain, records, samples, verdict, record, am);
    if ParsePsbtV0(lib, request.psbtBytes).Ok? {
      AcceptedIsProper(lib, pin, request, chain, records, samples, verdict, record, am);
    }
  }

  /** The charge fits beside these samples. */
  predicate WindowAllows(pin: AgentPin, chain: ChainView, samples: seq<VelocitySample>, verdict: Verdict,
                         externalSats: U64)
  {
    Charged(verdict, externalSats) + WindowSum(samples, chain.tipHeight) <= pin.velocityPer144Sats
  }

  lemma {:induction false} SamplesDecideAmounts(lib: Library, pin: AgentPin, request: PolicyRequest, chain: ChainView,
                                                records: seq<Record>, samples: seq<VelocitySample>,
                                                others: seq<VelocitySample>, tx: Transaction, candidate: Record,
                                                verdict: Verdict, am: AmountBreakdown)
    requires AmountsVerdict(lib, pin, request, chain, records, samples, tx, candidate, verdict, am).Ok?
    ensures AmountsVerdict(lib, pin, request, chain, records, others, tx, candidate, verdict, am)
         == if WindowAllows(pin, chain, others, verdict, am.externalSats) then Ok(()) else Err(PolicyErrorCode.Velocity)
  {
  }

  lemma {:induction false} SamplesDecideValidation(lib: Library, pin: AgentPin, request: PolicyRequest,
                                                   chain: ChainView,
                                                   records: seq<Record>, samples: seq<VelocitySample>,
                                                   others: seq<VelocitySample>, psbt: Psbt, candidate: Record,
                                                   verdict: Verdict, am: AmountBreakdown)
    requires |psbt.inputs| == |psbt.unsignedTx.inputs|
    requires Validation(lib, pin, request, chain, records, samples, psbt, candidate, verdict) == Ok(am)
    ensures Validation(lib, pin, request, chain, records, others, psbt, candidate, verdict)
         == if WindowAllows(pin, chain, others, verdict, am.externalSats) then Ok(am) else Err(PolicyErrorCode.Velocity)
  {
    SamplesDecideAmounts(lib, pin, request, chain, records, samples, others, psbt.unsignedTx, candidate, verdict, am);
  }

  /** With other samples an accepted request is still accepted, or is refused by the window check. */
  lemma {:induction false} SamplesDecideTheWindow(lib: Library, pin: AgentPin, request: PolicyRequest, authOk: bool,
                                                  chain: ChainView, records: seq<Record>, samples: seq<VelocitySample>,
                                                  others: seq<VelocitySample>, verdict: Verdict, record: Record,
                                                  am: AmountBreakdown)
    requires Evaluation(lib, pin, request, authOk, chain, records, samples)
          == Ok(ValidatedUnsigned(verdict, record, am))
    ensures Evaluation(lib, pin, request, authOk, chain, records, others)
         == if WindowAllows(pin, chain, others, verdict, am.externalSats)
            then Ok(ValidatedUnsigned(verdict, record, am))
            else Err(PolicyErrorCode.Velocity)
  {
    EvaluationMeans(lib, pin, request, authOk, chain, records, samples, verdict, record, am);
    var psbt := ParsePsbtV0(lib, request.psbtBytes).value;
    SamplesDecideValidation(lib, pin, request, chain, records, samples, others, psbt, record, verdict, am);
  }

  lemma {:induction false} AcceptedIsProper(lib: Library, pin: AgentPin, request: PolicyRequest, chain: ChainView,
                                            records: seq<Record>, samples: seq<VelocitySample>,
                                            verdict: Verdict, record: Record, am: AmountBreakdown)
    requires pin.Provisioned() && ParsePsbtV0(lib, request.psbtBytes).Ok?
    ensures Accepted(lib, pin, request, chain, records, samples, verdict, record, am)
       <==> ProperRequest(lib, pin, request, chain, records, samples, verdict, record, am)
  {
    var psbt := ParsePsbtV0(lib, request.psbtBytes).value;
    var tx := psbt.unsignedTx;
    var prevouts := PrevoutsOf(lib, psbt, |psbt.inputs|);
    PsbtStagesMean(lib, pin, chain, psbt);
    ValidationMeans(lib, pin, request, chain, records, samples, psbt, record, verdict, am);
    AmountsVerdictMeans(lib, pin, request, chain, records, samples, tx, record, verdict, am);
    LimitStagesMean(lib, pin, request, chain, samples, tx, verdict, am.externalSats);
    if prevouts.Ok? && InputsVerdict(pin, chain, psbt, prevouts.value).Ok? {
      InputValuesAreChainValues(pin, chain, psbt, prevouts.value);
      AmountStagesMean(lib, pin, chain, tx, prevouts.value, am);
    }
    if record == FromPin(lib, pin, request.requestId, psbt, request.psbtBytes)
       && PreflightVerdict(records, record) == Ok(FeeBump)
       && ClassifyOutputs(tx.outputs, pin.scriptPubkey).Some? {
      StoreBumpPassesPolicy(records, record);
    }
    if prevouts.Ok? {
      ClassificationsAgree(pin, tx, prevouts.value);
    }
  }

  /** In particular the chain's own values of the inputs, position by position, are exactly external + change
      + fee, although the amounts were computed from what the PSBT claimed, before the chain was consulted. */
  lemma {:induction false} AcceptedSpendBalances(lib: Library, pin: AgentPin, request: PolicyRequest,
                                                 chain: ChainView, records: seq<Record>, samples: seq<VelocitySample>,
                                                 verdict: Verdict, record: Record, am: AmountBreakdown)
    requires pin.Provisioned()
    requires Accepted(lib, pin, request, chain, records, samples, verdict, record, am)
    ensures SumBy(CoinValues(chain), record.outpoints) == am.externalSats + am.changeSats + am.feeSats
    ensures 1 <= am.feeSats <= 1_000_000
    ensures ExternalOf(record) == am.externalSats && ChangeOf(record) == am.changeSats
    ensures |record.outputs| == if |Changes(record.outputs, pin.scriptPubkey)| == 1 then 2 else 1
    ensures forall op :: op in record.outpoints ==> FindFact(chain.prevouts, op).Some?
  {
    AcceptedIsProper(lib, pin, request, chain, records, samples, verdict, record, am);
    OutputsSplit(record.outputs, pin.scriptPubkey);
    var psbt := lib.parsePsbt(request.psbtBytes).value;
    forall i | 0 <= i < |record.outpoints|
      ensures FindFact(chain.prevouts, record.outpoints[i]).Some?
    {
      assert ProperPsbtInput(lib, pin, chain, psbt.inputs[i], psbt.unsignedTx.inputs[i]);
    }
  }
}
