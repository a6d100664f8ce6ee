/** The staged validation of a signing request. Each stage is a function; the three stages that the
    program computes with loops are methods proved against theirs. */
module Evaluate {
  import opened Basics
  import opened Bitcoin
  import opened Pin
  import opened Csv
  import opened Structure
  import opened Velocity
  import opened Confirm
  import opened Replay
  import opened Store

  datatype PolicyRequest = PolicyRequest(
    requestId: Bytes16,
    psbtBytes: seq<Byte>,
    confirmToken: Option<seq<Byte>>,
    claimedExternalSats: U64)

  datatype AmountBreakdown = AmountBreakdown(
    externalSats: U64,
    externalScript: Script,
    changeSats: U64,
    feeSats: U64,
    inputSats: U64)

  datatype PolicyOutcome =
    | CachedSignature(cachedSignedPsbt: seq<Byte>)
    | ValidatedUnsigned(verdict: Verdict, record: Record, amounts: AmountBreakdown)

  // ----- Prevouts claimed by the PSBT -----

  function PrevoutOf(lib: Library, psbt: Psbt, i: nat): PolicyResult<TxOut>
    requires i < |psbt.inputs| == |psbt.unsignedTx.inputs|
  {
    var op := psbt.unsignedTx.inputs[i].previousOutput;
    match psbt.inputs[i].nonWitnessUtxo
    case Some(prevTx) =>
      if lib.computeTxid(prevTx) != op.txid then Err(PrevoutMismatch)
      else if op.vout >= |prevTx.outputs| then Err(PrevoutMissing)
      else (match psbt.inputs[i].witnessUtxo
            case Some(utxo) => if prevTx.outputs[op.vout] != utxo then Err(PrevoutMismatch) else Ok(utxo)
            case None => Ok(prevTx.outputs[op.vout]))
    case None =>
      match psbt.inputs[i].witnessUtxo
      case Some(utxo) => Ok(utxo)
      case None => Err(PrevoutMissing)
  }

  /** The prevouts of the first n inputs. */
  function PrevoutsOf(lib: Library, psbt: Psbt, n: nat): (r: PolicyResult<seq<TxOut>>)
    requires n <= |psbt.inputs| == |psbt.unsignedTx.inputs|
    ensures r.Ok? ==> |r.value| == n
  {
    if n == 0 then Ok([])
    else
      var before :- PrevoutsOf(lib, psbt, n - 1);
      var last :- PrevoutOf(lib, psbt, n - 1);
      Ok(before + [last])
  }

  lemma {:induction false} PrevoutsStopAtFirstError(lib: Library, psbt: Psbt, m: nat, n: nat)
    requires m <= n <= |psbt.inputs| == |psbt.unsignedTx.inputs|
    requires PrevoutsOf(lib, psbt, m).Err?
    ensures PrevoutsOf(lib, psbt, n) == PrevoutsOf(lib, psbt, m)
  {
    if m == n {
    } else {
      PrevoutsStopAtFirstError(lib, psbt, m, n - 1);
    }
  }

  method CollectPrevouts(lib: Library, psbt: Psbt) returns (r: PolicyResult<seq<TxOut>>)
    requires |psbt.inputs| == |psbt.unsignedTx.inputs|
    ensures r == PrevoutsOf(lib, psbt, |psbt.inputs|)
  {
    var out: seq<TxOut> := [];
    for i := 0 to |psbt.inputs|
      invariant PrevoutsOf(lib, psbt, i) == Ok(out)
    {
      var input, op := psbt.inputs[i], psbt.unsignedTx.inputs[i].previousOutput;
      if input.nonWitnessUtxo.Some? {
        var prevTx := input.nonWitnessUtxo.value;
        if lib.computeTxid(prevTx) != op.txid {
          PrevoutsStopAtFirstError(lib, psbt, i + 1, |psbt.inputs|);
          return Err(PrevoutMismatch);
        }
        if op.vout >= |prevTx.outputs| {
          PrevoutsStopAtFirstError(lib, psbt, i + 1, |psbt.inputs|);
          return Err(PrevoutMissing);
        }
        if input.witnessUtxo.Some? && prevTx.outputs[op.vout] != input.witnessUtxo.value {
          PrevoutsStopAtFirstError(lib, psbt, i + 1, |psbt.inputs|);
          return Err(PrevoutMismatch);
        }
        out := out + [prevTx.outputs[op.vout]];
      } else if input.witnessUtxo.Some? {
        out := out + [input.witnessUtxo.value];
      } else {
        PrevoutsStopAtFirstError(lib, psbt, i + 1, |psbt.inputs|);
        return Err(PrevoutMissing);
      }
    }
    return Ok(out);
  }

  // ----- Amounts -----

  function AmountsOf(pin: AgentPin, tx: Transaction, prevouts: seq<TxOut>): PolicyResult<AmountBreakdown> {
    var totalIn, totalOut := SumBy(ValueOf, prevouts), SumBy(ValueOf, tx.outputs);
    var externals, changes := Externals(tx.outputs, pin.scriptPubkey), Changes(tx.outputs, pin.scriptPubkey);
    if totalIn > U64_MAX || totalOut > U64_MAX then Err(Fee)
    else if |externals| != 1 || |changes| > 1 then Err(Change)
    else if totalOut > totalIn then Err(Fee)
    else Ok(AmountBreakdown(externals[0].value, externals[0].scriptPubkey, ChangeSats(changes),
                            totalIn - totalOut, totalIn))
  }

  method ClassifyAmounts(pin: AgentPin, tx: Transaction, prevouts: seq<TxOut>)
    returns (r: PolicyResult<AmountBreakdown>)
    ensures r == AmountsOf(pin, tx, prevouts)
  {
    var inputSats: U64 := 0;
    for i := 0 to |prevouts|
      invariant inputSats == SumBy(ValueOf, prevouts[..i])
    {
      assert prevouts[..i + 1][..i] == prevouts[..i];
      if inputSats + prevouts[i].value > U64_MAX {
        SumPrefix(ValueOf, prevouts, i + 1);
        return Err(Fee);
      }
      inputSats := inputSats + prevouts[i].value;
    }
    assert prevouts[..|prevouts|] == prevouts;
    var outputSats: U64 := 0;
    var externals: seq<TxOut>, changes: seq<TxOut> := [], [];
    for i := 0 to |tx.outputs|
      invariant outputSats == SumBy(ValueOf, tx.outputs[..i])
      invariant externals == Externals(tx.outputs[..i], pin.scriptPubkey)
      invariant changes == Changes(tx.outputs[..i], pin.scriptPubkey)
    {
      assert tx.outputs[..i + 1][..i] == tx.outputs[..i];
      if outputSats + tx.outputs[i].value > U64_MAX {
        SumPrefix(ValueOf, tx.outputs, i + 1);
        return Err(Fee);
      }
      outputSats := outputSats + tx.outputs[i].value;
      if tx.outputs[i].scriptPubkey == pin.scriptPubkey {
        changes := changes + [tx.outputs[i]];
      } else {
        externals := externals + [tx.outputs[i]];
      }
    }
    assert tx.outputs[..|tx.outputs|] == tx.outputs;
    if |externals| != 1 {
      return Err(Change);
    }
    if |changes| > 1 {
      return Err(Change);
    }
    if inputSats < outputSats {
      return Err(Fee);
    }
    return Ok(AmountBreakdown(externals[0].value, externals[0].scriptPubkey,
                              if changes == [] then 0 else changes[0].value,
                              inputSats - outputSats, inputSats));
  }

  function CheckFee(amounts: AmountBreakdown): PolicyResult<()> {
    if amounts.feeSats > MAX_POLICY_FEE_SATS then Err(Fee)
    else if amounts.feeSats == 0 then Err(Fee)
    else Ok(())
  }

  function CheckDust(lib: Library, pin: AgentPin, amounts: AmountBreakdown): PolicyResult<()> {
    if amounts.externalSats < lib.minimalNonDust(amounts.externalScript) then Err(Dust)
    else if amounts.changeSats > 0 && amounts.changeSats < lib.minimalNonDust(pin.scriptPubkey) then Err(Dust)
    else Ok(())
  }

  // ----- Shape -----

  function RequireShape(psbt: Psbt): PolicyResult<()> {
    var _ :- RequireLocktimeZero(psbt.unsignedTx.lockTime);
    if psbt.unsignedTx.version != 2 then Err(NotRecoveryPath)
    else if |psbt.inputs| > MAX_POLICY_INPUTS then Err(Fee)
    else RequireSighashAllOnPsbt(psbt)
  }

  // ----- Inputs against the pin, the chain and the recovery path -----

  function InputMatchesPin(pin: AgentPin, input: PsbtInput, prevout: TxOut): PolicyResult<()> {
    if prevout.scriptPubkey != pin.scriptPubkey then Err(ForeignInput)
    else if input.witnessScript != Some(pin.witnessScript) then Err(DescriptorMismatch)
    else if input.redeemScript.Some? then Err(DescriptorMismatch)
    else if exists pk :: pk in input.partialSigs.Keys && !pin.ContainsPubkey(pk) then Err(KeySubstitution)
    else if exists pk :: pk in input.bip32Keys && !pin.ContainsPubkey(pk) then Err(KeySubstitution)
    else Ok(())
  }

  function PinChecks(pin: AgentPin, psbt: Psbt, prevouts: seq<TxOut>): (checks: seq<PolicyResult<()>>)
    requires |psbt.inputs| == |prevouts|
    ensures |checks| == |prevouts|
    ensures forall i :: 0 <= i < |checks| ==> checks[i] == InputMatchesPin(pin, psbt.inputs[i], prevouts[i])
  {
    seq(|prevouts|, i requires 0 <= i < |prevouts| => InputMatchesPin(pin, psbt.inputs[i], prevouts[i]))
  }

  function CheckInputsAgainstPin(pin: AgentPin, psbt: Psbt, prevouts: seq<TxOut>): PolicyResult<()>
    requires |psbt.inputs| == |prevouts|
  {
    FirstFailure(PinChecks(pin, psbt, prevouts))
  }

  function PrevoutOnChain(pin: AgentPin, chain: ChainView, op: OutPoint, prevout: TxOut): PolicyResult<()> {
    match FindFact(chain.prevouts, op)
    case None => Err(PrevoutMissing)
    case Some(fact) =>
      if !fact.visibleUnspent then Err(ForeignInput)
      else if fact.scriptPubkey != prevout.scriptPubkey || fact.value != prevout.value then Err(PrevoutMismatch)
      else if fact.scriptPubkey != pin.scriptPubkey then Err(ForeignInput)
      else Ok(())
  }

  function ChainChecks(pin: AgentPin, chain: ChainView, tx: Transaction, prevouts: seq<TxOut>)
    : (checks: seq<PolicyResult<()>>)
    requires |tx.inputs| == |prevouts|
    ensures |checks| == |prevouts|
    ensures forall i :: 0 <= i < |checks| ==>
              checks[i] == PrevoutOnChain(pin, chain, tx.inputs[i].previousOutput, prevouts[i])
  {
    seq(|prevouts|, i requires 0 <= i < |prevouts| =>
      PrevoutOnChain(pin, chain, tx.inputs[i].previousOutput, prevouts[i]))
  }

  function CheckChainPrevouts(pin: AgentPin, chain: ChainView, tx: Transaction, prevouts: seq<TxOut>)
    : PolicyResult<()>
    requires |tx.inputs| == |prevouts|
  {
    FirstFailure(ChainChecks(pin, chain, tx, prevouts))
  }

  function RecoveryPathInput(pin: AgentPin, input: PsbtInput, sequence: U32): PolicyResult<()> {
    if input.isFinalized then Err(NotRecoveryPath)
    else
      var _ :- RequireRecoverySequence(sequence, pin.csvBlocks);
      if pin.primaryPubkey in input.partialSigs && pin.overridePubkey in input.partialSigs
      then Err(NotRecoveryPath) else Ok(())
  }

  function RecoveryChecks(pin: AgentPin, psbt: Psbt): (checks: seq<PolicyResult<()>>)
    requires |psbt.inputs| == |psbt.unsignedTx.inputs|
    ensures |checks| == |psbt.inputs|
    ensures forall i :: 0 <= i < |checks| ==>
              checks[i] == RecoveryPathInput(pin, psbt.inputs[i], psbt.unsignedTx.inputs[i].sequence)
  {
    seq(|psbt.inputs|, i requires 0 <= i < |psbt.inputs| =>
      RecoveryPathInput(pin, psbt.inputs[i], psbt.unsignedTx.inputs[i].sequence))
  }

  function CheckRecoveryPath(pin: AgentPin, psbt: Psbt): PolicyResult<()>
    requires |psbt.inputs| == |psbt.unsignedTx.inputs|
  {
    FirstFailure(RecoveryChecks(pin, psbt))
  }

  function CsvOfFact(pin: AgentPin, chain: ChainView, fact: PrevoutFact): PolicyResult<()> {
    var _ :- CheckCsvMaturity(chain.tipHeight, fact.confirmHeight, chain.nowUnix, fact.headerTimeUnix,
                              pin.csvBlocks, pin.safetyMargin);
    if pin.wallClockSecondsPerBlock != WALL_CLOCK_SECONDS_PER_BLOCK then Err(CsvImmatureWallclock) else Ok(())
  }

  /** The facts are there: the chain stage has required them. */
  function CsvChecks(pin: AgentPin, chain: ChainView, tx: Transaction): (checks: seq<PolicyResult<()>>)
    requires ChainKnows(chain, tx)
    ensures |checks| == |tx.inputs|
    ensures forall i :: 0 <= i < |checks| ==>
              checks[i] == CsvOfFact(pin, chain, FindFact(chain.prevouts, tx.inputs[i].previousOutput).value)
  {
    seq(|tx.inputs|, i requires 0 <= i < |tx.inputs| =>
      CsvOfFact(pin, chain, FindFact(chain.prevouts, tx.inputs[i].previousOutput).value))
  }

  function CheckCsvForInputs(pin: AgentPin, chain: ChainView, tx: Transaction): PolicyResult<()>
    requires ChainKnows(chain, tx)
  {
    FirstFailure(CsvChecks(pin, chain, tx))
  }

  predicate ChainKnows(chain: ChainView, tx: Transaction) {
    forall i :: 0 <= i < |tx.inputs| ==> FindFact(chain.prevouts, tx.inputs[i].previousOutput).Some?
  }

  lemma {:induction false} ChainStageFindsFacts(pin: AgentPin, chain: ChainView, tx: Transaction, prevouts: seq<TxOut>)
    requires |tx.inputs| == |prevouts|
    ensures CheckChainPrevouts(pin, chain, tx, prevouts).Ok? <==>
            forall i :: 0 <= i < |tx.inputs| ==>
              PrevoutOnChain(pin, chain, tx.inputs[i].previousOutput, prevouts[i]).Ok?
    ensures CheckChainPrevouts(pin, chain, tx, prevouts).Ok? ==> ChainKnows(chain, tx)
  {
    var checks := ChainChecks(pin, chain, tx, prevouts);
    assert forall i :: 0 <= i < |prevouts| ==>
      checks[i] == PrevoutOnChain(pin, chain, tx.inputs[i].previousOutput, prevouts[i]);
  }

  function CheckConfirm(lib: Library, pin: AgentPin, request: PolicyRequest, tx: Transaction, externalSats: U64)
    : PolicyResult<()>
  {
    if externalSats < pin.confirmThresholdSats then Ok(())
    else
      match request.confirmToken
      case None => Err(ConfirmRequired)
      case Some(token) =>
        VerifyConfirmToken(lib, token,
                           ConfirmBinding(request.requestId, Reversed(lib.computeTxid(tx)), externalSats,
                                          pin.genesisHash),
                           pin.overridePubkey)
  }

  // ----- The explicit fee-bump policy -----

  /** The first output that does not pay the vault. */
  function FirstExternal(outputs: seq<TxOut>, vault: Script): Option<TxOut> {
    if outputs == [] then None
    else
      var last := outputs[|outputs| - 1];
      match FirstExternal(outputs[..|outputs| - 1], vault)
      case Some(o) => Some(o)
      case None => if last.scriptPubkey != vault then Some(last) else None
  }

  predicate SharesOutpoint(a: seq<OutPoint>, b: seq<OutPoint>) {
    exists op :: op in a && op in b
  }

  /** Whether an earlier record has the candidate's coins; an error if it rules the candidate out. */
  function BumpAgainst(previous: Record, candidate: Record, externalSats: U64): PolicyResult<bool> {
    if !OutpointsIdentical(previous.outpoints, candidate.outpoints) then
      if SharesOutpoint(previous.outpoints, candidate.outpoints)
      then Err(PolicyErrorCode.Replay) else Ok(false)
    else if !IsVaultChangeOnly(previous, candidate) then Err(FeeBumpInvalid)
    else
      var prev := FirstExternal(previous.outputs, previous.vaultScript);
      if externalSats > (if prev.Some? then prev.value.value else 0) then Err(FeeBumpInvalid) else Ok(true)
  }

  function BumpMatched(records: seq<Record>, candidate: Record, externalSats: U64): PolicyResult<bool> {
    if records == [] then Ok(false)
    else
      var before :- BumpMatched(records[..|records| - 1], candidate, externalSats);
      var last :- BumpAgainst(records[|records| - 1], candidate, externalSats);
      Ok(before || last)
  }

  function FeeBumpVerdict(records: seq<Record>, candidate: Record, externalSats: U64): PolicyResult<()> {
    var matched :- BumpMatched(records, candidate, externalSats);
    if matched then Ok(()) else Err(FeeBumpInvalid)
  }

  lemma {:induction false} BumpStopsAtFirstError(records: seq<Record>, n: nat, candidate: Record, externalSats: U64)
    requires n <= |records| && BumpMatched(records[..n], candidate, externalSats).Err?
    ensures BumpMatched(records, candidate, externalSats) == BumpMatched(records[..n], candidate, externalSats)
  {
    if n == |records| {
      assert records[..n] == records;
    } else {
      var m := |records| - 1;
      assert records[..m][..n] == records[..n];
      BumpStopsAtFirstError(records[..m], n, candidate, externalSats);
    }
  }

  method EnforceFeeBumpPolicy(store: ReplayStore, candidate: Record, externalSats: U64)
    returns (r: PolicyResult<()>)
    ensures r == FeeBumpVerdict(store.records, candidate, externalSats)
  {
    var records := store.records;
    var matched := false;
    for i := 0 to |records|
      invariant BumpMatched(records[..i], candidate, externalSats) == Ok(matched)
    {
      var previous := records[i];
      assert records[..i + 1][..i] == records[..i];
      if !OutpointsIdentical(previous.outpoints, candidate.outpoints) {
        if SharesOutpoint(previous.outpoints, candidate.outpoints) {
          BumpStopsAtFirstError(records, i + 1, candidate, externalSats);
          return Err(PolicyErrorCode.Replay);
        }
        continue;
      }
      matched := true;
      if !IsVaultChangeOnly(previous, candidate) {
        BumpStopsAtFirstError(records, i + 1, candidate, externalSats);
        return Err(FeeBumpInvalid);
      }
      var prev := FirstExternal(previous.outputs, previous.vaultScript);
      if externalSats > (if prev.Some? then prev.value.value else 0) {
        BumpStopsAtFirstError(records, i + 1, candidate, externalSats);
        return Err(FeeBumpInvalid);
      }
    }
    assert records[..|records|] == records;
    if !matched {
      return Err(FeeBumpInvalid);
    }
    return Ok(());
  }

  // ----- The pipeline -----

  function Charged(verdict: Verdict, externalSats: U64): U64 {
    if verdict.FeeBump? then 0 else externalSats
  }

  /** The stages that look at each input. */
  function InputsVerdict(pin: AgentPin, chain: ChainView, psbt: Psbt, prevouts: seq<TxOut>): PolicyResult<()>
    requires |psbt.inputs| == |psbt.unsignedTx.inputs| == |prevouts|
  {
    var _ :- CheckInputsAgainstPin(pin, psbt, prevouts);
    var _ :- CheckChainPrevouts(pin, chain, psbt.unsignedTx, prevouts);
    ChainStageFindsFacts(pin, chain, psbt.unsignedTx, prevouts);
    var _ :- CheckRecoveryPath(pin, psbt);
    if chain.genesisHash != pin.genesisHash then Err(WrongGenesis)
    else CheckCsvForInputs(pin, chain, psbt.unsignedTx)
  }

  /** The stages that look at the amounts. */
  function AmountsVerdict(lib: Library, pin: AgentPin, request: PolicyRequest, chain: ChainView,
                        records: seq<Record>, samples: seq<VelocitySample>, tx: Transaction,
                        candidate: Record, verdict: Verdict, amounts: AmountBreakdown): PolicyResult<()>
  {
    if request.claimedExternalSats != amounts.externalSats then Err(Fee)
    else
      var _ :- CheckDust(lib, pin, amounts);
      var _ :- if verdict.FeeBump? then FeeBumpVerdict(records, candidate, amounts.externalSats) else Ok(());
      var _ :- CheckVelocityCap(amounts.externalSats, pin.velocityPerSigSats);
      var _ :- WindowVerdict(samples, chain.tipHeight, Charged(verdict, amounts.externalSats),
                             pin.velocityPerSigSats, pin.velocityPer144Sats);
      CheckConfirm(lib, pin, request, tx, amounts.externalSats)
  }

  /** Everything after the replay verdict. */
  function Validation(lib: Library, pin: AgentPin, request: PolicyRequest, chain: ChainView,
                      records: seq<Record>, samples: seq<VelocitySample>,
                      psbt: Psbt, candidate: Record, verdict: Verdict): PolicyResult<AmountBreakdown>
    requires |psbt.inputs| == |psbt.unsignedTx.inputs|
  {
    var _ :- RequireShape(psbt);
    var prevouts :- PrevoutsOf(lib, psbt, |psbt.inputs|);
    var amounts :- AmountsOf(pin, psbt.unsignedTx, prevouts);
    var _ :- CheckFee(amounts);
    var _ :- InputsVerdict(pin, chain, psbt, prevouts);
    var _ :- AmountsVerdict(lib, pin, request, chain, records, samples, psbt.unsignedTx, candidate, verdict, amounts);
    Ok(amounts)
  }

  function Evaluation(lib: Library, pin: AgentPin, request: PolicyRequest, authOk: bool, chain: ChainView,
                      records: seq<Record>, samples: seq<VelocitySample>): PolicyResult<PolicyOutcome>
  {
    if !authOk then Err(Auth)
    else
      var psbt :- ParsePsbtV0(lib, request.psbtBytes);
      var _ :- RequireNoUnknownPsbtFields(psbt);
      var candidate := FromPin(lib, pin, request.requestId, psbt, request.psbtBytes);
      var verdict :- PreflightVerdict(records, candidate);
      if verdict.Idempotent? then Ok(CachedSignature(verdict.signedPsbtOrPartial))
      else
        var amounts :- Validation(lib, pin, request, chain, records, samples, psbt, candidate, verdict);
        Ok(ValidatedUnsigned(verdict, candidate, amounts))
  }

  method Evaluate(lib: Library, pin: AgentPin, request: PolicyRequest, authOk: bool, chain: ChainView,
                  store: ReplayStore, samples: seq<VelocitySample>)
    returns (r: PolicyResult<PolicyOutcome>)
    ensures r == Evaluation(lib, pin, request, authOk, chain, store.records, samples)
  {
    if !authOk {
      return Err(Auth);
    }
    var psbt :- ParsePsbtV0(lib, request.psbtBytes);
    var _ :- RequireNoUnknownPsbtFields(psbt);
    var candidate := FromPin(lib, pin, request.requestId, psbt, request.psbtBytes);
    var verdict :- store.Preflight(candidate);
    if verdict.Idempotent? {
      return Ok(CachedSignature(verdict.signedPsbtOrPartial));
    }
    var _ :- RequireShape(psbt);
    var prevouts :- CollectPrevouts(lib, psbt);
    var amounts :- ClassifyAmounts(pin, psbt.unsignedTx, prevouts);
    var _ :- CheckFee(amounts);
    var _ :- InputsVerdict(pin, chain, psbt, prevouts);
    if request.claimedExternalSats != amounts.externalSats {
      return Err(Fee);
    }
    var _ :- CheckDust(lib, pin, amounts);
    if verdict.FeeBump? {
      var _ :- EnforceFeeBumpPolicy(store, candidate, amounts.externalSats);
    }
    var _ :- CheckVelocityCap(amounts.externalSats, pin.velocityPerSigSats);
    var charged: U64 := if verdict.FeeBump? then 0 else amounts.externalSats;
    var _ :- CheckVelocityWindowCapped(samples, chain.tipHeight, charged,
                                       pin.velocityPerSigSats, pin.velocityPer144Sats);
    var _ :- CheckConfirm(lib, pin, request, psbt.unsignedTx, amounts.externalSats);
    return Ok(ValidatedUnsigned(verdict, candidate, amounts));
  }
}
