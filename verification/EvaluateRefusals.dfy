/** Which code a refused request gets: the conditions of an evaluation in their order, each stated over the PSBT,
    the chain's facts, the stored records, sums and limits, with the code of its refusal. */
module EvaluateRefusals {
  import opened Basics
  import opened Bitcoin
  import opened Encoding
  import opened Pin
  import opened Csv
  import opened Structure
  import opened Velocity
  import opened Confirm
  import opened Replay
  import opened Evaluate
  import opened EvaluateProofs

  type Gates = seq<Gate<PolicyErrorCode>>

  // ----- The PSBT itself -----

  predicate IsPsbtV0(psbt: Psbt) {
    && psbt.version == 0
    && |psbt.inputs| == |psbt.unsignedTx.inputs| > 0
    && |psbt.outputs| == |psbt.unsignedTx.outputs| > 0
  }

  predicate HasNoUnknownFields(psbt: Psbt) {
    && !psbt.hasUnknownFields
    && (forall i :: 0 <= i < |psbt.inputs| ==> !psbt.inputs[i].hasUnknownFields)
    && (forall i :: 0 <= i < |psbt.outputs| ==> !psbt.outputs[i].hasUnknownFields)
  }

  predicate AsksForAll(input: PsbtInput) {
    input.sighashType == Some(1) && forall pk :: pk in input.partialSigs ==> input.partialSigs[pk] == 1
  }

  function ShapeGates(psbt: Psbt): Gates {
    [Gate(psbt.unsignedTx.lockTime == 0, Locktime),
     Gate(psbt.unsignedTx.version == 2, NotRecoveryPath),
     Gate(|psbt.inputs| <= 100, Fee),
     Gate(forall i :: 0 <= i < |psbt.inputs| ==> AsksForAll(psbt.inputs[i]), Sighash)]
  }

  // ----- Outputs -----

  /** One output off the vault, and at most one on it. */
  predicate IsShaped(outputs: seq<TxOut>, vault: Script) {
    || (|outputs| == 1 && outputs[0].scriptPubkey != vault)
    || (|outputs| == 2 && (outputs[0].scriptPubkey == vault) != (outputs[1].scriptPubkey == vault))
  }

  function TheExternal(outputs: seq<TxOut>, vault: Script): TxOut
    requires IsShaped(outputs, vault)
  {
    if outputs[0].scriptPubkey != vault then outputs[0] else outputs[1]
  }

  function TheChange(outputs: seq<TxOut>, vault: Script): U64
    requires IsShaped(outputs, vault)
  {
    if |outputs| == 1 then 0
    else if outputs[0].scriptPubkey == vault then outputs[0].value else outputs[1].value
  }

  /** Classifying outputs comes to that. */
  lemma {:induction false} ClassificationIsExact(outputs: seq<TxOut>, vault: Script)
    ensures |Externals(outputs, vault)| == 1 && |Changes(outputs, vault)| <= 1 <==> IsShaped(outputs, vault)
    ensures IsShaped(outputs, vault) ==>
              && Externals(outputs, vault) == [TheExternal(outputs, vault)]
              && ChangeSats(Changes(outputs, vault)) == TheChange(outputs, vault)
    ensures ClassifyOutputs(outputs, vault)
         == if IsShaped(outputs, vault)
            then Some(ClassifiedOutputs(TheExternal(outputs, vault), TheChange(outputs, vault))) else None
  {
    OutputsSplit(outputs, vault);
    if |outputs| == 1 {
      assert outputs[..1] == outputs && outputs[..0] == [];
    } else if |outputs| == 2 {
      assert outputs[..1][..0] == [];
      assert Externals(outputs[..1], vault) == if outputs[0].scriptPubkey != vault then [outputs[0]] else [];
      assert Changes(outputs[..1], vault) == if outputs[0].scriptPubkey == vault then [outputs[0]] else [];
    }
  }

  // ----- The store's answer -----

  /** The id under which a request's PSBT is stored. */
  function ReplayIdOf(lib: Library, requestId: Bytes16, tx: Transaction, bytes: seq<Byte>): Bytes32 {
    lib.sha256(requestId + lib.computeTxid(tx) + lib.sha256(bytes))
  }

  predicate SpendsCoinOf(r: Record, tx: Transaction) {
    exists i :: 0 <= i < |tx.inputs| && tx.inputs[i].previousOutput in r.outpoints
  }

  predicate SpendsSameCoins(r: Record, tx: Transaction) {
    && (forall i :: 0 <= i < |tx.inputs| ==> tx.inputs[i].previousOutput in r.outpoints)
    && (forall k :: 0 <= k < |r.outpoints| ==> r.outpoints[k] in OutPointsOf(tx))
  }

  /** The transaction takes the same coins to the same external output with less change. */
  predicate OnlyLowersChange(vault: Script, r: Record, tx: Transaction) {
    && SpendsSameCoins(r, tx) && tx.inputs != []
    && r.vaultScript == vault
    && IsShaped(r.outputs, vault) && IsShaped(tx.outputs, vault)
    && TheExternal(r.outputs, vault) == TheExternal(tx.outputs, vault)
    && TheChange(tx.outputs, vault) < TheChange(r.outputs, vault)
  }

  predicate MayReplace(lib: Library, vault: Script, r: Record, tx: Transaction) {
    OnlyLowersChange(vault, r, tx) && r.outputsCommitment != lib.sha256(EncodeOutputs(tx.outputs))
  }

  /** Some record has the request id. */
  predicate IsStored(records: seq<Record>, requestId: Bytes16) {
    exists k :: 0 <= k < |records| && records[k].requestId == requestId
  }

  /** The transaction takes a coin of some record. */
  predicate SpendsStoredCoin(records: seq<Record>, tx: Transaction) {
    exists k :: 0 <= k < |records| && SpendsCoinOf(records[k], tx)
  }

  /** Every record whose coin it takes may be replaced. */
  predicate MayReplaceAll(lib: Library, vault: Script, records: seq<Record>, tx: Transaction) {
    forall k :: 0 <= k < |records| && SpendsCoinOf(records[k], tx) ==> MayReplace(lib, vault, records[k], tx)
  }

  function ReplayGates(lib: Library, vault: Script, records: seq<Record>, requestId: Bytes16, replayId: Bytes32,
                       tx: Transaction): Gates
  {
    match FindRequest(records, requestId)
    case Some(k) =>
      [Gate(records[k].replayId == replayId, ReplayConflict), Gate(records[k].payload.Signed?, Internal)]
    case None =>
      [Gate(MayReplaceAll(lib, vault, records, tx), PolicyErrorCode.Replay)]
  }

  /** What the replay stage sees of a candidate. */
  predicate IsCandidate(lib: Library, vault: Script, candidate: Record, tx: Transaction) {
    && candidate.outpoints == OutPointsOf(tx) && candidate.outputs == tx.outputs
    && candidate.vaultScript == vault && candidate.outputsCommitment == lib.sha256(EncodeOutputs(tx.outputs))
  }

  lemma {:induction false} SharingMeans(r: Record, candidate: Record, tx: Transaction)
    requires candidate.outpoints == OutPointsOf(tx)
    ensures OutpointsOverlap(r.outpoints, candidate.outpoints) <==> SpendsCoinOf(r, tx)
    ensures OutpointsIdentical(r.outpoints, candidate.outpoints) <==> SpendsSameCoins(r, tx) && tx.inputs != []
  {
    var a, b := r.outpoints, candidate.outpoints;
    if SpendsCoinOf(r, tx) {
      var i :| 0 <= i < |tx.inputs| && tx.inputs[i].previousOutput in r.outpoints;
      assert b[i] in Elements(a) * Elements(b);
    }
    if op :| op in Elements(a) * Elements(b) {
      var i :| 0 <= i < |b| && b[i] == op;
      assert tx.inputs[i].previousOutput in a;
    }
    if SpendsSameCoins(r, tx) && tx.inputs != [] {
      assert b[0] in Elements(b);
      assert forall op :: op in b ==> op in a;
    }
    if OutpointsIdentical(a, b) {
      assert forall op :: op in a <==> op in Elements(a);
      assert forall op :: op in b <==> op in Elements(b);
      assert forall i :: 0 <= i < |tx.inputs| ==> tx.inputs[i].previousOutput == b[i];
    }
  }

  lemma {:induction false} ChangeOnlyMeans(r: Record, candidate: Record, vault: Script, tx: Transaction)
    requires candidate.outpoints == OutPointsOf(tx) && candidate.outputs == tx.outputs
    requires candidate.vaultScript == vault
    ensures IsVaultChangeOnly(r, candidate) <==> OnlyLowersChange(vault, r, tx)
  {
    SharingMeans(r, candidate, tx);
    ClassificationIsExact(r.outputs, vault);
    ClassificationIsExact(tx.outputs, vault);
  }

  /** The store's verdict, whatever the store holds: the refusals, and otherwise the answer. */
  lemma {:induction false} PreflightIsExact(lib: Library, vault: Script, records: seq<Record>, candidate: Record,
                                            tx: Transaction)
    requires IsCandidate(lib, vault, candidate, tx)
    ensures var refusal := FirstUnmet(ReplayGates(lib, vault, records, candidate.requestId, candidate.replayId, tx));
            PreflightVerdict(records, candidate) ==
              if refusal.Err? then Err(refusal.error)
              else match FindRequest(records, candidate.requestId)
                case Some(k) => Ok(Idempotent(records[k].payload.bytes))
                case None => if SpendsStoredCoin(records, tx) then Ok(FeeBump) else Ok(Fresh)
  {
    FirstUnmetOfFew(ReplayGates(lib, vault, records, candidate.requestId, candidate.replayId, tx));
    forall k | 0 <= k < |records|
      ensures OutpointsOverlap(records[k].outpoints, candidate.outpoints) <==> SpendsCoinOf(records[k], tx)
      ensures Blocks(records[k], candidate) <==>
              SpendsCoinOf(records[k], tx) && !MayReplace(lib, vault, records[k], tx)
    {
      SharingMeans(records[k], candidate, tx);
      ChangeOnlyMeans(records[k], candidate, vault, tx);
    }
  }

  // ----- The explicit fee-bump policy -----

  function BumpGates(vault: Script, r: Record, tx: Transaction, externalSats: U64): Gates {
    [Gate(SpendsCoinOf(r, tx) ==> SpendsSameCoins(r, tx), PolicyErrorCode.Replay),
     Gate(SpendsCoinOf(r, tx) ==>
            OnlyLowersChange(vault, r, tx) && externalSats <= TheExternal(r.outputs, vault).value, FeeBumpInvalid)]
  }

  function BumpLists(vault: Script, records: seq<Record>, tx: Transaction, externalSats: U64): (lists: seq<Gates>)
    ensures |lists| == |records|
    ensures forall i :: 0 <= i < |lists| ==> lists[i] == BumpGates(vault, records[i], tx, externalSats)
  {
    seq(|records|, i requires 0 <= i < |records| => BumpGates(vault, records[i], tx, externalSats))
  }

  lemma {:induction false} BumpAgainstIsExact(vault: Script, r: Record, candidate: Record, tx: Transaction,
                                              externalSats: U64)
    requires candidate.outpoints == OutPointsOf(tx) && candidate.outputs == tx.outputs
    requires candidate.vaultScript == vault
    ensures var refusal := FirstUnmet(BumpGates(vault, r, tx, externalSats));
            BumpAgainst(r, candidate, externalSats)
            == if refusal.Err? then Err(refusal.error) else Ok(SpendsCoinOf(r, tx))
  {
    FirstUnmetOfFew(BumpGates(vault, r, tx, externalSats));
    SharingMeans(r, candidate, tx);
    ChangeOnlyMeans(r, candidate, vault, tx);
    ClassificationIsExact(r.outputs, r.vaultScript);
    FirstExternalIsFirst(r.outputs, r.vaultScript);
    if SharesOutpoint(r.outpoints, candidate.outpoints) {
      var op :| op in r.outpoints && op in candidate.outpoints;
      var i :| 0 <= i < |candidate.outpoints| && candidate.outpoints[i] == op;
      assert tx.inputs[i].previousOutput in r.outpoints;
    }
    if SpendsCoinOf(r, tx) {
      var i :| 0 <= i < |tx.inputs| && tx.inputs[i].previousOutput in r.outpoints;
      assert candidate.outpoints[i] in r.outpoints;
    }
  }

  lemma {:induction false} OneMoreBump(vault: Script, records: seq<Record>, tx: Transaction, externalSats: U64)
    requires records != []
    ensures var n := |records| - 1;
            var before := FirstUnmet(Flatten(BumpLists(vault, records[..n], tx, externalSats)));
            && FirstUnmet(Flatten(BumpLists(vault, records, tx, externalSats)))
               == (if before.Err? then before else FirstUnmet(BumpGates(vault, records[n], tx, externalSats)))
            && (SpendsStoredCoin(records, tx) <==> SpendsStoredCoin(records[..n], tx) || SpendsCoinOf(records[n], tx))
  {
    var n, lists := |records| - 1, BumpLists(vault, records, tx, externalSats);
    assert lists[..n] == BumpLists(vault, records[..n], tx, externalSats);
    FirstUnmetConcat(Flatten(lists[..n]), lists[n]);
    assert forall k :: 0 <= k < n ==> records[..n][k] == records[k];
  }

  lemma {:induction false} BumpMatchedIsExact(vault: Script, records: seq<Record>, candidate: Record, tx: Transaction,
                                              externalSats: U64)
    requires candidate.outpoints == OutPointsOf(tx) && candidate.outputs == tx.outputs
    requires candidate.vaultScript == vault
    ensures var refusal := FirstUnmet(Flatten(BumpLists(vault, records, tx, externalSats)));
            BumpMatched(records, candidate, externalSats)
            == if refusal.Err? then Err(refusal.error) else Ok(SpendsStoredCoin(records, tx))
  {
    if records == [] {
    } else {
      var n := |records| - 1;
      BumpMatchedIsExact(vault, records[..n], candidate, tx, externalSats);
      BumpAgainstIsExact(vault, records[n], candidate, tx, externalSats);
      OneMoreBump(vault, records, tx, externalSats);
    }
  }

  /** The policy refuses a candidate over the records one after the other, and if none has its coins. */
  lemma {:induction false} BumpPolicyIsExact(vault: Script, records: seq<Record>, candidate: Record, tx: Transaction,
                                             externalSats: U64)
    requires candidate.outpoints == OutPointsOf(tx) && candidate.outputs == tx.outputs
    requires candidate.vaultScript == vault
    ensures FeeBumpVerdict(records, candidate, externalSats)
         == FirstUnmet(Flatten(BumpLists(vault, records, tx, externalSats))
                       + [Gate(SpendsStoredCoin(records, tx), FeeBumpInvalid)])
  {
    var lists := BumpLists(vault, records, tx, externalSats);
    var last := [Gate(SpendsStoredCoin(records, tx), FeeBumpInvalid)];
    BumpMatchedIsExact(vault, records, candidate, tx, externalSats);
    FirstUnmetConcat(Flatten(lists), last);
    FirstUnmetOfFew(last);
  }

  // ----- The coins the PSBT claims to spend -----

  function PrevoutGates(lib: Library, input: PsbtInput, op: OutPoint): Gates {
    match input.nonWitnessUtxo
    case Some(prevTx) =>
      [Gate(lib.computeTxid(prevTx) == op.txid, PrevoutMismatch), Gate(op.vout < |prevTx.outputs|, PrevoutMissing)]
      + (if op.vout < |prevTx.outputs|
         then [Gate(input.witnessUtxo.Some? ==> input.witnessUtxo.value == prevTx.outputs[op.vout], PrevoutMismatch)]
         else [])
    case None => [Gate(input.witnessUtxo.Some?, PrevoutMissing)]
  }

  /** What the PSBT says it spends, once those conditions hold. */
  function ClaimedCoin(input: PsbtInput, op: OutPoint): TxOut {
    match input.witnessUtxo
    case Some(utxo) => utxo
    case None =>
      match input.nonWitnessUtxo
      case Some(prevTx) => if op.vout < |prevTx.outputs| then prevTx.outputs[op.vout] else TxOut(0, [])
      case None => TxOut(0, [])
  }

  function PrevoutLists(lib: Library, psbt: Psbt, n: nat): (lists: seq<Gates>)
    requires n <= |psbt.inputs| == |psbt.unsignedTx.inputs|
    ensures |lists| == n
    ensures forall i :: 0 <= i < n ==>
              lists[i] == PrevoutGates(lib, psbt.inputs[i], psbt.unsignedTx.inputs[i].previousOutput)
  {
    seq(n, i requires 0 <= i < n => PrevoutGates(lib, psbt.inputs[i], psbt.unsignedTx.inputs[i].previousOutput))
  }

  function ClaimedCoins(psbt: Psbt, n: nat): (coins: seq<TxOut>)
    requires n <= |psbt.inputs| == |psbt.unsignedTx.inputs|
    ensures |coins| == n
    ensures forall i :: 0 <= i < n ==> coins[i] == ClaimedCoin(psbt.inputs[i], psbt.unsignedTx.inputs[i].previousOutput)
  {
    seq(n, i requires 0 <= i < n => ClaimedCoin(psbt.inputs[i], psbt.unsignedTx.inputs[i].previousOutput))
  }

  lemma {:induction false} PrevoutIsExact(lib: Library, psbt: Psbt, i: nat)
    requires i < |psbt.inputs| == |psbt.unsignedTx.inputs|
    ensures var op := psbt.unsignedTx.inputs[i].previousOutput;
            var refusal := FirstUnmet(PrevoutGates(lib, psbt.inputs[i], op));
            PrevoutOf(lib, psbt, i)
            == if refusal.Err? then Err(refusal.error) else Ok(ClaimedCoin(psbt.inputs[i], op))
  {
    var input, op := psbt.inputs[i], psbt.unsignedTx.inputs[i].previousOutput;
    FirstUnmetOfFew(PrevoutGates(lib, input, op));
  }

  lemma {:induction false} OneMorePrevout(lib: Library, psbt: Psbt, n: nat)
    requires n < |psbt.inputs| == |psbt.unsignedTx.inputs|
    ensures var before := FirstUnmet(Flatten(PrevoutLists(lib, psbt, n)));
            var last := PrevoutGates(lib, psbt.inputs[n], psbt.unsignedTx.inputs[n].previousOutput);
            FirstUnmet(Flatten(PrevoutLists(lib, psbt, n + 1))) == if before.Err? then before else FirstUnmet(last)
    ensures ClaimedCoins(psbt, n + 1)
         == ClaimedCoins(psbt, n) + [ClaimedCoin(psbt.inputs[n], psbt.unsignedTx.inputs[n].previousOutput)]
  {
    var lists := PrevoutLists(lib, psbt, n + 1);
    assert lists[..n] == PrevoutLists(lib, psbt, n);
    FirstUnmetConcat(Flatten(lists[..n]), lists[n]);
  }

  lemma {:induction false} PrevoutsAreExact(lib: Library, psbt: Psbt, n: nat)
    requires n <= |psbt.inputs| == |psbt.unsignedTx.inputs|
    ensures var refusal := FirstUnmet(Flatten(PrevoutLists(lib, psbt, n)));
            PrevoutsOf(lib, psbt, n) == if refusal.Err? then Err(refusal.error) else Ok(ClaimedCoins(psbt, n))
  {
    if n == 0 {
    } else {
      PrevoutsAreExact(lib, psbt, n - 1);
      PrevoutIsExact(lib, psbt, n - 1);
      OneMorePrevout(lib, psbt, n - 1);
    }
  }

  // ----- Amounts -----

  function AmountGates(vault: Script, outputs: seq<TxOut>, coins: seq<TxOut>): Gates {
    var totalIn, totalOut := SumBy(ValueOf, coins), SumBy(ValueOf, outputs);
    [Gate(totalIn <= 0xFFFF_FFFF_FFFF_FFFF && totalOut <= 0xFFFF_FFFF_FFFF_FFFF, Fee),
     Gate(IsShaped(outputs, vault), Change),
     Gate(totalOut <= totalIn, Fee),
     Gate(totalIn <= totalOut + 1_000_000, Fee),
     Gate(totalIn != totalOut, Fee)]
  }

  predicate AreTheAmounts(vault: Script, outputs: seq<TxOut>, coins: seq<TxOut>, am: AmountBreakdown) {
    && IsShaped(outputs, vault)
    && am.externalSats == TheExternal(outputs, vault).value
    && am.externalScript == TheExternal(outputs, vault).scriptPubkey
    && am.changeSats == TheChange(outputs, vault)
    && am.inputSats == SumBy(ValueOf, coins) == SumBy(ValueOf, outputs) + am.feeSats
  }

  /** The amount stage and the fee limits, with the code of each refusal. */
  lemma {:induction false} AmountsAreExact(pin: AgentPin, tx: Transaction, coins: seq<TxOut>)
    ensures var amounts := AmountsOf(pin, tx, coins);
            var gates := AmountGates(pin.scriptPubkey, tx.outputs, coins);
            && (amounts.Err? ==> Err(amounts.error) == FirstUnmet(gates) == FirstUnmet(gates[..3]))
            && (amounts.Ok? ==> && CheckFee(amounts.value) == FirstUnmet(gates) && FirstUnmet(gates[..3]).Ok?
                                && AreTheAmounts(pin.scriptPubkey, tx.outputs, coins, amounts.value))
  {
    var gates := AmountGates(pin.scriptPubkey, tx.outputs, coins);
    FirstUnmetOfFew(gates);
    FirstUnmetOfFew(gates[..3]);
    ClassificationIsExact(tx.outputs, pin.scriptPubkey);
  }

  // ----- The inputs against the pin, the chain and the recovery path -----

  predicate IsPinned(pin: AgentPin, pk: PubKey) {
    pk == pin.primaryPubkey || pk == pin.overridePubkey || pk == pin.agentPubkey
  }

  function PinGates(pin: AgentPin, input: PsbtInput, coin: TxOut): Gates {
    [Gate(coin.scriptPubkey == pin.scriptPubkey, ForeignInput),
     Gate(input.witnessScript == Some(pin.witnessScript) && input.redeemScript.None?, DescriptorMismatch),
     Gate((forall pk :: pk in input.partialSigs ==> IsPinned(pin, pk))
          && (forall pk :: pk in input.bip32Keys ==> IsPinned(pin, pk)), KeySubstitution)]
  }

  function ChainGates(pin: AgentPin, chain: ChainView, op: OutPoint, coin: TxOut): Gates {
    match FindFact(chain.prevouts, op)
    case None => [Gate(false, PrevoutMissing)]
    case Some(fact) =>
      [Gate(fact.visibleUnspent, ForeignInput),
       Gate(fact.scriptPubkey == coin.scriptPubkey && fact.value == coin.value, PrevoutMismatch),
       Gate(fact.scriptPubkey == pin.scriptPubkey, ForeignInput)]
  }

  function RecoveryGates(pin: AgentPin, input: PsbtInput, sequence: U32): Gates {
    [Gate(!input.isFinalized && CheckSequenceVerify(pin.csvBlocks, 2, sequence)
          && !(pin.primaryPubkey in input.partialSigs && pin.overridePubkey in input.partialSigs), NotRecoveryPath)]
  }

  /** The depth 2^32 is refused, see the maturity lemmas. */
  function CsvGates(pin: AgentPin, chain: ChainView, op: OutPoint): Gates {
    match FindFact(chain.prevouts, op)
    case None => []
    case Some(fact) =>
      [Gate(DeepEnough(chain.tipHeight, fact.confirmHeight, pin.csvBlocks + 1008)
            && chain.tipHeight - fact.confirmHeight != 0xFFFF_FFFF, CsvImmatureDepth),
       Gate(OldEnough(chain.nowUnix, fact.headerTimeUnix, pin.csvBlocks + 1008), CsvImmatureWallclock)]
  }

  lemma {:induction false} PinStageIsExact(pin: AgentPin, input: PsbtInput, coin: TxOut)
    ensures InputMatchesPin(pin, input, coin) == FirstUnmet(PinGates(pin, input, coin))
  {
    FirstUnmetOfFew(PinGates(pin, input, coin));
  }

  lemma {:induction false} ChainStageIsExact(pin: AgentPin, chain: ChainView, op: OutPoint, coin: TxOut)
    ensures PrevoutOnChain(pin, chain, op, coin) == FirstUnmet(ChainGates(pin, chain, op, coin))
  {
    FirstUnmetOfFew(ChainGates(pin, chain, op, coin));
  }

  lemma {:induction false} RecoveryStageIsExact(pin: AgentPin, input: PsbtInput, sequence: U32)
    requires pin.Provisioned()
    ensures RecoveryPathInput(pin, input, sequence) == FirstUnmet(RecoveryGates(pin, input, sequence))
  {
    FirstUnmetOfFew(RecoveryGates(pin, input, sequence));
    SequenceCheckIsConsensusCheck(sequence, pin.csvBlocks);
  }

  lemma {:induction false} CsvStageIsExact(pin: AgentPin, chain: ChainView, op: OutPoint)
    requires pin.Provisioned() && FindFact(chain.prevouts, op).Some?
    ensures CsvOfFact(pin, chain, FindFact(chain.prevouts, op).value) == FirstUnmet(CsvGates(pin, chain, op))
  {
    FirstUnmetOfFew(CsvGates(pin, chain, op));
    var fact := FindFact(chain.prevouts, op).value;
    MaturityExact(chain.tipHeight, fact.confirmHeight, chain.nowUnix, fact.headerTimeUnix, pin.csvBlocks,
                  pin.safetyMargin);
  }

  // The four loops, each over all inputs.

  function PinLists(pin: AgentPin, psbt: Psbt, coins: seq<TxOut>): (lists: seq<Gates>)
    requires |psbt.inputs| == |coins|
    ensures |lists| == |coins|
    ensures forall i :: 0 <= i < |lists| ==> lists[i] == PinGates(pin, psbt.inputs[i], coins[i])
  {
    seq(|coins|, i requires 0 <= i < |coins| => PinGates(pin, psbt.inputs[i], coins[i]))
  }

  lemma {:induction false} PinLoopIsExact(pin: AgentPin, psbt: Psbt, coins: seq<TxOut>)
    requires |psbt.inputs| == |coins|
    ensures CheckInputsAgainstPin(pin, psbt, coins) == FirstUnmet(Flatten(PinLists(pin, psbt, coins)))
  {
    var checks, lists := PinChecks(pin, psbt, coins), PinLists(pin, psbt, coins);
    forall i | 0 <= i < |checks|
      ensures checks[i] == FirstUnmet(lists[i])
    {
      PinStageIsExact(pin, psbt.inputs[i], coins[i]);
    }
    FirstFailureIsFirstUnmet(checks, lists);
  }

  function ChainLists(pin: AgentPin, chain: ChainView, tx: Transaction, coins: seq<TxOut>): (lists: seq<Gates>)
    requires |tx.inputs| == |coins|
    ensures |lists| == |coins|
    ensures forall i :: 0 <= i < |lists| ==> lists[i] == ChainGates(pin, chain, tx.inputs[i].previousOutput, coins[i])
  {
    seq(|coins|, i requires 0 <= i < |coins| => ChainGates(pin, chain, tx.inputs[i].previousOutput, coins[i]))
  }

  lemma {:induction false} ChainLoopIsExact(pin: AgentPin, chain: ChainView, tx: Transaction, coins: seq<TxOut>)
    requires |tx.inputs| == |coins|
    ensures CheckChainPrevouts(pin, chain, tx, coins) == FirstUnmet(Flatten(ChainLists(pin, chain, tx, coins)))
  {
    var checks, lists := ChainChecks(pin, chain, tx, coins), ChainLists(pin, chain, tx, coins);
    forall i | 0 <= i < |checks|
      ensures checks[i] == FirstUnmet(lists[i])
    {
      ChainStageIsExact(pin, chain, tx.inputs[i].previousOutput, coins[i]);
    }
    FirstFailureIsFirstUnmet(checks, lists);
  }

  function RecoveryLists(pin: AgentPin, psbt: Psbt): (lists: seq<Gates>)
    requires |psbt.inputs| == |psbt.unsignedTx.inputs|
    ensures |lists| == |psbt.inputs|
    ensures forall i :: 0 <= i < |lists| ==>
              lists[i] == RecoveryGates(pin, psbt.inputs[i], psbt.unsignedTx.inputs[i].sequence)
  {
    seq(|psbt.inputs|, i requires 0 <= i < |psbt.inputs| =>
      RecoveryGates(pin, psbt.inputs[i], psbt.unsignedTx.inputs[i].sequence))
  }

  lemma {:induction false} RecoveryLoopIsExact(pin: AgentPin, psbt: Psbt)
    requires pin.Provisioned() && |psbt.inputs| == |psbt.unsignedTx.inputs|
    ensures CheckRecoveryPath(pin, psbt) == FirstUnmet(Flatten(RecoveryLists(pin, psbt)))
  {
    var checks, lists := RecoveryChecks(pin, psbt), RecoveryLists(pin, psbt);
    forall i | 0 <= i < |checks|
      ensures checks[i] == FirstUnmet(lists[i])
    {
      RecoveryStageIsExact(pin, psbt.inputs[i], psbt.unsignedTx.inputs[i].sequence);
    }
    FirstFailureIsFirstUnmet(checks, lists);
  }

  function CsvLists(pin: AgentPin, chain: ChainView, tx: Transaction): (lists: seq<Gates>)
    ensures |lists| == |tx.inputs|
    ensures forall i :: 0 <= i < |lists| ==> lists[i] == CsvGates(pin, chain, tx.inputs[i].previousOutput)
  {
    seq(|tx.inputs|, i requires 0 <= i < |tx.inputs| => CsvGates(pin, chain, tx.inputs[i].previousOutput))
  }

  lemma {:induction false} CsvLoopIsExact(pin: AgentPin, chain: ChainView, tx: Transaction)
    requires pin.Provisioned() && ChainKnows(chain, tx)
    ensures CheckCsvForInputs(pin, chain, tx) == FirstUnmet(Flatten(CsvLists(pin, chain, tx)))
  {
    var checks, lists := CsvChecks(pin, chain, tx), CsvLists(pin, chain, tx);
    forall i | 0 <= i < |checks|
      ensures checks[i] == FirstUnmet(lists[i])
    {
      CsvStageIsExact(pin, chain, tx.inputs[i].previousOutput);
    }
    FirstFailureIsFirstUnmet(checks, lists);
  }

  /** The input stages, in their order. */
  function InputStageGates(pin: AgentPin, chain: ChainView, psbt: Psbt, coins: seq<TxOut>): Gates
    requires |psbt.inputs| == |psbt.unsignedTx.inputs| == |coins|
  {
    Flatten(PinLists(pin, psbt, coins))
    + (Flatten(ChainLists(pin, chain, psbt.unsignedTx, coins))
       + (Flatten(RecoveryLists(pin, psbt))
          + ([Gate(chain.genesisHash == pin.genesisHash, WrongGenesis)]
             + Flatten(CsvLists(pin, chain, psbt.unsignedTx)))))
  }

  lemma {:induction false} InputStagesAreExact(pin: AgentPin, chain: ChainView, psbt: Psbt, coins: seq<TxOut>)
    requires pin.Provisioned() && |psbt.inputs| == |psbt.unsignedTx.inputs| == |coins|
    ensures InputsVerdict(pin, chain, psbt, coins) == FirstUnmet(InputStageGates(pin, chain, psbt, coins))
  {
    var tx := psbt.unsignedTx;
    var genesis, csv := [Gate(chain.genesisHash == pin.genesisHash, WrongGenesis)], Flatten(CsvLists(pin, chain, tx));
    var recovery, onChain := Flatten(RecoveryLists(pin, psbt)), Flatten(ChainLists(pin, chain, tx, coins));
    PinLoopIsExact(pin, psbt, coins);
    ChainLoopIsExact(pin, chain, tx, coins);
    RecoveryLoopIsExact(pin, psbt);
    ChainStageFindsFacts(pin, chain, tx, coins);
    if ChainKnows(chain, tx) {
      CsvLoopIsExact(pin, chain, tx);
    }
    FirstUnmetConcat(genesis, csv);
    FirstUnmetConcat(recovery, genesis + csv);
    FirstUnmetConcat(onChain, recovery + (genesis + csv));
    FirstUnmetConcat(Flatten(PinLists(pin, psbt, coins)), onChain + (recovery + (genesis + csv)));
  }

  // ----- Limits -----

  function LimitGates(lib: Library, pin: AgentPin, request: PolicyRequest, tip: U32, samples: seq<VelocitySample>,
                      tx: Transaction, isBump: bool): Gates
  {
    if !IsShaped(tx.outputs, pin.scriptPubkey) then []
    else
      var external, change := TheExternal(tx.outputs, pin.scriptPubkey), TheChange(tx.outputs, pin.scriptPubkey);
      [Gate(request.claimedExternalSats == external.value, Fee),
       Gate(external.value >= lib.minimalNonDust(external.scriptPubkey)
            && (change == 0 || change >= lib.minimalNonDust(pin.scriptPubkey)), Dust),
       Gate(external.value <= 10_000_000
            && (if isBump then 0 else external.value) + WindowSum(samples, tip) <= 50_000_000,
            PolicyErrorCode.Velocity),
       Gate(external.value < 5_000_000 || request.confirmToken.Some?, ConfirmRequired),
       Gate(external.value < 5_000_000 || IsConfirmed(lib, pin, request, tx, external.value), ConfirmInvalid)]
  }

  /** The text in ASCII. */
  function ConfirmDomain(): seq<Byte> {
    var text := "TESAURUS_CONFIRM_V1";
    seq(19, i requires 0 <= i < 19 => text[i] as int)
  }

  /** The token is the override key's signature of this request, transaction and amount. */
  predicate IsConfirmed(lib: Library, pin: AgentPin, request: PolicyRequest, tx: Transaction, externalSats: U64) {
    && request.confirmToken.Some?
    && var token := request.confirmToken.value;
    && |token| == 64 && lib.isCompactSignature(token)
    && var message := ConfirmDomain() + [1] + request.requestId + Reversed(lib.computeTxid(tx))
                      + BigEndian(externalSats, 8) + pin.genesisHash;
       lib.ecdsaVerify(lib.sha256(message), token, pin.overridePubkey)
  }

  lemma {:induction false} LimitsAreExact(lib: Library, pin: AgentPin, request: PolicyRequest, chain: ChainView,
                                          records: seq<Record>, samples: seq<VelocitySample>, tx: Transaction,
                                          candidate: Record, verdict: Verdict, coins: seq<TxOut>, am: AmountBreakdown)
    requires pin.Provisioned() && verdict in {Fresh, FeeBump}
    requires AreTheAmounts(pin.scriptPubkey, tx.outputs, coins, am)
    requires IsCandidate(lib, pin.scriptPubkey, candidate, tx)
    requires PreflightVerdict(records, candidate) == Ok(verdict)
    ensures AmountsVerdict(lib, pin, request, chain, records, samples, tx, candidate, verdict, am)
         == FirstUnmet(LimitGates(lib, pin, request, chain.tipHeight, samples, tx, verdict.FeeBump?))
  {
    FirstUnmetOfFew(LimitGates(lib, pin, request, chain.tipHeight, samples, tx, verdict.FeeBump?));
    ClassificationIsExact(tx.outputs, pin.scriptPubkey);
    if verdict.FeeBump? {
      StoreBumpPassesPolicy(records, candidate);
    }
    ConfirmIsExact(lib, pin, request, tx, am.externalSats);
  }

  lemma {:induction false} ConfirmIsExact(lib: Library, pin: AgentPin, request: PolicyRequest, tx: Transaction,
                                          externalSats: U64)
    requires pin.Provisioned()
    ensures CheckConfirm(lib, pin, request, tx, externalSats)
         == if externalSats < 5_000_000 || IsConfirmed(lib, pin, request, tx, externalSats) then Ok(())
            else if request.confirmToken.None? then Err(ConfirmRequired) else Err(ConfirmInvalid)
  {
    assert ConfirmDomain() == CONFIRM_DOMAIN;
  }

  // ----- The whole -----

  /** The conditions after the replay stage. */
  function LaterGates(lib: Library, pin: AgentPin, request: PolicyRequest, chain: ChainView,
                      samples: seq<VelocitySample>, psbt: Psbt, isBump: bool): Gates
    requires |psbt.inputs| == |psbt.unsignedTx.inputs|
  {
    var coins := ClaimedCoins(psbt, |psbt.inputs|);
    ShapeGates(psbt)
    + (Flatten(PrevoutLists(lib, psbt, |psbt.inputs|))
       + (AmountGates(pin.scriptPubkey, psbt.unsignedTx.outputs, coins)
          + (InputStageGates(pin, chain, psbt, coins)
             + LimitGates(lib, pin, request, chain.tipHeight, samples, psbt.unsignedTx, isBump))))
  }

  lemma {:induction false} ShapeIsExact(psbt: Psbt)
    ensures RequireShape(psbt) == FirstUnmet(ShapeGates(psbt))
  {
    FirstUnmetOfFew(ShapeGates(psbt));
    assert forall i :: 0 <= i < |psbt.inputs| ==> (PresentsSighashAll(psbt.inputs[i]) <==> AsksForAll(psbt.inputs[i]));
  }

  lemma {:induction false} ValidationIsExact(lib: Library, pin: AgentPin, request: PolicyRequest, chain: ChainView,
                                             records: seq<Record>, samples: seq<VelocitySample>, psbt: Psbt,
                                             candidate: Record, verdict: Verdict)
    requires pin.Provisioned() && |psbt.inputs| == |psbt.unsignedTx.inputs|
    requires IsCandidate(lib, pin.scriptPubkey, candidate, psbt.unsignedTx)
    requires PreflightVerdict(records, candidate) == Ok(verdict) && verdict in {Fresh, FeeBump}
    ensures var r := Validation(lib, pin, request, chain, records, samples, psbt, candidate, verdict);
            var refusal := FirstUnmet(LaterGates(lib, pin, request, chain, samples, psbt, verdict.FeeBump?));
            && (r.Err? <==> refusal.Err?)
            && (r.Err? ==> r.error == refusal.error)
            && (r.Ok? ==> AreTheAmounts(pin.scriptPubkey, psbt.unsignedTx.outputs,
                                        ClaimedCoins(psbt, |psbt.inputs|), r.value))
  {
    var tx, coins := psbt.unsignedTx, ClaimedCoins(psbt, |psbt.inputs|);
    var prevouts := Flatten(PrevoutLists(lib, psbt, |psbt.inputs|));
    var amounts := AmountGates(pin.scriptPubkey, tx.outputs, coins);
    var inputs := InputStageGates(pin, chain, psbt, coins);
    var limits := LimitGates(lib, pin, request, chain.tipHeight, samples, tx, verdict.FeeBump?);
    ShapeIsExact(psbt);
    PrevoutsAreExact(lib, psbt, |psbt.inputs|);
    AmountsAreExact(pin, tx, coins);
    InputStagesAreExact(pin, chain, psbt, coins);
    if AmountsOf(pin, tx, coins).Ok? {
      LimitsAreExact(lib, pin, request, chain, records, samples, tx, candidate, verdict, coins,
                     AmountsOf(pin, tx, coins).value);
    }
    FirstUnmetConcat(inputs, limits);
    FirstUnmetConcat(amounts, inputs + limits);
    FirstUnmetConcat(prevouts, amounts + (inputs + limits));
    FirstUnmetConcat(ShapeGates(psbt), prevouts + (amounts + (inputs + limits)));
  }

  /** All conditions of a request, in order. A stored request id leaves none after the replay stage. */
  function RequestGates(lib: Library, pin: AgentPin, request: PolicyRequest, authOk: bool, chain: ChainView,
                        records: seq<Record>, samples: seq<VelocitySample>): Gates
  {
    var parsed := lib.parsePsbt(request.psbtBytes);
    [Gate(authOk, Auth), Gate(parsed.Some? && IsPsbtV0(parsed.value), PsbtParse)]
    + (if parsed.Some? && IsPsbtV0(parsed.value)
       then PsbtGates(lib, pin, request, chain, records, samples, parsed.value) else [])
  }

  function PsbtGates(lib: Library, pin: AgentPin, request: PolicyRequest, chain: ChainView,
                     records: seq<Record>, samples: seq<VelocitySample>, psbt: Psbt): Gates
    requires IsPsbtV0(psbt)
  {
    [Gate(HasNoUnknownFields(psbt), UnknownField)]
    + CandidateGates(lib, pin, request, chain, records, samples, psbt,
                     ReplayIdOf(lib, request.requestId, psbt.unsignedTx, request.psbtBytes))
  }

  function CandidateGates(lib: Library, pin: AgentPin, request: PolicyRequest, chain: ChainView,
                          records: seq<Record>, samples: seq<VelocitySample>, psbt: Psbt, replayId: Bytes32): Gates
    requires |psbt.inputs| == |psbt.unsignedTx.inputs|
  {
    ReplayGates(lib, pin.scriptPubkey, records, request.requestId, replayId, psbt.unsignedTx)
    + (if IsStored(records, request.requestId) then []
       else LaterGates(lib, pin, request, chain, samples, psbt, SpendsStoredCoin(records, psbt.unsignedTx)))
  }

  lemma {:induction false} CandidateIsExact(lib: Library, pin: AgentPin, request: PolicyRequest, psbt: Psbt)
    ensures var candidate := FromPin(lib, pin, request.requestId, psbt, request.psbtBytes);
            && IsCandidate(lib, pin.scriptPubkey, candidate, psbt.unsignedTx)
            && candidate.requestId == request.requestId && candidate.payload == Unsigned
            && candidate.psbtTxid == lib.computeTxid(psbt.unsignedTx)
            && candidate.replayId == ReplayIdOf(lib, request.requestId, psbt.unsignedTx, request.psbtBytes)
  {
  }

  /** What follows once the candidate is made. */
  function CandidateOutcome(lib: Library, pin: AgentPin, request: PolicyRequest, chain: ChainView,
                            records: seq<Record>, samples: seq<VelocitySample>, psbt: Psbt, candidate: Record)
    : PolicyResult<PolicyOutcome>
    requires |psbt.inputs| == |psbt.unsignedTx.inputs|
  {
    var verdict :- PreflightVerdict(records, candidate);
    if verdict.Idempotent? then Ok(CachedSignature(verdict.signedPsbtOrPartial))
    else
      var amounts :- Validation(lib, pin, request, chain, records, samples, psbt, candidate, verdict);
      Ok(ValidatedUnsigned(verdict, candidate, amounts))
  }

  lemma {:induction false} NewOutcomeIsExact(lib: Library, pin: AgentPin, request: PolicyRequest, chain: ChainView,
                                             records: seq<Record>, samples: seq<VelocitySample>, psbt: Psbt,
                                             candidate: Record, verdict: Verdict)
    requires pin.Provisioned() && |psbt.inputs| == |psbt.unsignedTx.inputs|
    requires IsCandidate(lib, pin.scriptPubkey, candidate, psbt.unsignedTx)
    requires PreflightVerdict(records, candidate) == Ok(verdict) && verdict in {Fresh, FeeBump}
    ensures var r := CandidateOutcome(lib, pin, request, chain, records, samples, psbt, candidate);
            var refusal := FirstUnmet(LaterGates(lib, pin, request, chain, samples, psbt, verdict.FeeBump?));
            (r.Err? <==> refusal.Err?) && (r.Err? ==> r.error == refusal.error)
  {
    ValidationIsExact(lib, pin, request, chain, records, samples, psbt, candidate, verdict);
  }

  lemma {:induction false} CandidateOutcomeIsExact(lib: Library, pin: AgentPin, request: PolicyRequest,
                                                   chain: ChainView, records: seq<Record>,
                                                   samples: seq<VelocitySample>, psbt: Psbt, candidate: Record)
    requires pin.Provisioned() && |psbt.inputs| == |psbt.unsignedTx.inputs|
    requires IsCandidate(lib, pin.scriptPubkey, candidate, psbt.unsignedTx)
    requires candidate.requestId == request.requestId
    ensures var r := CandidateOutcome(lib, pin, request, chain, records, samples, psbt, candidate);
            var refusal :=
              FirstUnmet(CandidateGates(lib, pin, request, chain, records, samples, psbt, candidate.replayId));
            (r.Err? <==> refusal.Err?) && (r.Err? ==> r.error == refusal.error)
  {
    var tx, verdict := psbt.unsignedTx, PreflightVerdict(records, candidate);
    var replay := ReplayGates(lib, pin.scriptPubkey, records, request.requestId, candidate.replayId, tx);
    PreflightIsExact(lib, pin.scriptPubkey, records, candidate, tx);
    if IsStored(records, request.requestId) {
      assert replay + [] == replay;
    } else {
      FirstUnmetConcat(replay, LaterGates(lib, pin, request, chain, samples, psbt, SpendsStoredCoin(records, tx)));
      if verdict.Ok? {
        NewOutcomeIsExact(lib, pin, request, chain, records, samples, psbt, candidate, verdict.value);
      }
    }
  }

  lemma {:induction false} ParsedIsExact(lib: Library, pin: AgentPin, request: PolicyRequest, chain: ChainView,
                                         records: seq<Record>, samples: seq<VelocitySample>, psbt: Psbt)
    requires pin.Provisioned() && lib.parsePsbt(request.psbtBytes) == Some(psbt) && IsPsbtV0(psbt)
    ensures var r := Evaluation(lib, pin, request, true, chain, records, samples);
            var refusal := FirstUnmet(PsbtGates(lib, pin, request, chain, records, samples, psbt));
            (r.Err? <==> refusal.Err?) && (r.Err? ==> r.error == refusal.error)
  {
    var candidate := FromPin(lib, pin, request.requestId, psbt, request.psbtBytes);
    CandidateIsExact(lib, pin, request, psbt);
    CandidateOutcomeIsExact(lib, pin, request, chain, records, samples, psbt, candidate);
    var first := [Gate(HasNoUnknownFields(psbt), UnknownField)];
    FirstUnmetOfFew(first);
    FirstUnmetConcat(first, CandidateGates(lib, pin, request, chain, records, samples, psbt, candidate.replayId));
    EvaluationOfParsed(lib, pin, request, chain, records, samples, psbt);
  }

  lemma {:induction false} EvaluationOfParsed(lib: Library, pin: AgentPin, request: PolicyRequest, chain: ChainView,
                                              records: seq<Record>, samples: seq<VelocitySample>, psbt: Psbt)
    requires lib.parsePsbt(request.psbtBytes) == Some(psbt) && IsPsbtV0(psbt)
    ensures var candidate := FromPin(lib, pin, request.requestId, psbt, request.psbtBytes);
            Evaluation(lib, pin, request, true, chain, records, samples)
            == if HasNoUnknownFields(psbt)
               then CandidateOutcome(lib, pin, request, chain, records, samples, psbt, candidate)
               else Err(UnknownField)
  {
  }

  /** An evaluation is refused exactly when some condition does not hold, with the code of the first such. */
  lemma {:induction false} RefusalIsExact(lib: Library, pin: AgentPin, request: PolicyRequest, authOk: bool,
                                          chain: ChainView, records: seq<Record>, samples: seq<VelocitySample>)
    requires pin.Provisioned()
    ensures var r := Evaluation(lib, pin, request, authOk, chain, records, samples);
            var refusal := FirstUnmet(RequestGates(lib, pin, request, authOk, chain, records, samples));
            (r.Err? <==> refusal.Err?) && (r.Err? ==> r.error == refusal.error)
  {
    var parsed := lib.parsePsbt(request.psbtBytes);
    var first := [Gate(authOk, Auth), Gate(parsed.Some? && IsPsbtV0(parsed.value), PsbtParse)];
    FirstUnmetOfFew(first);
    if parsed.Some? && IsPsbtV0(parsed.value) {
      ParsedIsExact(lib, pin, request, chain, records, samples, parsed.value);
      FirstUnmetConcat(first, PsbtGates(lib, pin, request, chain, records, samples, parsed.value));
    } else {
      assert first + [] == first;
    }
  }

  /** Nothing is looked at before the authentication. */
  lemma {:induction false} AuthComesFirst(lib: Library, pin: AgentPin, request: PolicyRequest, chain: ChainView,
                                          records: seq<Record>, samples: seq<VelocitySample>)
    ensures Evaluation(lib, pin, request, false, chain, records, samples) == Err(Auth)
  {
  }

  /** Record k is the first with this request id. */
  predicate IsFirstStored(records: seq<Record>, requestId: Bytes16, k: nat) {
    && k < |records| && records[k].requestId == requestId
    && forall j :: 0 <= j < k ==> records[j].requestId != requestId
  }

  lemma {:induction false} FindRequestIsFirst(records: seq<Record>, requestId: Bytes16, k: nat)
    ensures FindRequest(records, requestId) == Some(k) <==> IsFirstStored(records, requestId, k)
  {
  }

  lemma {:induction false} CachedAt(lib: Library, pin: AgentPin, request: PolicyRequest, chain: ChainView,
                                    records: seq<Record>, samples: seq<VelocitySample>, psbt: Psbt, bytes: seq<Byte>)
    requires lib.parsePsbt(request.psbtBytes) == Some(psbt) && IsPsbtV0(psbt)
    ensures Evaluation(lib, pin, request, true, chain, records, samples) == Ok(CachedSignature(bytes)) <==>
            && HasNoUnknownFields(psbt)
            && match FindRequest(records, request.requestId)
               case None => false
               case Some(k) =>
                 && records[k].replayId == ReplayIdOf(lib, request.requestId, psbt.unsignedTx, request.psbtBytes)
                 && records[k].payload == Signed(bytes)
  {
    var candidate := FromPin(lib, pin, request.requestId, psbt, request.psbtBytes);
    CandidateIsExact(lib, pin, request, psbt);
    PreflightIsExact(lib, pin.scriptPubkey, records, candidate, psbt.unsignedTx);
    FirstUnmetOfFew(ReplayGates(lib, pin.scriptPubkey, records, request.requestId, candidate.replayId,
                                psbt.unsignedTx));
  }

  /** A cached signature is handed out exactly to an authenticated request whose id is stored, first, under the
      replay id of its very PSBT, with that signature. */
  lemma {:induction false} CachedIsExact(lib: Library, pin: AgentPin, request: PolicyRequest, authOk: bool,
                                         chain: ChainView, records: seq<Record>, samples: seq<VelocitySample>,
                                         bytes: seq<Byte>)
    ensures Evaluation(lib, pin, request, authOk, chain, records, samples) == Ok(CachedSignature(bytes)) <==>
            && authOk
            && lib.parsePsbt(request.psbtBytes).Some?
            && var psbt := lib.parsePsbt(request.psbtBytes).value;
            && IsPsbtV0(psbt) && HasNoUnknownFields(psbt)
            && exists k: nat :: && IsFirstStored(records, request.requestId, k)
                                && records[k].replayId
                                   == ReplayIdOf(lib, request.requestId, psbt.unsignedTx, request.psbtBytes)
                                && records[k].payload == Signed(bytes)
  {
    var parsed := lib.parsePsbt(request.psbtBytes);
    if authOk && parsed.Some? && IsPsbtV0(parsed.value) {
      CachedAt(lib, pin, request, chain, records, samples, parsed.value, bytes);
      forall k: nat
        ensures FindRequest(records, request.requestId) == Some(k) <==> IsFirstStored(records, request.requestId, k)
      {
        FindRequestIsFirst(records, request.requestId, k);
      }
    }
  }
}
