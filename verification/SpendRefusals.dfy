/** What a built or accepted spend is for its path, and which error a refused one gets. */
module SpendRefusals {
  import opened Basics
  import opened Bitcoin
  import opened Structure
  import opened CoinSelection
  import opened SpendBuilder
  import opened SpendProofs

  // ----- Path, flag and sequence -----

  /** On the primary path the relative lock is off (BIP 68) and replacement is signalled (BIP 125). On the
      recovery path the script's OP_CHECKSEQUENCEVERIFY passes, for every delay that it can express. */
  predicate FitsPath(path: SpendPath, csvBlocks: U32, version: int, sequence: U32) {
    && (path == Primary ==> DisableFlag(sequence) && sequence < 0xFFFF_FFFE && sequence == 0xFFFF_FFFD)
    && (path == Recovery && 1 <= csvBlocks <= 0xFFFF ==>
          sequence == csvBlocks && CheckSequenceVerify(csvBlocks, version, sequence))
    && (path == Recovery ==> sequence == csvBlocks % 0x1_0000)
  }

  lemma {:induction false} ExpectedSequenceFits(vault: Vault, path: SpendPath)
    ensures FitsPath(path, vault.csvBlocks, 2, ExpectedSequence(vault, path))
  {
    if 1 <= vault.csvBlocks <= 0xFFFF {
      assert vault.csvBlocks / 0x8000_0000 == 0 && vault.csvBlocks / 0x40_0000 == 0;
    }
  }

  /** Every input of an accepted transaction spends the last listed coin of its outpoint, which has the flag
      of the path, with the sequence of the path. */
  lemma {:induction false} AcceptedInputFitsPath(lib: SpendLibrary, built: BuiltSpend, vault: Vault, network: string,
                                                 utxos: seq<VaultUtxo>, req: SpendRequest, tx: Transaction, i: nat)
    requires SpendVerdict(lib, built, vault, network, utxos, req) == Ok(tx) && i < |tx.inputs|
    ensures tx.version == 2 && FitsPath(req.path, vault.csvBlocks, tx.version, tx.inputs[i].sequence)
    ensures exists k :: && 0 <= k < |utxos| && utxos[k].outpoint == tx.inputs[i].previousOutput
                        && (req.path == Primary ==> utxos[k].spendablePrimary)
                        && (req.path == Recovery ==> utxos[k].spendableRecovery)
  {
    ValidatorIsExact(lib, built, vault, network, utxos, req, tx);
    assert ProperInput(vault, utxos, req.path, tx.inputs[i]);
    ExpectedSequenceFits(vault, req.path);
    var u := FindUtxo(utxos, tx.inputs[i].previousOutput).value;
    var k :| 0 <= k < |utxos| && utxos[k] == u;
  }

  /** So it is with every input that the builder signs. */
  lemma {:induction false} BuiltInputFitsPath(lib: SpendLibrary, vault: Vault, network: string, utxos: seq<VaultUtxo>,
                                              req: SpendRequest, plan: SpendPlan, tx: Transaction, i: nat)
    requires PlanSpend(lib, vault, network, utxos, req) == Ok(plan)
    requires SignedPlan(lib, vault, req, plan) == Ok(tx) && i < |tx.inputs|
    ensures tx.version == 2 && FitsPath(req.path, vault.csvBlocks, tx.version, tx.inputs[i].sequence)
    ensures exists k :: && 0 <= k < |utxos| && utxos[k].outpoint == tx.inputs[i].previousOutput
                        && (req.path == Primary ==> utxos[k].spendablePrimary)
                        && (req.path == Recovery ==> utxos[k].spendableRecovery)
  {
    PlanMeans(lib, vault, network, utxos, req, plan);
    SigningAddsWitnesses(lib, vault, plan.selected, req.path, UnsignedPlan(vault, req, plan), |plan.selected|);
    ExpectedSequenceFits(vault, req.path);
    var u := plan.selected[i];
    SelectedCoinsAreFlagged(utxos, RequestTarget(req).value, req.path, u);
    var k :| 0 <= k < |utxos| && utxos[k] == u;
  }

  // ----- Which error a refused transaction gets -----

  type Gates = seq<Gate<SpendError>>

  function RequestGates(vault: Vault, network: string, built: BuiltSpend, req: SpendRequest): Gates {
    [Gate(vault.isValid && vault.network == network, InvalidVault),
     Gate(0 < req.amountSats && req.feeSats <= 1_000_000 && req.feeSats <= req.amountSats, RequestLimits),
     Gate(built.path == req.path && built.amountSats == req.amountSats && built.feeSats == req.feeSats,
          MetadataMismatch)]
  }

  function TransactionGates(lib: SpendLibrary, built: BuiltSpend, req: SpendRequest, tx: Transaction): Gates {
    [Gate(lib.txidText(tx) == built.txid, TxidMismatch),
     Gate(tx.inputs != [], NoInputs),
     Gate(|tx.inputs| <= 100, TooManyInputs),
     Gate(tx.version == 2 && tx.lockTime == 0, VersionOrLockTime),
     Gate(req.feeSats <= lib.vsize(tx) * 100 <= U64_MAX, FeeRate)]
  }

  /** No earlier input spends the same coin. */
  predicate IsNew(inputs: seq<TxIn>, i: nat)
    requires i < |inputs|
  {
    forall j :: 0 <= j < i ==> inputs[j].previousOutput != inputs[i].previousOutput
  }

  /** The conditions on input i. The last is on the total so far. */
  ghost function InputGates(vault: Vault, utxos: seq<VaultUtxo>, path: SpendPath, inputs: seq<TxIn>, i: nat): Gates
    requires i < |inputs|
  {
    var op := inputs[i].previousOutput;
    [Gate(IsNew(inputs, i), DuplicateInput)]
    + match FindUtxo(utxos, op)
      case None => [Gate(false, UnknownInput)]
      case Some(u) =>
        [Gate(u.txout.scriptPubkey == vault.scriptPubkey, NotVaultInput),
         Gate((path == Primary ==> u.spendablePrimary) && (path == Recovery ==> u.spendableRecovery), NotSpendable),
         Gate(inputs[i].sequence == (if path == Primary then 0xFFFF_FFFD else vault.csvBlocks % 0x1_0000),
              WrongSequence),
         Gate(inputs[i].witnessItems != [], MissingWitness),
         Gate(SumBy(InputWorths(utxos), inputs[..i + 1]) <= U64_MAX, InputOverflow)]
  }

  ghost function InputLists(vault: Vault, utxos: seq<VaultUtxo>, path: SpendPath, inputs: seq<TxIn>, n: nat)
    : (lists: seq<Gates>)
    requires n <= |inputs|
    ensures |lists| == n
    ensures forall i :: 0 <= i < n ==> lists[i] == InputGates(vault, utxos, path, inputs, i)
  {
    seq(n, i requires 0 <= i < n => InputGates(vault, utxos, path, inputs, i))
  }

  function OutputGates(lib: SpendLibrary, vault: Vault, network: string, built: BuiltSpend, req: SpendRequest,
                       outputs: seq<TxOut>): Gates
  {
    match lib.destinationScript(req.destination, network)
    case None => [Gate(false, InvalidDestination)]
    case Some(destination) =>
      [Gate(req.amountSats >= lib.minimalNonDust(destination), DestinationDust),
       Gate(|outputs| == (if built.changeSats > 0 then 2 else 1), UnexpectedOutputs),
       Gate(outputs != [] && outputs[0] == TxOut(req.amountSats, destination), DestinationMismatch),
       Gate(built.changeSats == 0
            || (&& built.changeSats >= lib.minimalNonDust(vault.scriptPubkey)
                && |outputs| > 1 && outputs[1] == TxOut(built.changeSats, vault.scriptPubkey)), ChangeMismatch)]
  }

  /** The test of the reported change cannot fail once these hold. */
  function FeeGates(req: SpendRequest, outputs: seq<TxOut>, totalIn: nat): Gates {
    [Gate(SumBy(ValueOf, outputs) <= U64_MAX, OutputOverflow),
     Gate(SumBy(ValueOf, outputs) <= totalIn, OutputsExceedInputs),
     Gate(totalIn == SumBy(ValueOf, outputs) + req.feeSats, FeeMismatch)]
  }

  ghost function DecodedGates(lib: SpendLibrary, built: BuiltSpend, vault: Vault, network: string,
                              utxos: seq<VaultUtxo>, req: SpendRequest, tx: Transaction): Gates
  {
    TransactionGates(lib, built, req, tx)
    + (Flatten(InputLists(vault, utxos, req.path, tx.inputs, |tx.inputs|))
       + (OutputGates(lib, vault, network, built, req, tx.outputs)
          + FeeGates(req, tx.outputs, SumBy(InputWorths(utxos), tx.inputs))))
  }

  ghost function SpendGates(lib: SpendLibrary, built: BuiltSpend, vault: Vault, network: string,
                            utxos: seq<VaultUtxo>, req: SpendRequest): Gates
  {
    RequestGates(vault, network, built, req)
    + match lib.decodeHex(built.txHex)
      case None => [Gate(false, Undecodable)]
      case Some(tx) => DecodedGates(lib, built, vault, network, utxos, req, tx)
  }

  lemma {:induction false} InputIsExact(vault: Vault, utxos: seq<VaultUtxo>, path: SpendPath, inputs: seq<TxIn>, n: nat)
    requires n < |inputs|
    ensures var value := InputValue(vault, utxos, path, inputs[n]);
            FirstUnmet(InputGates(vault, utxos, path, inputs, n))
            == if Repeats(inputs, n) then Err(DuplicateInput)
               else if value.Err? then Err(value.error)
               else if SumBy(InputWorths(utxos), inputs[..n]) + value.value > U64_MAX then Err(InputOverflow)
               else Ok(())
  {
    FirstUnmetOfFew(InputGates(vault, utxos, path, inputs, n));
    SumAppend(InputWorths(utxos), inputs[..n], inputs[n]);
    assert inputs[..n + 1] == inputs[..n] + [inputs[n]];
  }

  lemma {:induction false} OneMoreInput(vault: Vault, utxos: seq<VaultUtxo>, path: SpendPath, inputs: seq<TxIn>, n: nat)
    requires n < |inputs|
    ensures var before := FirstUnmet(Flatten(InputLists(vault, utxos, path, inputs, n)));
            var value, total := InputValue(vault, utxos, path, inputs[n]), SumBy(InputWorths(utxos), inputs[..n]);
            FirstUnmet(Flatten(InputLists(vault, utxos, path, inputs, n + 1)))
            == if before.Err? then before
               else if Repeats(inputs, n) then Err(DuplicateInput)
               else if value.Err? then Err(value.error)
               else if total + value.value > U64_MAX then Err(InputOverflow)
               else Ok(())
  {
    var lists := InputLists(vault, utxos, path, inputs, n + 1);
    assert lists[..n] == InputLists(vault, utxos, path, inputs, n);
    FirstUnmetConcat(Flatten(lists[..n]), lists[n]);
    InputIsExact(vault, utxos, path, inputs, n);
  }

  ghost predicate TotalAgrees(vault: Vault, utxos: seq<VaultUtxo>, path: SpendPath, inputs: seq<TxIn>, n: nat)
    requires n <= |inputs|
  {
    var refusal := FirstUnmet(Flatten(InputLists(vault, utxos, path, inputs, n)));
    var total := InputTotal(vault, utxos, path, inputs, n);
    (total.Err? <==> refusal.Err?) && (total.Err? ==> total.error == refusal.error)
  }

  lemma {:induction false} TotalIsSum(vault: Vault, utxos: seq<VaultUtxo>, path: SpendPath, inputs: seq<TxIn>, n: nat)
    requires n <= |inputs| && InputTotal(vault, utxos, path, inputs, n).Ok?
    ensures InputTotal(vault, utxos, path, inputs, n).value == SumBy(InputWorths(utxos), inputs[..n])
  {
    InputTotalMeans(vault, utxos, path, inputs, n);
  }

  lemma {:induction false} TotalOneMore(vault: Vault, utxos: seq<VaultUtxo>, path: SpendPath, inputs: seq<TxIn>, n: nat)
    requires n < |inputs|
    ensures var before, value := InputTotal(vault, utxos, path, inputs, n), InputValue(vault, utxos, path, inputs[n]);
            InputTotal(vault, utxos, path, inputs, n + 1)
            == if before.Err? then before
               else if Repeats(inputs, n) then Err(DuplicateInput)
               else if value.Err? then Err(value.error)
               else if before.value + value.value > U64_MAX then Err(InputOverflow)
               else Ok(before.value + value.value)
  {
  }

  lemma {:induction false} InputsAreExact(vault: Vault, utxos: seq<VaultUtxo>, path: SpendPath, inputs: seq<TxIn>,
                                          n: nat)
    requires n <= |inputs|
    ensures TotalAgrees(vault, utxos, path, inputs, n)
  {
    if n == 0 {
    } else {
      InputsAreExact(vault, utxos, path, inputs, n - 1);
      if InputTotal(vault, utxos, path, inputs, n - 1).Ok? {
        TotalIsSum(vault, utxos, path, inputs, n - 1);
      }
      TotalOneMore(vault, utxos, path, inputs, n - 1);
      OneMoreInput(vault, utxos, path, inputs, n - 1);
    }
  }

  lemma {:induction false} OutputsAreExact(lib: SpendLibrary, vault: Vault, network: string, built: BuiltSpend,
                                           req: SpendRequest, tx: Transaction)
    ensures CheckOutputs(lib, vault, network, built, req, tx)
         == FirstUnmet(OutputGates(lib, vault, network, built, req, tx.outputs))
  {
    FirstUnmetOfFew(OutputGates(lib, vault, network, built, req, tx.outputs));
  }

  lemma {:induction false} FeeIsExact(req: SpendRequest, tx: Transaction, totalIn: U64)
    ensures CheckFeePaid(req, tx, totalIn) == FirstUnmet(FeeGates(req, tx.outputs, totalIn))
  {
    FirstUnmetOfFew(FeeGates(req, tx.outputs, totalIn));
  }

  lemma {:induction false} TransactionIsExact(lib: SpendLibrary, built: BuiltSpend, req: SpendRequest, tx: Transaction)
    requires lib.decodeHex(built.txHex) == Some(tx)
    ensures var refusal := FirstUnmet(TransactionGates(lib, built, req, tx));
            DecodedSpend(lib, built, req) == if refusal.Err? then Err(refusal.error) else Ok(tx)
  {
    FirstUnmetOfFew(TransactionGates(lib, built, req, tx));
  }

  /** What follows the request's own conditions. */
  function DecodedVerdict(lib: SpendLibrary, built: BuiltSpend, vault: Vault, network: string,
                          utxos: seq<VaultUtxo>, req: SpendRequest): SpendResult<Transaction>
  {
    var tx :- DecodedSpend(lib, built, req);
    var totalIn :- InputTotal(vault, utxos, req.path, tx.inputs, |tx.inputs|);
    var _ :- CheckOutputs(lib, vault, network, built, req, tx);
    var _ :- CheckFeePaid(req, tx, totalIn);
    var _ :- CheckReportedChange(built, req, totalIn);
    Ok(tx)
  }

  lemma {:induction false} DecodedIsExact(lib: SpendLibrary, built: BuiltSpend, vault: Vault, network: string,
                                          utxos: seq<VaultUtxo>, req: SpendRequest, tx: Transaction)
    requires lib.decodeHex(built.txHex) == Some(tx)
    ensures var r := DecodedVerdict(lib, built, vault, network, utxos, req);
            var refusal := FirstUnmet(DecodedGates(lib, built, vault, network, utxos, req, tx));
            r == if refusal.Err? then Err(refusal.error) else Ok(tx)
  {
    var totalIn := InputTotal(vault, utxos, req.path, tx.inputs, |tx.inputs|);
    var inputs := Flatten(InputLists(vault, utxos, req.path, tx.inputs, |tx.inputs|));
    var outputs := OutputGates(lib, vault, network, built, req, tx.outputs);
    var fee := FeeGates(req, tx.outputs, SumBy(InputWorths(utxos), tx.inputs));
    TransactionIsExact(lib, built, req, tx);
    InputsAreExact(vault, utxos, req.path, tx.inputs, |tx.inputs|);
    assert tx.inputs[..|tx.inputs|] == tx.inputs;
    OutputsAreExact(lib, vault, network, built, req, tx);
    if totalIn.Ok? {
      TotalIsSum(vault, utxos, req.path, tx.inputs, |tx.inputs|);
      FeeIsExact(req, tx, totalIn.value);
      if CheckOutputs(lib, vault, network, built, req, tx).Ok? {
        ChangeTestIsImplied(lib, vault, network, built, req, tx, totalIn.value);
      }
    }
    FirstUnmetConcat(outputs, fee);
    FirstUnmetConcat(inputs, outputs + fee);
    FirstUnmetConcat(TransactionGates(lib, built, req, tx), inputs + (outputs + fee));
  }

  /** The check refuses a transaction with the error of the first condition that does not hold, and accepts it
      when all hold. */
  lemma {:induction false} VerdictIsExact(lib: SpendLibrary, built: BuiltSpend, vault: Vault, network: string,
                                          utxos: seq<VaultUtxo>, req: SpendRequest)
    ensures var refusal := FirstUnmet(SpendGates(lib, built, vault, network, utxos, req));
            SpendVerdict(lib, built, vault, network, utxos, req)
            == if refusal.Err? then Err(refusal.error)
               else match lib.decodeHex(built.txHex) case None => Err(Undecodable) case Some(tx) => Ok(tx)
  {
    var first := RequestGates(vault, network, built, req);
    FirstUnmetOfFew(first);
    match lib.decodeHex(built.txHex) {
      case None =>
        FirstUnmetConcat(first, [Gate(false, Undecodable)]);
        FirstUnmetOfFew([Gate(false, Undecodable)]);
      case Some(tx) =>
        DecodedIsExact(lib, built, vault, network, utxos, req, tx);
        FirstUnmetConcat(first, DecodedGates(lib, built, vault, network, utxos, req, tx));
    }
    assert SpendVerdict(lib, built, vault, network, utxos, req)
        == if FirstUnmet(first).Err? then Err(FirstUnmet(first).error)
           else DecodedVerdict(lib, built, vault, network, utxos, req);
  }

  // ----- Which error a refused request gets -----

  function AskGates(vault: Vault, network: string, req: SpendRequest): Gates {
    [Gate(vault.isValid && vault.network == network, InvalidVault),
     Gate(req.amountSats > 0, InvalidAmount),
     Gate(req.feeSats <= 1_000_000, FeeCap),
     Gate(req.feeSats <= req.amountSats, FeeAboveAmount),
     Gate(req.amountSats + req.feeSats <= U64_MAX, AmountOverflow)]
  }

  function DestinationGates(lib: SpendLibrary, network: string, req: SpendRequest): Gates {
    match lib.destinationScript(req.destination, network)
    case None => [Gate(false, InvalidDestination)]
    case Some(destination) => [Gate(req.amountSats >= lib.minimalNonDust(destination), DestinationDust)]
  }

  ghost function CoinGates(utxos: seq<VaultUtxo>, path: SpendPath, target: nat): Gates {
    var sorted := Sorted(utxos, path);
    [Gate(forall n: nat :: !OverflowsAt(sorted, target, n), InputOverflow),
     Gate(!NeedsTooMany(sorted, target), TooManyInputs),
     Gate(!IsInsufficient(sorted, target), InsufficientFunds)]
  }

  /** Input after input, for the unsigned transaction. */
  function SigningGates(lib: SpendLibrary, vault: Vault, path: SpendPath, unsigned: Transaction, u: VaultUtxo, i: nat)
    : Gates
  {
    match lib.satisfy(unsigned, i, vault.witnessScript, u.txout.value, path == Recovery)
    case None => [Gate(false, Unsatisfied)]
    case Some(s) => [Gate(s.scriptSig == [], UnexpectedScriptSig)]
  }

  function SigningLists(lib: SpendLibrary, vault: Vault, selected: seq<VaultUtxo>, path: SpendPath,
                        unsigned: Transaction, n: nat): (lists: seq<Gates>)
    requires n <= |selected|
    ensures |lists| == n
    ensures forall i :: 0 <= i < n ==> lists[i] == SigningGates(lib, vault, path, unsigned, selected[i], i)
  {
    seq(n, i requires 0 <= i < n => SigningGates(lib, vault, path, unsigned, selected[i], i))
  }

  lemma {:induction false} OneMoreSignature(lib: SpendLibrary, vault: Vault, selected: seq<VaultUtxo>, path: SpendPath,
                                            unsigned: Transaction, n: nat)
    requires n < |selected|
    ensures var before := FirstUnmet(Flatten(SigningLists(lib, vault, selected, path, unsigned, n)));
            FirstUnmet(Flatten(SigningLists(lib, vault, selected, path, unsigned, n + 1)))
            == if before.Err? then before
               else match lib.satisfy(unsigned, n, vault.witnessScript, selected[n].txout.value, path.Recovery?)
                 case None => Err(Unsatisfied)
                 case Some(s) => if s.scriptSig != [] then Err(UnexpectedScriptSig) else Ok(())
  {
    var lists := SigningLists(lib, vault, selected, path, unsigned, n + 1);
    assert lists[..n] == SigningLists(lib, vault, selected, path, unsigned, n);
    FirstUnmetConcat(Flatten(lists[..n]), lists[n]);
    FirstUnmetOfFew(lists[n]);
  }

  lemma {:induction false} SigningIsExact(lib: SpendLibrary, vault: Vault, selected: seq<VaultUtxo>, path: SpendPath,
                                          unsigned: Transaction, n: nat)
    requires lib.SigningIgnoresWitnesses() && n <= |selected| == |unsigned.inputs|
    ensures var refusal := FirstUnmet(Flatten(SigningLists(lib, vault, selected, path, unsigned, n)));
            SignedUpTo(lib, vault, selected, path, unsigned, n)
            == if refusal.Err? then Err(refusal.error)
               else Ok(Witnessed(lib, vault, selected, path, unsigned, n))
  {
    if n == 0 {
      assert Witnessed(lib, vault, selected, path, unsigned, 0).inputs == unsigned.inputs;
    } else {
      SigningIsExact(lib, vault, selected, path, unsigned, n - 1);
      OneMoreSignature(lib, vault, selected, path, unsigned, n - 1);
      if SignedUpTo(lib, vault, selected, path, unsigned, n - 1).Ok? {
        SigningOneMore(lib, vault, selected, path, unsigned, n - 1);
      } else {
        SigningStopsAtFirstError(lib, vault, selected, path, unsigned, n - 1, n);
      }
    }
  }

  /** Each signature, then the fee rate. */
  function PlanGates(lib: SpendLibrary, vault: Vault, req: SpendRequest, plan: SpendPlan): Gates {
    var unsigned, n := UnsignedPlan(vault, req, plan), |plan.selected|;
    Flatten(SigningLists(lib, vault, plan.selected, req.path, unsigned, n))
    + [Gate(req.feeSats <= lib.vsize(Witnessed(lib, vault, plan.selected, req.path, unsigned, n)) * 100 <= U64_MAX,
            FeeRate)]
  }

  lemma {:induction false} PlanIsExact(lib: SpendLibrary, vault: Vault, req: SpendRequest, plan: SpendPlan)
    requires lib.SigningIgnoresWitnesses()
    ensures var r := PlanOutcome(lib, vault, req, plan);
            var refusal := FirstUnmet(PlanGates(lib, vault, req, plan));
            (r.Err? <==> refusal.Err?) && (r.Err? ==> r.error == refusal.error)
  {
    var unsigned, n := UnsignedPlan(vault, req, plan), |plan.selected|;
    var signing := Flatten(SigningLists(lib, vault, plan.selected, req.path, unsigned, n));
    var tx := Witnessed(lib, vault, plan.selected, req.path, unsigned, n);
    var rate := [Gate(req.feeSats <= lib.vsize(tx) * 100 <= U64_MAX, FeeRate)];
    SigningIsExact(lib, vault, plan.selected, req.path, unsigned, n);
    FirstUnmetOfFew(rate);
    FirstUnmetConcat(signing, rate);
  }

  /** The conditions once coins are selected. */
  function SelectedGates(lib: SpendLibrary, vault: Vault, req: SpendRequest, destination: Script,
                         selected: seq<VaultUtxo>): Gates
  {
    var change := SumBy(CoinOf, selected) - (req.amountSats + req.feeSats);
    if change < 0 || change > U64_MAX then []
    else [Gate(change == 0 || change >= lib.minimalNonDust(vault.scriptPubkey), ChangeDust)]
         + PlanGates(lib, vault, req, SpendPlan(destination, selected, change))
  }

  /** The conditions on what was selected, if anything was. */
  function AfterCoins(lib: SpendLibrary, vault: Vault, network: string, utxos: seq<VaultUtxo>, req: SpendRequest,
                      target: U64): Gates
  {
    var destination, selection := lib.destinationScript(req.destination, network), Selection(utxos, target, req.path);
    if destination.None? || selection.Err? then []
    else SelectedGates(lib, vault, req, destination.value, selection.value)
  }

  /** The conditions once the request is within limits. */
  ghost function TargetGates(lib: SpendLibrary, vault: Vault, network: string, utxos: seq<VaultUtxo>, req: SpendRequest)
    : Gates
    requires 0 < req.amountSats + req.feeSats <= U64_MAX
  {
    var target := req.amountSats + req.feeSats;
    DestinationGates(lib, network, req)
    + (CoinGates(utxos, req.path, target) + AfterCoins(lib, vault, network, utxos, req, target))
  }

  /** All of them, in order. */
  ghost function BuildGates(lib: SpendLibrary, vault: Vault, network: string, utxos: seq<VaultUtxo>, req: SpendRequest)
    : Gates
  {
    AskGates(vault, network, req)
    + (if 0 < req.amountSats + req.feeSats <= U64_MAX then TargetGates(lib, vault, network, utxos, req) else [])
  }

  /** The rest of the builder, once coins are selected. */
  function SelectedOutcome(lib: SpendLibrary, vault: Vault, req: SpendRequest, destination: Script,
                           selected: seq<VaultUtxo>, target: U64): SpendResult<BuiltSpend>
  {
    var changeSats :- ChangeAfter(lib, vault, selected, target);
    PlanOutcome(lib, vault, req, SpendPlan(destination, selected, changeSats))
  }

  function PlanOutcome(lib: SpendLibrary, vault: Vault, req: SpendRequest, plan: SpendPlan): SpendResult<BuiltSpend> {
    var tx :- SignedPlan(lib, vault, req, plan);
    Ok(BuiltFrom(lib, req, plan, tx))
  }

  lemma {:induction false} ChangeIsExact(lib: SpendLibrary, vault: Vault, selected: seq<VaultUtxo>, target: U64)
    requires target <= SumBy(CoinOf, selected) <= U64_MAX
    ensures var change := SumBy(CoinOf, selected) - target;
            ChangeAfter(lib, vault, selected, target)
            == if change == 0 || change >= lib.minimalNonDust(vault.scriptPubkey) then Ok(change) else Err(ChangeDust)
  {
  }

  lemma {:induction false} SelectedIsExact(lib: SpendLibrary, vault: Vault, req: SpendRequest, destination: Script,
                                           selected: seq<VaultUtxo>)
    requires lib.SigningIgnoresWitnesses()
    requires req.amountSats + req.feeSats <= SumBy(CoinOf, selected) <= U64_MAX
    ensures var r := SelectedOutcome(lib, vault, req, destination, selected, req.amountSats + req.feeSats);
            var refusal := FirstUnmet(SelectedGates(lib, vault, req, destination, selected));
            (r.Err? <==> refusal.Err?) && (r.Err? ==> r.error == refusal.error)
  {
    var change := SumBy(CoinOf, selected) - (req.amountSats + req.feeSats);
    var dust := [Gate(change == 0 || change >= lib.minimalNonDust(vault.scriptPubkey), ChangeDust)];
    var plan := SpendPlan(destination, selected, change);
    ChangeIsExact(lib, vault, selected, req.amountSats + req.feeSats);
    PlanIsExact(lib, vault, req, plan);
    FirstUnmetOfFew(dust);
    FirstUnmetConcat(dust, PlanGates(lib, vault, req, plan));
    assert SelectedGates(lib, vault, req, destination, selected) == dust + PlanGates(lib, vault, req, plan);
  }

  /** What follows the request's limits. */
  function TargetOutcome(lib: SpendLibrary, vault: Vault, network: string, utxos: seq<VaultUtxo>, req: SpendRequest,
                         target: U64): SpendResult<BuiltSpend>
  {
    var destination :- RequireDestination(lib, network, req);
    CoinsOutcome(lib, vault, utxos, req, destination, target)
  }

  function CoinsOutcome(lib: SpendLibrary, vault: Vault, utxos: seq<VaultUtxo>, req: SpendRequest, destination: Script,
                        target: U64): SpendResult<BuiltSpend>
  {
    var selected :- Selection(utxos, target, req.path);
    SelectedOutcome(lib, vault, req, destination, selected, target)
  }

  lemma {:induction false} CoinsAreExact(utxos: seq<VaultUtxo>, path: SpendPath, target: U64)
    requires target >= 1
    ensures var r := Selection(utxos, target, path);
            var refusal := FirstUnmet(CoinGates(utxos, path, target));
            && (r.Err? <==> refusal.Err?) && (r.Err? ==> r.error == refusal.error)
            && (r.Ok? ==> target <= SumBy(CoinOf, r.value) <= U64_MAX)
  {
    FirstUnmetOfFew(CoinGates(utxos, path, target));
    SelectionRefusalIsExact(utxos, target, path);
    if Selection(utxos, target, path).Ok? {
      SelectionIsOptimal(utxos, target, path, []);
    }
  }

  lemma {:induction false} CoinsThenSelected(lib: SpendLibrary, vault: Vault, network: string, utxos: seq<VaultUtxo>,
                                             req: SpendRequest, target: U64, destination: Script)
    requires lib.SigningIgnoresWitnesses() && 0 < target == req.amountSats + req.feeSats
    requires lib.destinationScript(req.destination, network) == Some(destination)
    ensures var r := CoinsOutcome(lib, vault, utxos, req, destination, target);
            var refusal := FirstUnmet(CoinGates(utxos, req.path, target)
                                      + AfterCoins(lib, vault, network, utxos, req, target));
            (r.Err? <==> refusal.Err?) && (r.Err? ==> r.error == refusal.error)
  {
    var selection := Selection(utxos, target, req.path);
    CoinsAreExact(utxos, req.path, target);
    FirstUnmetConcat(CoinGates(utxos, req.path, target), AfterCoins(lib, vault, network, utxos, req, target));
    if selection.Ok? {
      SelectedIsExact(lib, vault, req, destination, selection.value);
    }
  }

  lemma {:induction false} TargetIsExact(lib: SpendLibrary, vault: Vault, network: string, utxos: seq<VaultUtxo>,
                                         req: SpendRequest)
    requires lib.SigningIgnoresWitnesses() && 0 < req.amountSats + req.feeSats <= U64_MAX
    ensures var r := TargetOutcome(lib, vault, network, utxos, req, req.amountSats + req.feeSats);
            var refusal := FirstUnmet(TargetGates(lib, vault, network, utxos, req));
            (r.Err? <==> refusal.Err?) && (r.Err? ==> r.error == refusal.error)
  {
    var target := req.amountSats + req.feeSats;
    var ask, coins := DestinationGates(lib, network, req), CoinGates(utxos, req.path, target);
    FirstUnmetOfFew(ask);
    FirstUnmetConcat(ask, coins + AfterCoins(lib, vault, network, utxos, req, target));
    match lib.destinationScript(req.destination, network)
    case None =>
    case Some(destination) => CoinsThenSelected(lib, vault, network, utxos, req, target, destination);
  }

  lemma {:induction false} AskIsExact(vault: Vault, network: string, req: SpendRequest)
    ensures FirstUnmet(AskGates(vault, network, req))
         == if !vault.isValid || vault.network != network then Err(InvalidVault)
            else if RequestTarget(req).Err? then Err(RequestTarget(req).error) else Ok(())
  {
    FirstUnmetOfFew(AskGates(vault, network, req));
  }

  /** What is settled before signing, once the request is within limits. */
  function TargetPlan(lib: SpendLibrary, vault: Vault, network: string, utxos: seq<VaultUtxo>, req: SpendRequest,
                      target: U64): SpendResult<SpendPlan>
  {
    var destination :- RequireDestination(lib, network, req);
    var selected :- Selection(utxos, target, req.path);
    var changeSats :- ChangeAfter(lib, vault, selected, target);
    Ok(SpendPlan(destination, selected, changeSats))
  }

  lemma {:induction false} PlanIsAskThenTarget(lib: SpendLibrary, vault: Vault, network: string,
                                               utxos: seq<VaultUtxo>, req: SpendRequest)
    ensures var ask := FirstUnmet(AskGates(vault, network, req));
            PlanSpend(lib, vault, network, utxos, req)
            == if ask.Err? then Err(ask.error)
               else TargetPlan(lib, vault, network, utxos, req, req.amountSats + req.feeSats)
  {
    AskIsExact(vault, network, req);
  }

  lemma {:induction false} TargetInParts(lib: SpendLibrary, vault: Vault, network: string, utxos: seq<VaultUtxo>,
                                         req: SpendRequest, target: U64)
    ensures var plan := TargetPlan(lib, vault, network, utxos, req, target);
            TargetOutcome(lib, vault, network, utxos, req, target)
            == if plan.Err? then Err(plan.error) else PlanOutcome(lib, vault, req, plan.value)
  {
  }

  lemma {:induction false} SpendIsAskThenTarget(lib: SpendLibrary, vault: Vault, network: string,
                                                utxos: seq<VaultUtxo>, req: SpendRequest)
    ensures var ask := FirstUnmet(AskGates(vault, network, req));
            Spend(lib, vault, network, utxos, req)
            == if ask.Err? then Err(ask.error)
               else TargetOutcome(lib, vault, network, utxos, req, req.amountSats + req.feeSats)
  {
    AskIsExact(vault, network, req);
    PlanIsAskThenTarget(lib, vault, network, utxos, req);
    if FirstUnmet(AskGates(vault, network, req)).Ok? {
      TargetInParts(lib, vault, network, utxos, req, req.amountSats + req.feeSats);
    }
  }

  /** The builder refuses a request with the error of the first condition that does not hold. */
  lemma {:induction false} BuildRefusalIsExact(lib: SpendLibrary, vault: Vault, network: string, utxos: seq<VaultUtxo>,
                                               req: SpendRequest)
    requires lib.SigningIgnoresWitnesses()
    ensures var r := Spend(lib, vault, network, utxos, req);
            var refusal := FirstUnmet(BuildGates(lib, vault, network, utxos, req));
            (r.Err? <==> refusal.Err?) && (r.Err? ==> r.error == refusal.error)
  {
    var ask := AskGates(vault, network, req);
    SpendIsAskThenTarget(lib, vault, network, utxos, req);
    if 0 < req.amountSats + req.feeSats <= U64_MAX {
      TargetIsExact(lib, vault, network, utxos, req);
      FirstUnmetConcat(ask, TargetGates(lib, vault, network, utxos, req));
    } else {
      FirstUnmetOfFew(ask);
      assert ask + [] == ask;
    }
  }
}
