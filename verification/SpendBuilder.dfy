/** Building a vault spend, and checking a built one from its transaction alone. */
module SpendBuilder {
  import opened Basics
  import opened Bitcoin
  import opened CoinSelection

  const MAX_FEE_SATS: U64 := 1_000_000
  const MAX_FEE_RATE_SAT_PER_VB: U64 := 100
  const ENABLE_RBF_NO_LOCKTIME: U32 := 0xFFFF_FFFD

  /** The vault descriptor, with its derived scripts. `isValid` is the outcome of its own consistency check. */
  datatype Vault = Vault(isValid: bool, network: string, csvBlocks: U32, scriptPubkey: Script, witnessScript: Script)

  datatype SpendRequest = SpendRequest(destination: string, amountSats: U64, feeSats: U64, path: SpendPath)

  datatype BuiltSpend = BuiltSpend(
    txHex: string,
    txid: string,
    path: SpendPath,
    feeSats: U64,
    amountSats: U64,
    changeSats: U64)

  datatype Satisfaction = Satisfaction(witnessItems: seq<seq<Byte>>, scriptSig: seq<Byte>)

  /** Addresses, weights, text forms, and signing with whatever keys the caller holds. `satisfy` takes the
      transaction, the input, the witness script, the value spent and whether the timelock branch is open. */
  datatype SpendLibrary = SpendLibrary(
    destinationScript: (string, string) -> Option<Script>,
    minimalNonDust: Script -> U64,
    vsize: Transaction -> nat,
    txidText: Transaction -> string,
    encodeHex: Transaction -> string,
    decodeHex: string -> Option<Transaction>,
    satisfy: (Transaction, nat, Script, U64, bool) -> Option<Satisfaction>)
  {
    /** Decoding inverts encoding, and a satisfied witness script has a witness. */
    ghost predicate WellBehaved() {
      && (forall tx: Transaction :: tx.inputs != [] ==> decodeHex(encodeHex(tx)) == Some(tx))
      && (forall tx: Transaction, i: nat, script: Script, value: U64, older: bool ::
            satisfy(tx, i, script, value, older).Some? ==>
              satisfy(tx, i, script, value, older).value.witnessItems != [])
    }

    /** Signing does not depend on the witnesses already in place (BIP 143, Specification: the digest takes
        no witness; the signatures are deterministic). */
    ghost predicate SigningIgnoresWitnesses() {
      forall a: Transaction, b: Transaction, i: nat, script: Script, value: U64, older: bool
        {:trigger SameButWitnesses(a, b), satisfy(a, i, script, value, older)} ::
        SameButWitnesses(a, b) ==> satisfy(a, i, script, value, older) == satisfy(b, i, script, value, older)
    }
  }

  predicate SameButWitnesses(a: Transaction, b: Transaction) {
    && a.version == b.version && a.lockTime == b.lockTime && a.outputs == b.outputs
    && |a.inputs| == |b.inputs|
    && forall i :: 0 <= i < |a.inputs| ==> a.inputs[i] == b.inputs[i].(witnessItems := a.inputs[i].witnessItems)
  }

  /** The relative height is cast to 16 bits. */
  function ExpectedSequence(vault: Vault, path: SpendPath): U32 {
    match path
    case Primary => ENABLE_RBF_NO_LOCKTIME
    case Recovery => vault.csvBlocks % 0x1_0000
  }

  function RequireFeeRate(lib: SpendLibrary, tx: Transaction, feeSats: U64): SpendResult<()> {
    var maximumFee := lib.vsize(tx) * MAX_FEE_RATE_SAT_PER_VB;
    if maximumFee > U64_MAX then Err(FeeRate)
    else if feeSats > maximumFee then Err(FeeRate)
    else Ok(())
  }

  // ----- Building -----

  function RequestTarget(req: SpendRequest): SpendResult<U64> {
    if req.amountSats == 0 then Err(InvalidAmount)
    else if req.feeSats > MAX_FEE_SATS then Err(FeeCap)
    else if req.feeSats > req.amountSats then Err(FeeAboveAmount)
    else if req.amountSats + req.feeSats > U64_MAX then Err(AmountOverflow)
    else Ok(req.amountSats + req.feeSats)
  }

  function RequireDestination(lib: SpendLibrary, network: string, req: SpendRequest): SpendResult<Script> {
    match lib.destinationScript(req.destination, network)
    case None => Err(InvalidDestination)
    case Some(script) => if req.amountSats < lib.minimalNonDust(script) then Err(DestinationDust) else Ok(script)
  }

  function ChangeAfter(lib: SpendLibrary, vault: Vault, selected: seq<VaultUtxo>, target: U64): SpendResult<U64> {
    var totalIn := SumBy(CoinOf, selected);
    if totalIn > U64_MAX then Err(InputOverflow)
    else if totalIn < target then Err(InsufficientFunds)
    else if 0 < totalIn - target < lib.minimalNonDust(vault.scriptPubkey) then Err(ChangeDust)
    else Ok(totalIn - target)
  }

  function SpendOutputs(vault: Vault, destination: Script, amountSats: U64, changeSats: U64): seq<TxOut> {
    [TxOut(amountSats, destination)] + if changeSats > 0 then [TxOut(changeSats, vault.scriptPubkey)] else []
  }

  function UnsignedSpend(vault: Vault, selected: seq<VaultUtxo>, path: SpendPath, outputs: seq<TxOut>): Transaction {
    Transaction(2, 0, seq(|selected|, i requires 0 <= i < |selected| =>
                  TxIn(selected[i].outpoint, ExpectedSequence(vault, path), [])), outputs)
  }

  /** The transaction with the witnesses of its first n inputs. */
  function SignedUpTo(lib: SpendLibrary, vault: Vault, selected: seq<VaultUtxo>, path: SpendPath,
                      unsigned: Transaction, n: nat): (r: SpendResult<Transaction>)
    requires n <= |selected| == |unsigned.inputs|
    ensures r.Ok? ==> |r.value.inputs| == |unsigned.inputs|
  {
    if n == 0 then Ok(unsigned)
    else
      var tx :- SignedUpTo(lib, vault, selected, path, unsigned, n - 1);
      match lib.satisfy(tx, n - 1, vault.witnessScript, selected[n - 1].txout.value, path.Recovery?)
      case None => Err(Unsatisfied)
      case Some(s) =>
        if s.scriptSig != [] then Err(UnexpectedScriptSig)
        else Ok(tx.(inputs := tx.inputs[n - 1 := tx.inputs[n - 1].(witnessItems := s.witnessItems)]))
  }

  /** Everything that is settled before signing. */
  datatype SpendPlan = SpendPlan(destination: Script, selected: seq<VaultUtxo>, changeSats: U64)

  function PlanSpend(lib: SpendLibrary, vault: Vault, network: string, utxos: seq<VaultUtxo>, req: SpendRequest)
    : SpendResult<SpendPlan>
  {
    if !vault.isValid || vault.network != network then Err(InvalidVault)
    else
      var target :- RequestTarget(req);
      var destination :- RequireDestination(lib, network, req);
      var selected :- Selection(utxos, target, req.path);
      var changeSats :- ChangeAfter(lib, vault, selected, target);
      Ok(SpendPlan(destination, selected, changeSats))
  }

  function UnsignedPlan(vault: Vault, req: SpendRequest, plan: SpendPlan): (tx: Transaction)
    ensures |tx.inputs| == |plan.selected|
  {
    UnsignedSpend(vault, plan.selected, req.path,
                  SpendOutputs(vault, plan.destination, req.amountSats, plan.changeSats))
  }

  function SignedPlan(lib: SpendLibrary, vault: Vault, req: SpendRequest, plan: SpendPlan): SpendResult<Transaction> {
    var tx :- SignedUpTo(lib, vault, plan.selected, req.path, UnsignedPlan(vault, req, plan), |plan.selected|);
    var _ :- RequireFeeRate(lib, tx, req.feeSats);
    Ok(tx)
  }

  function BuiltFrom(lib: SpendLibrary, req: SpendRequest, plan: SpendPlan, tx: Transaction): BuiltSpend {
    BuiltSpend(lib.encodeHex(tx), lib.txidText(tx), req.path, req.feeSats, req.amountSats, plan.changeSats)
  }

  function Spend(lib: SpendLibrary, vault: Vault, network: string, utxos: seq<VaultUtxo>, req: SpendRequest)
    : SpendResult<BuiltSpend>
  {
    var plan :- PlanSpend(lib, vault, network, utxos, req);
    var tx :- SignedPlan(lib, vault, req, plan);
    Ok(BuiltFrom(lib, req, plan, tx))
  }

  lemma {:induction false} SigningStopsAtFirstError(lib: SpendLibrary, vault: Vault, selected: seq<VaultUtxo>,
                                                    path: SpendPath, unsigned: Transaction, m: nat, n: nat)
    requires m <= n <= |selected| == |unsigned.inputs|
    requires SignedUpTo(lib, vault, selected, path, unsigned, m).Err?
    ensures SignedUpTo(lib, vault, selected, path, unsigned, n) == SignedUpTo(lib, vault, selected, path, unsigned, m)
  {
    if m == n {
    } else {
      SigningStopsAtFirstError(lib, vault, selected, path, unsigned, m, n - 1);
    }
  }

  /** The loop that writes a witness into each input. */
  method SignInputs(lib: SpendLibrary, vault: Vault, selected: seq<VaultUtxo>, path: SpendPath, unsigned: Transaction)
    returns (r: SpendResult<Transaction>)
    requires |selected| == |unsigned.inputs|
    ensures r == SignedUpTo(lib, vault, selected, path, unsigned, |selected|)
  {
    var tx := unsigned;
    for vin := 0 to |selected|
      invariant SignedUpTo(lib, vault, selected, path, unsigned, vin) == Ok(tx)
    {
      match lib.satisfy(tx, vin, vault.witnessScript, selected[vin].txout.value, path.Recovery?) {
        case None =>
          SigningStopsAtFirstError(lib, vault, selected, path, unsigned, vin + 1, |selected|);
          return Err(Unsatisfied);
        case Some(s) =>
          if s.scriptSig != [] {
            SigningStopsAtFirstError(lib, vault, selected, path, unsigned, vin + 1, |selected|);
            return Err(UnexpectedScriptSig);
          }
          tx := tx.(inputs := tx.inputs[vin := tx.inputs[vin].(witnessItems := s.witnessItems)]);
      }
    }
    return Ok(tx);
  }

  method BuildAndSign(lib: SpendLibrary, vault: Vault, network: string, utxos: seq<VaultUtxo>, req: SpendRequest)
    returns (r: SpendResult<BuiltSpend>)
    ensures r == Spend(lib, vault, network, utxos, req)
  {
    if !vault.isValid || vault.network != network {
      return Err(InvalidVault);
    }
    var target :- RequestTarget(req);
    var destination :- RequireDestination(lib, network, req);
    var selected :- SelectCoins(utxos, target, req.path);
    var changeSats :- ChangeAfter(lib, vault, selected, target);
    var plan := SpendPlan(destination, selected, changeSats);
    assert PlanSpend(lib, vault, network, utxos, req) == Ok(plan);
    var tx :- SignInputs(lib, vault, selected, req.path, UnsignedPlan(vault, req, plan));
    var _ :- RequireFeeRate(lib, tx, req.feeSats);
    return Ok(BuiltSpend(lib.encodeHex(tx), lib.txidText(tx), req.path, req.feeSats, req.amountSats, changeSats));
  }

  // ----- Checking -----

  /** The coin a map from outpoints would hold: the last one listed. */
  function FindUtxo(utxos: seq<VaultUtxo>, op: OutPoint): (r: Option<VaultUtxo>)
    ensures r.Some? ==> r.value in utxos && r.value.outpoint == op
    ensures r.None? ==> forall u :: u in utxos ==> u.outpoint != op
  {
    if utxos == [] then None
    else
      var last := utxos[|utxos| - 1];
      if last.outpoint == op then Some(last) else FindUtxo(utxos[..|utxos| - 1], op)
  }

  lemma {:induction false} FindUtxoIsLast(utxos: seq<VaultUtxo>, op: OutPoint, i: nat)
    requires i < |utxos| && utxos[i].outpoint == op
    requires forall j :: i < j < |utxos| ==> utxos[j].outpoint != op
    ensures FindUtxo(utxos, op) == Some(utxos[i])
  {
    var n := |utxos| - 1;
    if i == n {
    } else {
      assert forall j :: i < j < n ==> utxos[..n][j] == utxos[j];
      FindUtxoIsLast(utxos[..n], op, i);
    }
  }

  function InputValue(vault: Vault, utxos: seq<VaultUtxo>, path: SpendPath, txin: TxIn): SpendResult<U64> {
    match FindUtxo(utxos, txin.previousOutput)
    case None => Err(UnknownInput)
    case Some(u) =>
      if u.txout.scriptPubkey != vault.scriptPubkey then Err(NotVaultInput)
      else if !Spendable(u, path) then Err(NotSpendable)
      else if txin.sequence != ExpectedSequence(vault, path) then Err(WrongSequence)
      else if txin.witnessItems == [] then Err(MissingWitness)
      else Ok(u.txout.value)
  }

  /** Input n spends what an earlier one spends. */
  predicate Repeats(inputs: seq<TxIn>, n: nat)
    requires n < |inputs|
  {
    exists j :: 0 <= j < n && inputs[j].previousOutput == inputs[n].previousOutput
  }

  /** The total of the first n inputs. */
  function InputTotal(vault: Vault, utxos: seq<VaultUtxo>, path: SpendPath, inputs: seq<TxIn>, n: nat): SpendResult<U64>
    requires n <= |inputs|
  {
    if n == 0 then Ok(0)
    else
      var before :- InputTotal(vault, utxos, path, inputs, n - 1);
      if Repeats(inputs, n - 1) then Err(DuplicateInput)
      else
        var value :- InputValue(vault, utxos, path, inputs[n - 1]);
        if before + value > U64_MAX then Err(InputOverflow) else Ok(before + value)
  }

  lemma {:induction false} InputTotalStopsAtFirstError(vault: Vault, utxos: seq<VaultUtxo>, path: SpendPath,
                                                       inputs: seq<TxIn>, m: nat, n: nat)
    requires m <= n <= |inputs| && InputTotal(vault, utxos, path, inputs, m).Err?
    ensures InputTotal(vault, utxos, path, inputs, n) == InputTotal(vault, utxos, path, inputs, m)
  {
    if m == n {
    } else {
      InputTotalStopsAtFirstError(vault, utxos, path, inputs, m, n - 1);
    }
  }

  function CheckRequest(built: BuiltSpend, req: SpendRequest): SpendResult<()> {
    if req.amountSats == 0 || req.feeSats > MAX_FEE_SATS || req.feeSats > req.amountSats then Err(RequestLimits)
    else if built.path != req.path || built.amountSats != req.amountSats || built.feeSats != req.feeSats
    then Err(MetadataMismatch)
    else Ok(())
  }

  function DecodedSpend(lib: SpendLibrary, built: BuiltSpend, req: SpendRequest): SpendResult<Transaction> {
    match lib.decodeHex(built.txHex)
    case None => Err(Undecodable)
    case Some(tx) =>
      if lib.txidText(tx) != built.txid then Err(TxidMismatch)
      else if tx.inputs == [] then Err(NoInputs)
      else if |tx.inputs| > MAX_SELECTED_INPUTS then Err(TooManyInputs)
      else if tx.version != 2 || tx.lockTime != 0 then Err(VersionOrLockTime)
      else
        var _ :- RequireFeeRate(lib, tx, req.feeSats);
        Ok(tx)
  }

  function CheckOutputs(lib: SpendLibrary, vault: Vault, network: string, built: BuiltSpend, req: SpendRequest,
                        tx: Transaction): SpendResult<()>
  {
    var destination :- RequireDestination(lib, network, req);
    if |tx.outputs| != (if built.changeSats > 0 then 2 else 1) then Err(UnexpectedOutputs)
    else if tx.outputs[0].value != req.amountSats || tx.outputs[0].scriptPubkey != destination
    then Err(DestinationMismatch)
    else if built.changeSats > 0
         && (built.changeSats < lib.minimalNonDust(vault.scriptPubkey)
             || tx.outputs[1].value != built.changeSats
             || tx.outputs[1].scriptPubkey != vault.scriptPubkey) then Err(ChangeMismatch)
    else Ok(())
  }

  function CheckFeePaid(req: SpendRequest, tx: Transaction, totalIn: U64): SpendResult<()> {
    var totalOut := SumBy(ValueOf, tx.outputs);
    if totalOut > U64_MAX then Err(OutputOverflow)
    else if totalOut > totalIn then Err(OutputsExceedInputs)
    else if totalIn - totalOut != req.feeSats then Err(FeeMismatch)
    else Ok(())
  }

  function CheckReportedChange(built: BuiltSpend, req: SpendRequest, totalIn: U64): SpendResult<()> {
    if req.amountSats + req.feeSats > U64_MAX then Err(AmountOverflow)
    else if totalIn < req.amountSats + req.feeSats then Err(InputsBelowTarget)
    else if built.changeSats != totalIn - (req.amountSats + req.feeSats) then Err(ReportedChangeMismatch)
    else Ok(())
  }

  function SpendVerdict(lib: SpendLibrary, built: BuiltSpend, vault: Vault, network: string,
                        utxos: seq<VaultUtxo>, req: SpendRequest): SpendResult<Transaction>
  {
    if !vault.isValid || vault.network != network then Err(InvalidVault)
    else
      var _ :- CheckRequest(built, req);
      var tx :- DecodedSpend(lib, built, req);
      var totalIn :- InputTotal(vault, utxos, req.path, tx.inputs, |tx.inputs|);
      var _ :- CheckOutputs(lib, vault, network, built, req, tx);
      var _ :- CheckFeePaid(req, tx, totalIn);
      var _ :- CheckReportedChange(built, req, totalIn);
      Ok(tx)
  }

  /** The map from outpoints to the available coins. */
  method MapByOutpoint(utxos: seq<VaultUtxo>) returns (available: map<OutPoint, VaultUtxo>)
    ensures forall op :: op in available <==> FindUtxo(utxos, op).Some?
    ensures forall op :: op in available ==> FindUtxo(utxos, op) == Some(available[op])
  {
    available := map[];
    for i := 0 to |utxos|
      invariant forall op :: op in available <==> FindUtxo(utxos[..i], op).Some?
      invariant forall op :: op in available ==> FindUtxo(utxos[..i], op) == Some(available[op])
    {
      assert utxos[..i + 1][..i] == utxos[..i];
      available := available[utxos[i].outpoint := utxos[i]];
    }
    assert utxos[..|utxos|] == utxos;
  }

  /** The loop over the inputs, with the set of outpoints seen and the running total. */
  method SumInputs(vault: Vault, utxos: seq<VaultUtxo>, path: SpendPath, inputs: seq<TxIn>)
    returns (r: SpendResult<U64>)
    ensures r == InputTotal(vault, utxos, path, inputs, |inputs|)
  {
    var available := MapByOutpoint(utxos);
    var expectedSequence := ExpectedSequence(vault, path);
    var seen: set<OutPoint> := {};
    var totalIn: U64 := 0;
    for i := 0 to |inputs|
      invariant InputTotal(vault, utxos, path, inputs, i) == Ok(totalIn)
      invariant seen == set j | 0 <= j < i :: inputs[j].previousOutput
    {
      var input := inputs[i];
      var failure := None;
      if input.previousOutput in seen {
        failure := Some(DuplicateInput);
      } else if input.previousOutput !in available {
        failure := Some(UnknownInput);
      } else {
        var u := available[input.previousOutput];
        if u.txout.scriptPubkey != vault.scriptPubkey {
          failure := Some(NotVaultInput);
        } else if !Spendable(u, path) {
          failure := Some(NotSpendable);
        } else if input.sequence != expectedSequence {
          failure := Some(WrongSequence);
        } else if input.witnessItems == [] {
          failure := Some(MissingWitness);
        } else if totalIn + u.txout.value > U64_MAX {
          failure := Some(InputOverflow);
        } else {
          totalIn := totalIn + u.txout.value;
        }
      }
      if failure.Some? {
        InputTotalStopsAtFirstError(vault, utxos, path, inputs, i + 1, |inputs|);
        return Err(failure.value);
      }
      seen := seen + {input.previousOutput};
    }
    return Ok(totalIn);
  }

  method ValidateBuiltSpend(lib: SpendLibrary, built: BuiltSpend, vault: Vault, network: string,
                            utxos: seq<VaultUtxo>, req: SpendRequest)
    returns (r: SpendResult<Transaction>)
    ensures r == SpendVerdict(lib, built, vault, network, utxos, req)
  {
    if !vault.isValid || vault.network != network {
      return Err(InvalidVault);
    }
    var _ :- CheckRequest(built, req);
    var tx :- DecodedSpend(lib, built, req);
    var totalIn :- SumInputs(vault, utxos, req.path, tx.inputs);
    var _ :- CheckOutputs(lib, vault, network, built, req, tx);
    var _ :- CheckFeePaid(req, tx, totalIn);
    var _ :- CheckReportedChange(built, req, totalIn);
    return Ok(tx);
  }
}
