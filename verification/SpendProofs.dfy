/** What the check of a built spend accepts, exactly, and that it accepts everything the builder makes. */
module SpendProofs {
  import opened Basics
  import opened Bitcoin
  import opened CoinSelection
  import opened SpendBuilder

  function CoinWorth(utxos: seq<VaultUtxo>, op: OutPoint): nat {
    match FindUtxo(utxos, op)
    case Some(u) => u.txout.value
    case None => 0
  }

  /** What each input spends. */
  function InputWorths(utxos: seq<VaultUtxo>): TxIn -> nat {
    (txin: TxIn) => CoinWorth(utxos, txin.previousOutput)
  }

  // ----- What the checks mean -----

  /** A known, vault-owned coin, spent the way the path wants. */
  predicate ProperInput(vault: Vault, utxos: seq<VaultUtxo>, path: SpendPath, txin: TxIn) {
    && FindUtxo(utxos, txin.previousOutput).Some?
    && var u := FindUtxo(utxos, txin.previousOutput).value;
    && u.txout.scriptPubkey == vault.scriptPubkey && Spendable(u, path)
    && txin.sequence == ExpectedSequence(vault, path) && txin.witnessItems != []
  }

  predicate DistinctInputs(inputs: seq<TxIn>) {
    forall i, j :: 0 <= i < j < |inputs| ==> inputs[i].previousOutput != inputs[j].previousOutput
  }

  lemma {:induction false} InputValueMeans(vault: Vault, utxos: seq<VaultUtxo>, path: SpendPath, txin: TxIn)
    ensures InputValue(vault, utxos, path, txin).Ok? <==> ProperInput(vault, utxos, path, txin)
    ensures InputValue(vault, utxos, path, txin).Ok? ==>
              InputValue(vault, utxos, path, txin).value == CoinWorth(utxos, txin.previousOutput)
  {
  }

  /** The first n inputs are proper and distinct. */
  ghost predicate ProperUpTo(vault: Vault, utxos: seq<VaultUtxo>, path: SpendPath, inputs: seq<TxIn>, n: nat)
    requires n <= |inputs|
  {
    && DistinctInputs(inputs[..n])
    && forall i :: 0 <= i < n ==> ProperInput(vault, utxos, path, inputs[i])
  }

  lemma {:induction false} ProperOneMore(vault: Vault, utxos: seq<VaultUtxo>, path: SpendPath, inputs: seq<TxIn>,
                                         n: nat)
    requires n < |inputs|
    ensures ProperUpTo(vault, utxos, path, inputs, n + 1) <==>
            && ProperUpTo(vault, utxos, path, inputs, n)
            && !Repeats(inputs, n)
            && ProperInput(vault, utxos, path, inputs[n])
  {
    DistinctOneMore(inputs, n);
  }

  lemma {:induction false} InputTotalMeans(vault: Vault, utxos: seq<VaultUtxo>, path: SpendPath, inputs: seq<TxIn>,
                                           n: nat)
    requires n <= |inputs|
    ensures InputTotal(vault, utxos, path, inputs, n).Ok? <==>
            ProperUpTo(vault, utxos, path, inputs, n) && SumBy(InputWorths(utxos), inputs[..n]) <= U64_MAX
    ensures InputTotal(vault, utxos, path, inputs, n).Ok? ==>
              InputTotal(vault, utxos, path, inputs, n).value == SumBy(InputWorths(utxos), inputs[..n])
  {
    if n == 0 {
    } else {
      InputTotalMeans(vault, utxos, path, inputs, n - 1);
      ProperOneMore(vault, utxos, path, inputs, n - 1);
      SumAppend(InputWorths(utxos), inputs[..n - 1], inputs[n - 1]);
      assert inputs[..n] == inputs[..n - 1] + [inputs[n - 1]];
      InputValueMeans(vault, utxos, path, inputs[n - 1]);
    }
  }

  lemma {:induction false} DistinctOneMore(inputs: seq<TxIn>, n: nat)
    requires n < |inputs|
    ensures DistinctInputs(inputs[..n + 1]) <==> DistinctInputs(inputs[..n]) && !Repeats(inputs, n)
  {
    var before, all := inputs[..n], inputs[..n + 1];
    assert forall j :: 0 <= j < n ==> before[j] == all[j] == inputs[j];
    assert all[n] == inputs[n];
  }

  /** Outputs are exactly the destination and, if there is change, the vault. */
  lemma {:induction false} CheckOutputsMeans(lib: SpendLibrary, vault: Vault, network: string, built: BuiltSpend,
                                             req: SpendRequest, tx: Transaction)
    ensures CheckOutputs(lib, vault, network, built, req, tx).Ok? <==>
            && RequireDestination(lib, network, req).Ok?
            && tx.outputs == SpendOutputs(vault, RequireDestination(lib, network, req).value,
                                          req.amountSats, built.changeSats)
            && (built.changeSats == 0 || built.changeSats >= lib.minimalNonDust(vault.scriptPubkey))
  {
  }

  lemma {:induction false} SumOfSpendOutputs(vault: Vault, destination: Script, amountSats: U64, changeSats: U64)
    ensures SumBy(ValueOf, SpendOutputs(vault, destination, amountSats, changeSats)) == amountSats + changeSats
  {
    var first, change := TxOut(amountSats, destination), TxOut(changeSats, vault.scriptPubkey);
    SumAppend(ValueOf, [], first);
    assert [] + [first] == [first];
    if changeSats > 0 {
      SumAppend(ValueOf, [first], change);
    } else {
      assert SpendOutputs(vault, destination, amountSats, changeSats) == [first];
    }
  }

  /** Once the outputs and the fee have passed, the reported change is right: its test cannot fail, and the
      inputs are worth exactly amount + fee + change. */
  lemma {:induction false} ChangeTestIsImplied(lib: SpendLibrary, vault: Vault, network: string, built: BuiltSpend,
                                               req: SpendRequest, tx: Transaction, totalIn: U64)
    requires CheckOutputs(lib, vault, network, built, req, tx).Ok?
    ensures CheckFeePaid(req, tx, totalIn).Ok? <==> totalIn == req.amountSats + req.feeSats + built.changeSats
    ensures CheckFeePaid(req, tx, totalIn).Ok? ==> CheckReportedChange(built, req, totalIn).Ok?
  {
    CheckOutputsMeans(lib, vault, network, built, req, tx);
    SumOfSpendOutputs(vault, RequireDestination(lib, network, req).value, req.amountSats, built.changeSats);
  }

  // ----- The check, exactly -----

  /** A spend that is what was asked for, stated over the transaction and unbounded sums. */
  ghost predicate ProperSpend(lib: SpendLibrary, built: BuiltSpend, vault: Vault, network: string,
                              utxos: seq<VaultUtxo>, req: SpendRequest, tx: Transaction)
  {
    && vault.isValid && vault.network == network
    && 0 < req.amountSats && req.feeSats <= 1_000_000 && req.feeSats <= req.amountSats
    && built.path == req.path && built.amountSats == req.amountSats && built.feeSats == req.feeSats
    && lib.decodeHex(built.txHex) == Some(tx) && lib.txidText(tx) == built.txid
    && 1 <= |tx.inputs| <= 100 && tx.version == 2 && tx.lockTime == 0
    && req.feeSats <= lib.vsize(tx) * 100 <= U64_MAX
    && DistinctInputs(tx.inputs)
    && (forall i :: 0 <= i < |tx.inputs| ==> ProperInput(vault, utxos, req.path, tx.inputs[i]))
    && RequireDestination(lib, network, req).Ok?
    && tx.outputs == SpendOutputs(vault, RequireDestination(lib, network, req).value, req.amountSats, built.changeSats)
    && (built.changeSats == 0 || built.changeSats >= lib.minimalNonDust(vault.scriptPubkey))
    && SumBy(InputWorths(utxos), tx.inputs) == req.amountSats + req.feeSats + built.changeSats <= U64_MAX
  }

  lemma {:induction false} DecodedSpendMeans(lib: SpendLibrary, built: BuiltSpend, req: SpendRequest, tx: Transaction)
    ensures DecodedSpend(lib, built, req) == Ok(tx) <==>
            && lib.decodeHex(built.txHex) == Some(tx) && lib.txidText(tx) == built.txid
            && 1 <= |tx.inputs| <= 100 && tx.version == 2 && tx.lockTime == 0
            && req.feeSats <= lib.vsize(tx) * 100 <= U64_MAX
  {
  }

  lemma {:induction false} SpendVerdictMeans(lib: SpendLibrary, built: BuiltSpend, vault: Vault, network: string,
                                             utxos: seq<VaultUtxo>, req: SpendRequest, tx: Transaction)
    ensures SpendVerdict(lib, built, vault, network, utxos, req) == Ok(tx) <==>
            var totalIn := InputTotal(vault, utxos, req.path, tx.inputs, |tx.inputs|);
            && vault.isValid && vault.network == network
            && CheckRequest(built, req).Ok?
            && DecodedSpend(lib, built, req) == Ok(tx)
            && totalIn.Ok?
            && CheckOutputs(lib, vault, network, built, req, tx).Ok?
            && CheckFeePaid(req, tx, totalIn.value).Ok?
            && CheckReportedChange(built, req, totalIn.value).Ok?
  {
  }

  /** The check accepts exactly the proper spends. */
  lemma {:induction false} ValidatorIsExact(lib: SpendLibrary, built: BuiltSpend, vault: Vault, network: string,
                                            utxos: seq<VaultUtxo>, req: SpendRequest, tx: Transaction)
    ensures SpendVerdict(lib, built, vault, network, utxos, req) == Ok(tx)
       <==> ProperSpend(lib, built, vault, network, utxos, req, tx)
  {
    SpendVerdictMeans(lib, built, vault, network, utxos, req, tx);
    DecodedSpendMeans(lib, built, req, tx);
    InputTotalMeans(vault, utxos, req.path, tx.inputs, |tx.inputs|);
    assert tx.inputs[..|tx.inputs|] == tx.inputs;
    CheckOutputsMeans(lib, vault, network, built, req, tx);
    var totalIn := InputTotal(vault, utxos, req.path, tx.inputs, |tx.inputs|);
    if totalIn.Ok? && CheckOutputs(lib, vault, network, built, req, tx).Ok? {
      ChangeTestIsImplied(lib, vault, network, built, req, tx, totalIn.value);
    }
  }

  // ----- The builder -----

  predicate DistinctOutpoints(utxos: seq<VaultUtxo>) {
    forall i, j :: 0 <= i < j < |utxos| ==> utxos[i].outpoint != utxos[j].outpoint
  }

  /** Coins as the wallet lists them: each outpoint once, all paying the vault. */
  predicate WalletCoins(vault: Vault, utxos: seq<VaultUtxo>) {
    DistinctOutpoints(utxos) && forall u :: u in utxos ==> u.txout.scriptPubkey == vault.scriptPubkey
  }

  lemma {:induction false} CandidatesStayDistinct(utxos: seq<VaultUtxo>, path: SpendPath)
    requires DistinctOutpoints(utxos)
    ensures DistinctOutpoints(Candidates(utxos, path))
  {
    if utxos == [] {
    } else {
      var n := |utxos| - 1;
      CandidatesStayDistinct(utxos[..n], path);
      var before := Candidates(utxos[..n], path);
      assert forall i :: 0 <= i < |before| ==> before[i] in utxos[..n];
    }
  }

  /** Rearranging coins keeps their outpoints distinct. */
  lemma {:induction false} PermutationStaysDistinct(a: seq<VaultUtxo>, b: seq<VaultUtxo>)
    requires DistinctOutpoints(a) && multiset(a) == multiset(b)
    ensures DistinctOutpoints(b)
  {
    forall i, j | 0 <= i < j < |b|
      ensures b[i].outpoint != b[j].outpoint
    {
      NoDuplicatesCount(a, b[i]);
      assert b == b[..j] + b[j..];
      assert b[i] in b[..j] && b[j] in b[j..];
      assert multiset(b)[b[i]] == multiset(b[..j])[b[i]] + multiset(b[j..])[b[i]];
      assert b[i] != b[j];
      assert b[i] in multiset(a) && b[j] in multiset(a);
    }
  }

  lemma {:induction false} FindUtxoIsTheCoin(utxos: seq<VaultUtxo>, u: VaultUtxo)
    requires DistinctOutpoints(utxos) && u in utxos
    ensures FindUtxo(utxos, u.outpoint) == Some(u)
  {
  }

  lemma {:induction false} SelectionIsDistinct(utxos: seq<VaultUtxo>, need: U64, path: SpendPath)
    requires DistinctOutpoints(utxos) && need >= 1 && Selection(utxos, need, path).Ok?
    ensures var selected := Selection(utxos, need, path).value;
            && DistinctOutpoints(selected)
            && forall u :: u in selected ==> u in utxos && Spendable(u, path)
  {
    var sorted := Sorted(utxos, path);
    CandidatesStayDistinct(utxos, path);
    PermutationStaysDistinct(Candidates(utxos, path), sorted);
    assert sorted[..0] == [];
    var k := SelectFromReaches(sorted, need, 0);
    forall u | u in sorted[..k]
      ensures u in utxos && Spendable(u, path)
    {
      assert u in multiset(sorted);
      assert u in multiset(Candidates(utxos, path));
    }
  }

  /** Signing fills in witnesses and touches nothing else. */
  lemma {:induction false} SigningAddsWitnesses(lib: SpendLibrary, vault: Vault, selected: seq<VaultUtxo>,
                                                path: SpendPath,
                                                unsigned: Transaction, n: nat)
    requires n <= |selected| == |unsigned.inputs|
    requires SignedUpTo(lib, vault, selected, path, unsigned, n).Ok?
    ensures var tx := SignedUpTo(lib, vault, selected, path, unsigned, n).value;
            && SameButWitnesses(tx, unsigned)
            && (lib.WellBehaved() ==> forall i :: 0 <= i < n ==> tx.inputs[i].witnessItems != [])
  {
    if n == 0 {
    } else {
      SigningAddsWitnesses(lib, vault, selected, path, unsigned, n - 1);
    }
  }

  lemma {:induction false} BuiltInputIsProper(vault: Vault, utxos: seq<VaultUtxo>, path: SpendPath, u: VaultUtxo,
                                              txin: TxIn)
    requires WalletCoins(vault, utxos) && u in utxos && Spendable(u, path)
    requires txin.previousOutput == u.outpoint && txin.sequence == ExpectedSequence(vault, path)
    requires txin.witnessItems != []
    ensures ProperInput(vault, utxos, path, txin)
  {
    FindUtxoIsTheCoin(utxos, u);
  }

  /** The signed transaction spends what was selected, properly. */
  lemma {:induction false} BuiltInputsAreProper(lib: SpendLibrary, vault: Vault, utxos: seq<VaultUtxo>, path: SpendPath,
                                                selected: seq<VaultUtxo>, outputs: seq<TxOut>)
    requires lib.WellBehaved() && WalletCoins(vault, utxos)
    requires DistinctOutpoints(selected) && forall u :: u in selected ==> u in utxos && Spendable(u, path)
    requires SignedUpTo(lib, vault, selected, path, UnsignedSpend(vault, selected, path, outputs), |selected|).Ok?
    ensures var tx := SignedUpTo(lib, vault, selected, path, UnsignedSpend(vault, selected, path, outputs),
                                 |selected|).value;
            && |tx.inputs| == |selected| && tx.version == 2 && tx.lockTime == 0 && tx.outputs == outputs
            && DistinctInputs(tx.inputs)
            && (forall i :: 0 <= i < |tx.inputs| ==> ProperInput(vault, utxos, path, tx.inputs[i]))
            && (forall i :: 0 <= i < |tx.inputs| ==> tx.inputs[i].previousOutput == selected[i].outpoint)
  {
    var unsigned := UnsignedSpend(vault, selected, path, outputs);
    SigningAddsWitnesses(lib, vault, selected, path, unsigned, |selected|);
    var tx := SignedUpTo(lib, vault, selected, path, unsigned, |selected|).value;
    forall i | 0 <= i < |tx.inputs|
      ensures tx.inputs[i].previousOutput == selected[i].outpoint
      ensures ProperInput(vault, utxos, path, tx.inputs[i])
    {
      assert unsigned.inputs[i] == TxIn(selected[i].outpoint, ExpectedSequence(vault, path), []);
      BuiltInputIsProper(vault, utxos, path, selected[i], tx.inputs[i]);
    }
  }

  /** Its inputs are worth what was selected. */
  lemma {:induction false} BuiltInputsWorth(utxos: seq<VaultUtxo>, inputs: seq<TxIn>, selected: seq<VaultUtxo>)
    requires DistinctOutpoints(utxos) && forall u :: u in selected ==> u in utxos
    requires |inputs| == |selected|
    requires forall i :: 0 <= i < |inputs| ==> inputs[i].previousOutput == selected[i].outpoint
    ensures SumBy(InputWorths(utxos), inputs) == SumBy(CoinOf, selected)
  {
    forall i | 0 <= i < |inputs|
      ensures CoinWorth(utxos, inputs[i].previousOutput) == CoinOf(selected[i])
    {
      FindUtxoIsTheCoin(utxos, selected[i]);
    }
    SumPointwise(InputWorths(utxos), inputs, CoinOf, selected);
  }

  lemma {:induction false} PlanMeans(lib: SpendLibrary, vault: Vault, network: string, utxos: seq<VaultUtxo>,
                                     req: SpendRequest, plan: SpendPlan)
    ensures PlanSpend(lib, vault, network, utxos, req) == Ok(plan) <==>
            && vault.isValid && vault.network == network
            && RequestTarget(req).Ok? && RequireDestination(lib, network, req) == Ok(plan.destination)
            && Selection(utxos, RequestTarget(req).value, req.path) == Ok(plan.selected)
            && ChangeAfter(lib, vault, plan.selected, RequestTarget(req).value) == Ok(plan.changeSats)
  {
  }

  /** A plan takes listed, distinct, spendable coins, and its change is below each of them. */
  lemma {:induction false} PlanIsSound(lib: SpendLibrary, vault: Vault, network: string, utxos: seq<VaultUtxo>,
                                       req: SpendRequest, plan: SpendPlan)
    requires WalletCoins(vault, utxos)
    requires PlanSpend(lib, vault, network, utxos, req) == Ok(plan)
    ensures 1 <= |plan.selected| <= 100 && DistinctOutpoints(plan.selected)
    ensures forall u :: u in plan.selected ==> u in utxos && Spendable(u, req.path)
    ensures SumBy(CoinOf, plan.selected) == req.amountSats + req.feeSats + plan.changeSats <= U64_MAX
    ensures plan.changeSats == 0 || plan.changeSats >= lib.minimalNonDust(vault.scriptPubkey)
    ensures forall i :: 0 <= i < |plan.selected| ==> plan.changeSats < CoinOf(plan.selected[i])
  {
    PlanMeans(lib, vault, network, utxos, req, plan);
    var target := RequestTarget(req).value;
    SelectionIsDistinct(utxos, target, req.path);
    SelectionIsOptimal(utxos, target, req.path, []);
  }

  /** The transaction signed for a plan is proper. */
  lemma {:induction false} SignedPlanIsProper(lib: SpendLibrary, vault: Vault, network: string, utxos: seq<VaultUtxo>,
                                              req: SpendRequest, plan: SpendPlan, tx: Transaction)
    requires lib.WellBehaved() && WalletCoins(vault, utxos)
    requires PlanSpend(lib, vault, network, utxos, req) == Ok(plan)
    requires SignedPlan(lib, vault, req, plan) == Ok(tx)
    ensures ProperSpend(lib, BuiltFrom(lib, req, plan, tx), vault, network, utxos, req, tx)
    ensures |tx.inputs| == |plan.selected|
    ensures forall i :: 0 <= i < |tx.inputs| ==> tx.inputs[i].previousOutput == plan.selected[i].outpoint
  {
    PlanMeans(lib, vault, network, utxos, req, plan);
    PlanIsSound(lib, vault, network, utxos, req, plan);
    BuiltInputsAreProper(lib, vault, utxos, req.path, plan.selected,
                         SpendOutputs(vault, plan.destination, req.amountSats, plan.changeSats));
    BuiltInputsWorth(utxos, tx.inputs, plan.selected);
  }

  /** Every spend the builder makes from the wallet's coins passes the check for the same request, and its
      change is smaller than every coin it spends. */
  lemma {:induction false} BuilderSatisfiesValidator(lib: SpendLibrary, vault: Vault, network: string,
                                                     utxos: seq<VaultUtxo>, req: SpendRequest, built: BuiltSpend)
    returns (tx: Transaction)
    requires lib.WellBehaved() && WalletCoins(vault, utxos)
    requires Spend(lib, vault, network, utxos, req) == Ok(built)
    ensures SpendVerdict(lib, built, vault, network, utxos, req) == Ok(tx)
    ensures forall i :: 0 <= i < |tx.inputs| ==> built.changeSats < CoinWorth(utxos, tx.inputs[i].previousOutput)
  {
    var plan := PlanSpend(lib, vault, network, utxos, req).value;
    tx := SignedPlan(lib, vault, req, plan).value;
    SignedPlanIsProper(lib, vault, network, utxos, req, plan, tx);
    ValidatorIsExact(lib, built, vault, network, utxos, req, tx);
    PlanIsSound(lib, vault, network, utxos, req, plan);
    forall i | 0 <= i < |tx.inputs|
      ensures built.changeSats < CoinWorth(utxos, tx.inputs[i].previousOutput)
    {
      FindUtxoIsTheCoin(utxos, plan.selected[i]);
    }
  }

  // ----- When the builder succeeds -----

  /** The keys at hand satisfy input i of the unsigned transaction, by a witness alone. */
  predicate Signs(lib: SpendLibrary, vault: Vault, selected: seq<VaultUtxo>, path: SpendPath, unsigned: Transaction,
                  i: nat)
    requires i < |selected|
  {
    var s := lib.satisfy(unsigned, i, vault.witnessScript, selected[i].txout.value, path.Recovery?);
    s.Some? && s.value.scriptSig == []
  }

  /** Input i with the witness that the keys at hand give for the unsigned transaction, if they give one. */
  function WitnessedInput(lib: SpendLibrary, vault: Vault, selected: seq<VaultUtxo>, path: SpendPath,
                          unsigned: Transaction, i: nat): TxIn
    requires i < |selected| == |unsigned.inputs|
  {
    match lib.satisfy(unsigned, i, vault.witnessScript, selected[i].txout.value, path.Recovery?)
    case None => unsigned.inputs[i]
    case Some(s) => unsigned.inputs[i].(witnessItems := s.witnessItems)
  }

  /** The unsigned transaction with the first n inputs' own witnesses. */
  function Witnessed(lib: SpendLibrary, vault: Vault, selected: seq<VaultUtxo>, path: SpendPath, unsigned: Transaction,
                     n: nat)
    : Transaction
    requires n <= |selected| == |unsigned.inputs|
  {
    unsigned.(inputs := seq(n, i requires 0 <= i < n => WitnessedInput(lib, vault, selected, path, unsigned, i))
                        + unsigned.inputs[n..])
  }

  lemma {:induction false} WitnessedOneMore(lib: SpendLibrary, vault: Vault, selected: seq<VaultUtxo>, path: SpendPath,
                                            unsigned: Transaction, n: nat)
    requires n < |selected| == |unsigned.inputs|
    ensures var tx := Witnessed(lib, vault, selected, path, unsigned, n);
            && SameButWitnesses(tx, unsigned) && tx.inputs[n] == unsigned.inputs[n]
            && Witnessed(lib, vault, selected, path, unsigned, n + 1) ==
                 tx.(inputs := tx.inputs[n := WitnessedInput(lib, vault, selected, path, unsigned, n)])
  {
    var tx, next := Witnessed(lib, vault, selected, path, unsigned,
                              n), Witnessed(lib, vault, selected, path, unsigned, n + 1);
    assert next.inputs == tx.inputs[n := WitnessedInput(lib, vault, selected, path, unsigned, n)];
  }

  lemma {:induction false} SigningOneMore(lib: SpendLibrary, vault: Vault, selected: seq<VaultUtxo>, path: SpendPath,
                                          unsigned: Transaction, n: nat)
    requires lib.SigningIgnoresWitnesses()
    requires n < |selected| == |unsigned.inputs|
    requires SignedUpTo(lib, vault, selected, path, unsigned, n)
          == Ok(Witnessed(lib, vault, selected, path, unsigned, n))
    ensures SignedUpTo(lib, vault, selected, path, unsigned, n + 1) ==
              match lib.satisfy(unsigned, n, vault.witnessScript, selected[n].txout.value, path.Recovery?)
              case None => Err(Unsatisfied)
              case Some(s) =>
                if s.scriptSig != [] then Err(UnexpectedScriptSig)
                else Ok(Witnessed(lib, vault, selected, path, unsigned, n + 1))
  {
    WitnessedOneMore(lib, vault, selected, path, unsigned, n);
    var tx := Witnessed(lib, vault, selected, path, unsigned, n);
    assert lib.satisfy(tx, n, vault.witnessScript, selected[n].txout.value, path.Recovery?)
        == lib.satisfy(unsigned, n, vault.witnessScript, selected[n].txout.value, path.Recovery?);
  }

  /** Signing one input after the other comes to signing each on its own. */
  lemma {:induction false} SigningIsIndependent(lib: SpendLibrary, vault: Vault, selected: seq<VaultUtxo>,
                                                path: SpendPath,
                                                unsigned: Transaction, n: nat)
    requires lib.SigningIgnoresWitnesses()
    requires n <= |selected| == |unsigned.inputs|
    ensures SignedUpTo(lib, vault, selected, path, unsigned, n).Ok? <==>
            forall i :: 0 <= i < n ==> Signs(lib, vault, selected, path, unsigned, i)
    ensures SignedUpTo(lib, vault, selected, path, unsigned, n).Ok? ==>
              SignedUpTo(lib, vault, selected, path, unsigned, n).value
              == Witnessed(lib, vault, selected, path, unsigned, n)
  {
    if n == 0 {
      assert Witnessed(lib, vault, selected, path, unsigned, 0).inputs == unsigned.inputs;
    } else {
      SigningIsIndependent(lib, vault, selected, path, unsigned, n - 1);
      if SignedUpTo(lib, vault, selected, path, unsigned, n - 1).Ok? {
        SigningOneMore(lib, vault, selected, path, unsigned, n - 1);
        assert SignedUpTo(lib, vault, selected, path, unsigned, n).Ok?
          <==> Signs(lib, vault, selected, path, unsigned, n - 1);
      } else {
        SigningStopsAtFirstError(lib, vault, selected, path, unsigned, n - 1, n);
      }
    }
  }

  /** These coins pay for the request: change is nothing or not dust, the keys sign every input, and the fee
      is within the rate of the signed transaction. */
  predicate Pays(lib: SpendLibrary, vault: Vault, req: SpendRequest, destination: Script, selected: seq<VaultUtxo>) {
    var change := SumBy(CoinOf, selected) - (req.amountSats + req.feeSats);
    && 0 <= change <= U64_MAX
    && (change == 0 || change >= lib.minimalNonDust(vault.scriptPubkey))
    && var unsigned := UnsignedPlan(vault, req, SpendPlan(destination, selected, change));
    && (forall i :: 0 <= i < |selected| ==> Signs(lib, vault, selected, req.path, unsigned, i))
    && req.feeSats <= lib.vsize(Witnessed(lib, vault, selected, req.path, unsigned, |selected|)) * 100 <= U64_MAX
  }

  /** The request is within limits, pays a known destination more than dust, and asks the right vault. */
  predicate Askable(lib: SpendLibrary, vault: Vault, network: string, req: SpendRequest) {
    var destination := lib.destinationScript(req.destination, network);
    && vault.isValid && vault.network == network
    && 0 < req.amountSats && req.feeSats <= 1_000_000 && req.feeSats <= req.amountSats
    && req.amountSats + req.feeSats <= U64_MAX
    && destination.Some? && req.amountSats >= lib.minimalNonDust(destination.value)
  }

  /** The largest coins that just cover the request pay for it. */
  ghost predicate LeadingCoinsPay(lib: SpendLibrary, vault: Vault, req: SpendRequest, destination: Script,
                                  sorted: seq<VaultUtxo>)
  {
    forall k: nat {:trigger ReachesAt(sorted, req.amountSats + req.feeSats, k)} ::
      ReachesAt(sorted, req.amountSats + req.feeSats, k) ==> Pays(lib, vault, req, destination, sorted[..k])
  }

  /** What a caller can check before asking for a spend: at most 100 coins can cover it, and the largest coins
      that just do are not too much for u64 and pay for it. */
  ghost predicate Buildable(lib: SpendLibrary, vault: Vault, network: string, utxos: seq<VaultUtxo>,
                            req: SpendRequest)
  {
    var target, sorted := req.amountSats + req.feeSats, Sorted(utxos, req.path);
    && Askable(lib, vault, network, req)
    && Selectable(utxos, target, req.path)
    && LeadingCoinsPay(lib, vault, req, lib.destinationScript(req.destination, network).value, sorted)
  }

  /** With these coins selected, nothing fails any more. */
  predicate Carries(lib: SpendLibrary, vault: Vault, req: SpendRequest, destination: Script, selected: seq<VaultUtxo>)
    requires req.amountSats + req.feeSats <= U64_MAX
  {
    var change := ChangeAfter(lib, vault, selected, req.amountSats + req.feeSats);
    change.Ok? && SignedPlan(lib, vault, req, SpendPlan(destination, selected, change.value)).Ok?
  }

  lemma {:induction false} PaysMeans(lib: SpendLibrary, vault: Vault, req: SpendRequest, destination: Script,
                                     selected: seq<VaultUtxo>)
    requires lib.SigningIgnoresWitnesses()
    requires req.amountSats + req.feeSats <= SumBy(CoinOf, selected) <= U64_MAX
    ensures Pays(lib, vault, req, destination, selected) <==> Carries(lib, vault, req, destination, selected)
  {
    var change := SumBy(CoinOf, selected) - (req.amountSats + req.feeSats);
    SigningIsIndependent(lib, vault, selected, req.path,
                         UnsignedPlan(vault, req, SpendPlan(destination, selected, change)), |selected|);
  }

  lemma {:induction false} SpendMeans(lib: SpendLibrary, vault: Vault, network: string, utxos: seq<VaultUtxo>,
                                      req: SpendRequest)
    ensures var target := req.amountSats + req.feeSats;
            var destination := lib.destinationScript(req.destination, network);
            Spend(lib, vault, network, utxos, req).Ok? <==>
            && Askable(lib, vault, network, req)
            && Selection(utxos, target, req.path).Ok?
            && Carries(lib, vault, req, destination.value, Selection(utxos, target, req.path).value)
  {
    if Askable(lib, vault, network, req) {
      assert RequestTarget(req) == Ok(req.amountSats + req.feeSats);
      assert RequireDestination(lib, network, req) == Ok(lib.destinationScript(req.destination, network).value);
    } else {
      assert PlanSpend(lib, vault, network, utxos, req).Err?;
    }
  }

  lemma {:induction false} SelectedCoinsPayExactly(lib: SpendLibrary, vault: Vault, utxos: seq<VaultUtxo>,
                                                   req: SpendRequest,
                                                   destination: Script)
    requires lib.SigningIgnoresWitnesses()
    requires 0 < req.amountSats + req.feeSats <= U64_MAX
    requires Selection(utxos, req.amountSats + req.feeSats, req.path).Ok?
    ensures LeadingCoinsPay(lib, vault, req, destination, Sorted(utxos, req.path)) <==>
            Carries(lib, vault, req, destination, Selection(utxos, req.amountSats + req.feeSats, req.path).value)
  {
    var target, sorted := req.amountSats + req.feeSats, Sorted(utxos, req.path);
    assert sorted[..0] == [];
    var k := SelectFromReaches(sorted, target, 0);
    PaysMeans(lib, vault, req, destination, sorted[..k]);
    assert forall k': nat :: ReachesAt(sorted, target, k') ==> k' == k;
  }

  lemma {:induction false} BuildableMeans(lib: SpendLibrary, vault: Vault, network: string, utxos: seq<VaultUtxo>,
                                          req: SpendRequest)
    ensures Buildable(lib, vault, network, utxos, req) <==>
            && Askable(lib, vault, network, req)
            && Selection(utxos, req.amountSats + req.feeSats, req.path).Ok?
            && LeadingCoinsPay(lib, vault, req, lib.destinationScript(req.destination, network).value,
                               Sorted(utxos, req.path))
  {
    if Askable(lib, vault, network, req) {
      SelectionSucceedsExactly(utxos, req.amountSats + req.feeSats, req.path);
    }
  }

  /** The builder succeeds exactly on the buildable requests. */
  lemma {:induction false} SpendSucceedsExactly(lib: SpendLibrary, vault: Vault, network: string, utxos: seq<VaultUtxo>,
                                                req: SpendRequest)
    requires lib.SigningIgnoresWitnesses()
    ensures Spend(lib, vault, network, utxos, req).Ok? <==> Buildable(lib, vault, network, utxos, req)
  {
    SpendMeans(lib, vault, network, utxos, req);
    BuildableMeans(lib, vault, network, utxos, req);
    if Askable(lib, vault, network, req) && Selection(utxos, req.amountSats + req.feeSats, req.path).Ok? {
      SelectedCoinsPayExactly(lib, vault, utxos, req, lib.destinationScript(req.destination, network).value);
    }
  }
}
