/** The parts of transactions and PSBTs that the program looks at, and the foreign libraries it
    calls, as function values. */
module Bitcoin {
  import opened Basics

  type Script = s: seq<Byte> | |s| <= U64_MAX
  type PubKey = seq<Byte>

  datatype OutPoint = OutPoint(txid: Bytes32, vout: U32)
  datatype TxOut = TxOut(value: U64, scriptPubkey: Script)
  datatype TxIn = TxIn(previousOutput: OutPoint, sequence: U32, witnessItems: seq<seq<Byte>>)
  datatype Transaction = Transaction(version: int, lockTime: U32, inputs: seq<TxIn>, outputs: seq<TxOut>)

  /** One PSBT input map. `hasUnknownFields` stands for any unknown, proprietary, preimage or
      taproot entry; the partial signatures map a key to the sighash type of its signature. */
  datatype PsbtInput = PsbtInput(
    witnessUtxo: Option<TxOut>,
    nonWitnessUtxo: Option<Transaction>,
    witnessScript: Option<Script>,
    redeemScript: Option<Script>,
    sighashType: Option<U32>,
    partialSigs: map<PubKey, U32>,
    bip32Keys: set<PubKey>,
    isFinalized: bool,
    hasUnknownFields: bool)

  datatype PsbtOutput = PsbtOutput(hasUnknownFields: bool)

  datatype Psbt = Psbt(
    version: U32,
    unsignedTx: Transaction,
    inputs: seq<PsbtInput>,
    outputs: seq<PsbtOutput>,
    hasUnknownFields: bool)

  const SIGHASH_ALL: U32 := 1

  /** Libraries the program calls and whose code is not part of it. */
  datatype Library = Library(
    sha256: seq<Byte> -> Bytes32,
    computeTxid: Transaction -> Bytes32,
    parsePsbt: seq<Byte> -> Option<Psbt>,
    minimalNonDust: Script -> U64,
    isCompactSignature: seq<Byte> -> bool,
    ecdsaVerify: (Bytes32, seq<Byte>, PubKey) -> bool,
    printOutPoint: OutPoint -> string,
    parseOutPoint: string -> Option<OutPoint>)
  {
    /** The text form of an outpoint parses back to it. */
    ghost predicate OutPointTextRoundTrips() {
      forall o: OutPoint :: parseOutPoint(printOutPoint(o)) == Some(o)
    }

    /** These two preimages are not a SHA256 collision. */
    predicate NoCollision(a: seq<Byte>, b: seq<Byte>) {
      sha256(a) == sha256(b) ==> a == b
    }
  }

  function ValueOf(o: TxOut): nat { o.value }

  function OutPointsOf(tx: Transaction): (ops: seq<OutPoint>)
    ensures |ops| == |tx.inputs|
    ensures forall i :: 0 <= i < |ops| ==> ops[i] == tx.inputs[i].previousOutput
  {
    seq(|tx.inputs|, i requires 0 <= i < |tx.inputs| => tx.inputs[i].previousOutput)
  }

  /** The outputs that pay `vault` (change), and those that do not (externals), in order. */
  function Changes(outputs: seq<TxOut>, vault: Script): seq<TxOut> {
    if outputs == [] then []
    else
      var before, last := Changes(outputs[..|outputs| - 1], vault), outputs[|outputs| - 1];
      if last.scriptPubkey == vault then before + [last] else before
  }

  function Externals(outputs: seq<TxOut>, vault: Script): seq<TxOut> {
    if outputs == [] then []
    else
      var before, last := Externals(outputs[..|outputs| - 1], vault), outputs[|outputs| - 1];
      if last.scriptPubkey != vault then before + [last] else before
  }

  /** Every output is exactly one of the two. */
  lemma {:induction false} OutputsSplit(outputs: seq<TxOut>, vault: Script)
    ensures |Externals(outputs, vault)| + |Changes(outputs, vault)| == |outputs|
    ensures forall o :: o in Changes(outputs, vault) <==> o in outputs && o.scriptPubkey == vault
    ensures forall o :: o in Externals(outputs, vault) <==> o in outputs && o.scriptPubkey != vault
  {
    if outputs == [] {
    } else {
      var before, last := outputs[..|outputs| - 1], outputs[|outputs| - 1];
      OutputsSplit(before, vault);
      assert outputs == before + [last];
    }
  }

  lemma {:induction false} OutputsSum(outputs: seq<TxOut>, vault: Script)
    ensures SumBy(ValueOf, Externals(outputs, vault)) + SumBy(ValueOf, Changes(outputs, vault))
         == SumBy(ValueOf, outputs)
  {
    if outputs == [] {
    } else {
      var before, last := outputs[..|outputs| - 1], outputs[|outputs| - 1];
      OutputsSum(before, vault);
      if last.scriptPubkey == vault {
        SumAppend(ValueOf, Changes(before, vault), last);
      } else {
        SumAppend(ValueOf, Externals(before, vault), last);
      }
    }
  }
}
