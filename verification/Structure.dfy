/** Structural checks on a parsed PSBT, and the relative-timelock reading of an input sequence. */
module Structure {
  import opened Basics
  import opened Bitcoin

  function ParsePsbtV0(lib: Library, bytes: seq<Byte>): (r: PolicyResult<Psbt>)
    ensures r.Ok? <==>
            && lib.parsePsbt(bytes).Some?
            && var psbt := lib.parsePsbt(bytes).value;
            && psbt.version == 0
            && |psbt.inputs| == |psbt.unsignedTx.inputs| > 0
            && |psbt.outputs| == |psbt.unsignedTx.outputs| > 0
    ensures r.Ok? ==> lib.parsePsbt(bytes) == Some(r.value)
    ensures r.Err? ==> r == Err(PsbtParse)
  {
    match lib.parsePsbt(bytes)
    case None => Err(PsbtParse)
    case Some(psbt) =>
      if psbt.version != 0 then Err(PsbtParse)
      else if |psbt.inputs| != |psbt.unsignedTx.inputs|
           || |psbt.outputs| != |psbt.unsignedTx.outputs| then Err(PsbtParse)
      else if psbt.unsignedTx.inputs == [] then Err(PsbtParse)
      else if psbt.unsignedTx.outputs == [] then Err(PsbtParse)
      else Ok(psbt)
  }

  function RequireNoUnknownPsbtFields(psbt: Psbt): PolicyResult<()> {
    if psbt.hasUnknownFields then Err(UnknownField)
    else if exists i :: 0 <= i < |psbt.inputs| && psbt.inputs[i].hasUnknownFields then Err(UnknownField)
    else if exists i :: 0 <= i < |psbt.outputs| && psbt.outputs[i].hasUnknownFields then Err(UnknownField)
    else Ok(())
  }

  function RequireLocktimeZero(lockTime: U32): PolicyResult<()> {
    if lockTime != 0 then Err(Locktime) else Ok(())
  }

  /** A missing sighash type is not defaulted. */
  predicate PresentsSighashAll(input: PsbtInput) {
    && input.sighashType == Some(SIGHASH_ALL)
    && forall pk :: pk in input.partialSigs ==> input.partialSigs[pk] == SIGHASH_ALL
  }

  function RequireSighashAllOnPsbt(psbt: Psbt): PolicyResult<()> {
    if forall i :: 0 <= i < |psbt.inputs| ==> PresentsSighashAll(psbt.inputs[i]) then Ok(())
    else Err(Sighash)
  }

  // ----- nSequence -----

  datatype RelativeLockTime = HeightLock(height: nat) | TimeLock(intervals: nat)

  /** Bit 31 disables the lock, bit 22 selects time, the low 16 bits are the value. */
  predicate DisableFlag(n: nat) { n / 0x8000_0000 % 2 == 1 }

  predicate TypeFlag(n: nat) { n / 0x40_0000 % 2 == 1 }

  function ToRelativeLockTime(sequence: U32): Option<RelativeLockTime> {
    if DisableFlag(sequence) then None
    else if TypeFlag(sequence) then Some(TimeLock(sequence % 0x1_0000))
    else Some(HeightLock(sequence % 0x1_0000))
  }

  predicate SequenceSatisfiesOlderCsv(sequence: U32, csvBlocks: U32) {
    if csvBlocks == 0 || csvBlocks > 0xFFFF then false
    else
      match ToRelativeLockTime(sequence)
      case Some(HeightLock(height)) => height >= csvBlocks
      case _ => false
  }

  function RequireRecoverySequence(sequence: U32, csvBlocks: U32): PolicyResult<()> {
    if SequenceSatisfiesOlderCsv(sequence, csvBlocks) then Ok(()) else Err(NotRecoveryPath)
  }

  /** When OP_CHECKSEQUENCEVERIFY does not fail (BIP 112, Summary): the operand is not negative
      and, unless its disable flag is set, the transaction has version 2 or more, the input's
      sequence is not disabled, both are of the same type, and the masked operand (BIP 68,
      Specification) is at most the masked sequence. */
  predicate CheckSequenceVerify(operand: int, txVersion: int, sequence: U32) {
    && operand >= 0
    && (DisableFlag(operand)
        || (&& txVersion >= 2
            && !DisableFlag(sequence)
            && TypeFlag(operand) == TypeFlag(sequence)
            && operand % 0x1_0000 <= sequence % 0x1_0000))
  }

  lemma {:induction false} SequenceCheckIsConsensusCheck(sequence: U32, csvBlocks: U32)
    requires 1 <= csvBlocks <= 0xFFFF
    ensures SequenceSatisfiesOlderCsv(sequence, csvBlocks) <==> CheckSequenceVerify(csvBlocks, 2, sequence)
  {
    assert csvBlocks / 0x8000_0000 == 0 && csvBlocks / 0x40_0000 == 0;
  }

  /** A delay that the script cannot express is satisfied by no sequence. */
  lemma {:induction false} OtherDelaysAreNeverSatisfied(sequence: U32, csvBlocks: U32)
    requires csvBlocks == 0 || csvBlocks > 0xFFFF
    ensures !SequenceSatisfiesOlderCsv(sequence, csvBlocks)
  {
  }
}
