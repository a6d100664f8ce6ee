/** Replay records, the verdict on a candidate, and what every list of committed records keeps. */
module Replay {
  import opened Basics
  import opened Bitcoin
  import opened Encoding
  import opened Pin

  datatype Payload = Unsigned | Signed(bytes: seq<Byte>)

  datatype Record = Record(
    requestId: Bytes16,
    replayId: Bytes32,
    psbtTxid: Bytes32,
    outpoints: seq<OutPoint>,
    outputs: seq<TxOut>,
    vaultScript: Script,
    outputsCommitment: Bytes32,
    payload: Payload)

  datatype Verdict = Fresh | Idempotent(signedPsbtOrPartial: seq<Byte>) | FeeBump

  // ----- Construction -----

  function ReplayIdPreimage(requestId: Bytes16, psbtTxid: Bytes32, contentHash: Bytes32): seq<Byte> {
    requestId + psbtTxid + contentHash
  }

  /** The documented layout: request id, txid, content hash, 80 bytes. */
  lemma {:induction false} ReplayIdPreimageLayout(r: Bytes16, t: Bytes32, c: Bytes32)
    ensures var p := ReplayIdPreimage(r, t, c);
            |p| == 80 && p[..16] == r && p[16..48] == t && p[48..] == c
  {
  }

  lemma {:induction false} ReplayIdPreimageInjective(r: Bytes16, t: Bytes32, c: Bytes32, r': Bytes16, t': Bytes32,
                                                     c': Bytes32)
    requires ReplayIdPreimage(r, t, c) == ReplayIdPreimage(r', t', c')
    ensures r == r' && t == t' && c == c'
  {
    ReplayIdPreimageLayout(r, t, c);
    ReplayIdPreimageLayout(r', t', c');
  }

  function ReplayId(lib: Library, requestId: Bytes16, psbtTxid: Bytes32, contentHash: Bytes32): Bytes32 {
    lib.sha256(ReplayIdPreimage(requestId, psbtTxid, contentHash))
  }

  function OutputsCommitment(lib: Library, outputs: seq<TxOut>): Bytes32 {
    lib.sha256(EncodeOutputs(outputs))
  }

  /** The encoding loop behind the commitment. */
  method ComputeOutputsCommitment(lib: Library, outputs: seq<TxOut>) returns (c: Bytes32)
    ensures c == OutputsCommitment(lib, outputs)
  {
    var buf: seq<Byte> := [];
    for i := 0 to |outputs|
      invariant buf + EncodeOutputs(outputs[i..]) == EncodeOutputs(outputs)
    {
      assert outputs[i..][1..] == outputs[i + 1..];
      buf := buf + EncodeTxOut(outputs[i]);
    }
    assert buf + [] == buf;
    return lib.sha256(buf);
  }

  function FromPin(lib: Library, pin: AgentPin, requestId: Bytes16, psbt: Psbt, psbtBytes: seq<Byte>): Record {
    var txid := lib.computeTxid(psbt.unsignedTx);
    Record(requestId, ReplayId(lib, requestId, txid, lib.sha256(psbtBytes)), txid,
           OutPointsOf(psbt.unsignedTx), psbt.unsignedTx.outputs, pin.scriptPubkey,
           OutputsCommitment(lib, psbt.unsignedTx.outputs), Unsigned)
  }

  function AttachSigned(record: Record, signature: seq<Byte>): PolicyResult<Record> {
    if signature == [] then Err(Internal) else Ok(record.(payload := Signed(signature)))
  }

  /** The payload is private to its module: every record a caller can hold comes from `FromPin`,
      `AttachSigned` or the store, and none of them makes an empty signature. */
  predicate Constructible(r: Record) {
    r.payload != Signed([])
  }

  // ----- Classification of outpoints and outputs -----

  predicate OutpointsOverlap(a: seq<OutPoint>, b: seq<OutPoint>) {
    Elements(a) * Elements(b) != {}
  }

  predicate OutpointsIdentical(a: seq<OutPoint>, b: seq<OutPoint>) {
    Elements(a) != {} && Elements(a) == Elements(b)
  }

  datatype ClassifiedOutputs = ClassifiedOutputs(external: TxOut, changeSats: U64)

  function ChangeSats(changes: seq<TxOut>): U64 {
    if changes == [] then 0 else changes[0].value
  }

  function ClassifyOutputs(outputs: seq<TxOut>, vault: Script): Option<ClassifiedOutputs> {
    var externals, changes := Externals(outputs, vault), Changes(outputs, vault);
    if |externals| != 1 || |changes| > 1 then None
    else Some(ClassifiedOutputs(externals[0], ChangeSats(changes)))
  }

  /** The loop that sorts the outputs into two vectors. */
  method SortOutputs(outputs: seq<TxOut>, vault: Script) returns (r: Option<ClassifiedOutputs>)
    ensures r == ClassifyOutputs(outputs, vault)
  {
    var externals: seq<TxOut>, changes: seq<TxOut> := [], [];
    for i := 0 to |outputs|
      invariant externals == Externals(outputs[..i], vault)
      invariant changes == Changes(outputs[..i], vault)
    {
      assert outputs[..i + 1][..i] == outputs[..i];
      if outputs[i].scriptPubkey == vault {
        changes := changes + [outputs[i]];
      } else {
        externals := externals + [outputs[i]];
      }
    }
    assert outputs[..|outputs|] == outputs;
    if |externals| != 1 || |changes| > 1 {
      return None;
    }
    return Some(ClassifiedOutputs(externals[0], if changes == [] then 0 else changes[0].value));
  }

  predicate IsVaultChangeOnly(previous: Record, candidate: Record) {
    && OutpointsIdentical(previous.outpoints, candidate.outpoints)
    && previous.vaultScript == candidate.vaultScript
    && var prev := ClassifyOutputs(previous.outputs, previous.vaultScript);
       var cand := ClassifyOutputs(candidate.outputs, candidate.vaultScript);
    && prev.Some? && cand.Some?
    && prev.value.external.scriptPubkey == cand.value.external.scriptPubkey
    && prev.value.external.value == cand.value.external.value
    && cand.value.changeSats < prev.value.changeSats
  }

  // ----- The verdict on a candidate -----

  /** The first record with this request id. */
  function FindRequest(records: seq<Record>, requestId: Bytes16): (r: Option<nat>)
    ensures r.Some? ==> && r.value < |records| && records[r.value].requestId == requestId
                        && forall k :: 0 <= k < r.value ==> records[k].requestId != requestId
    ensures r.None? ==> forall k :: 0 <= k < |records| ==> records[k].requestId != requestId
  {
    if records == [] then None
    else
      var n := |records| - 1;
      match FindRequest(records[..n], requestId)
      case Some(i) => Some(i)
      case None => if records[n].requestId == requestId then Some(n) else None
  }

  /** An earlier spend of a candidate's coin that the candidate may not replace. */
  predicate Blocks(existing: Record, candidate: Record) {
    && OutpointsOverlap(existing.outpoints, candidate.outpoints)
    && (existing.outputsCommitment == candidate.outputsCommitment || !IsVaultChangeOnly(existing, candidate))
  }

  function PreflightVerdict(records: seq<Record>, candidate: Record): PolicyResult<Verdict> {
    match FindRequest(records, candidate.requestId)
    case Some(i) =>
      if records[i].replayId != candidate.replayId then Err(ReplayConflict)
      else (match records[i].payload
            case Signed(bytes) => Ok(Idempotent(bytes))
            case Unsigned => Err(Internal))
    case None =>
      if exists k :: 0 <= k < |records| && Blocks(records[k], candidate) then Err(PolicyErrorCode.Replay)
      else if exists k :: 0 <= k < |records| && OutpointsOverlap(records[k].outpoints, candidate.outpoints)
      then Ok(FeeBump) else Ok(Fresh)
  }

  // ----- What a list of committed records keeps -----

  predicate Supersedes(later: Record, earlier: Record) {
    && IsVaultChangeOnly(earlier, later)
    && earlier.outputsCommitment != later.outputsCommitment
  }

  /** Request ids are unique, every payload is a signature, and of two records that share a coin the
      later one supersedes the earlier. */
  ghost predicate Consistent(records: seq<Record>) {
    && (forall i :: 0 <= i < |records| ==> records[i].payload.Signed? && Constructible(records[i]))
    && (forall i, j :: 0 <= i < j < |records| ==> records[i].requestId != records[j].requestId)
    && (forall i, j :: 0 <= i < j < |records| && OutpointsOverlap(records[i].outpoints, records[j].outpoints)
          ==> Supersedes(records[j], records[i]))
  }

  lemma {:induction false} AppendKeepsConsistent(records: seq<Record>, r: Record)
    requires Consistent(records) && Constructible(r) && r.payload.Signed?
    requires PreflightVerdict(records, r) in {Ok(Fresh), Ok(FeeBump)}
    ensures Consistent(records + [r])
  {
    forall i | 0 <= i < |records| && OutpointsOverlap(records[i].outpoints, r.outpoints)
      ensures Supersedes(r, records[i])
    {
      assert !Blocks(records[i], r);
    }
  }

  lemma {:induction false} PrefixIsConsistent(records: seq<Record>, n: nat)
    requires Consistent(records) && n <= |records|
    ensures Consistent(records[..n])
  {
  }

  lemma {:induction false} OverlapIsSymmetric(a: seq<OutPoint>, b: seq<OutPoint>)
    ensures OutpointsOverlap(a, b) <==> OutpointsOverlap(b, a)
  {
    assert Elements(a) * Elements(b) == Elements(b) * Elements(a);
  }

  /** Sharing a coin is an equivalence relation on committed records that spend something. */
  lemma {:induction false} ConflictIsEquivalence(records: seq<Record>, i: nat, j: nat, k: nat)
    requires Consistent(records) && i < |records| && j < |records| && k < |records|
    ensures records[i].outpoints != [] ==> OutpointsOverlap(records[i].outpoints, records[i].outpoints)
    ensures OutpointsOverlap(records[i].outpoints, records[j].outpoints)
       <==> OutpointsOverlap(records[j].outpoints, records[i].outpoints)
    ensures OutpointsOverlap(records[i].outpoints, records[j].outpoints)
         && OutpointsOverlap(records[j].outpoints, records[k].outpoints)
        ==> OutpointsOverlap(records[i].outpoints, records[k].outpoints)
  {
    if records[i].outpoints != [] {
      assert records[i].outpoints[0] in Elements(records[i].outpoints) * Elements(records[i].outpoints);
    }
    OverlapIsSymmetric(records[i].outpoints, records[j].outpoints);
    if OutpointsOverlap(records[i].outpoints, records[j].outpoints) {
      ConflictMeansSameSpend(records, i, j);
    }
  }

  /** Two committed records that share a coin spend the same coins to the same external output; of two
      different ones the later has strictly less change. */
  lemma {:induction false} ConflictMeansSameSpend(records: seq<Record>, i: nat, j: nat)
    requires Consistent(records) && i < |records| && j < |records|
    requires OutpointsOverlap(records[i].outpoints, records[j].outpoints)
    ensures Elements(records[i].outpoints) == Elements(records[j].outpoints)
    ensures i != j ==>
              var a := ClassifyOutputs(records[i].outputs, records[i].vaultScript);
              var b := ClassifyOutputs(records[j].outputs, records[j].vaultScript);
              && a.Some? && b.Some? && a.value.external == b.value.external
              && records[i].vaultScript == records[j].vaultScript
              && (i < j <==> b.value.changeSats < a.value.changeSats)
  {
    OverlapIsSymmetric(records[i].outpoints, records[j].outpoints);
    if i < j {
      assert Supersedes(records[j], records[i]);
    } else if j < i {
      assert Supersedes(records[i], records[j]);
    }
  }

  // ----- Verdicts as the store grows -----

  /** A stale verdict never weakens a later one: a fee bump does not become fresh, and a refusal is final. */
  lemma {:induction false} VerdictsAreMonotone(records: seq<Record>, more: seq<Record>, candidate: Record)
    ensures var before := PreflightVerdict(records, candidate);
            var after := PreflightVerdict(records + more, candidate);
            && (before == Ok(FeeBump) ==> after != Ok(Fresh))
            && (before == Err(PolicyErrorCode.Replay) ==> after.Err? || after.value.Idempotent?)
            && (before.Ok? && before.value.Idempotent? ==> after == before)
            && (before == Err(ReplayConflict) ==> after == before)
  {
    var all := records + more;
    assert forall k :: 0 <= k < |records| ==> all[k] == records[k];
    match FindRequest(records, candidate.requestId)
    case Some(i) =>
      var j := FindRequest(all, candidate.requestId).value;
      assert i == j by {
        assert j <= i && all[j] == records[j];
      }
    case None =>
      if k :| 0 <= k < |records| && Blocks(records[k], candidate) {
        assert Blocks(all[k], candidate);
      }
      if k :| 0 <= k < |records| && OutpointsOverlap(records[k].outpoints, candidate.outpoints) {
        assert OutpointsOverlap(all[k].outpoints, candidate.outpoints);
      }
  }

  /** A record stays the answer to its own request, and its request id is closed to anything else. */
  lemma {:induction false} CommittedRecordAnswers(records: seq<Record>, i: nat, candidate: Record)
    requires Consistent(records) && i < |records|
    requires candidate.requestId == records[i].requestId
    ensures candidate.replayId == records[i].replayId ==>
              PreflightVerdict(records, candidate) == Ok(Idempotent(records[i].payload.bytes))
    ensures candidate.replayId != records[i].replayId ==>
              PreflightVerdict(records, candidate) == Err(ReplayConflict)
  {
    var j := FindRequest(records, candidate.requestId).value;
    assert j == i;
  }
}
