/** The stored form of replay records. Fixed-width fields, scripts and signatures are base16 text,
    outpoints have their own text form; JSON text that parses is taken as an exact copy. */
module Persistence {
  import opened Basics
  import opened Bitcoin
  import opened Encoding
  import opened Replay

  datatype StoredTxOut = StoredTxOut(valueSats: U64, scriptPubkey: string)

  datatype StoredRecord = StoredRecord(
    requestId: string,
    replayId: string,
    psbtTxid: string,
    outpoints: seq<string>,
    outputs: seq<StoredTxOut>,
    vaultScript: string,
    outputsCommitment: string,
    signedPsbtOrPartial: string)

  /** The records file, or contents that are not its JSON. */
  datatype StoredFile = StoredFile(version: U32, records: seq<StoredRecord>) | Garbled

  // ----- Payload -----

  function ToStoreHex(p: Payload): string {
    match p
    case Unsigned => ""
    case Signed(bytes) => HexEncode(bytes)
  }

  function FromStoreHex(hex: string): PolicyResult<Payload> {
    if hex == "" then Ok(Unsigned)
    else
      var bytes :- HexDecode(hex);
      Ok(Signed(bytes))
  }

  // ----- Record -----

  function ToStored(lib: Library, r: Record): StoredRecord {
    StoredRecord(
      HexEncode(r.requestId), HexEncode(r.replayId), HexEncode(r.psbtTxid),
      PrintOutPoints(lib, r.outpoints), StoreOutputs(r.outputs),
      HexEncode(r.vaultScript), HexEncode(r.outputsCommitment), ToStoreHex(r.payload))
  }

  function PrintOutPoints(lib: Library, ops: seq<OutPoint>): seq<string> {
    if ops == [] then [] else [lib.printOutPoint(ops[0])] + PrintOutPoints(lib, ops[1..])
  }

  function StoreOutputs(outputs: seq<TxOut>): seq<StoredTxOut> {
    if outputs == [] then []
    else [StoredTxOut(outputs[0].value, HexEncode(outputs[0].scriptPubkey))] + StoreOutputs(outputs[1..])
  }

  function ParseOutPoints(lib: Library, texts: seq<string>): PolicyResult<seq<OutPoint>> {
    if texts == [] then Ok([])
    else
      match lib.parseOutPoint(texts[0])
      case None => Err(Internal)
      case Some(op) =>
        var others :- ParseOutPoints(lib, texts[1..]);
        Ok([op] + others)
  }

  /** Every decoded script is shorter than 2^64 bytes; the test stands for the width of a length. */
  function HexScript(hex: string): PolicyResult<Script> {
    var bytes :- HexDecode(hex);
    if |bytes| > U64_MAX then Err(Internal) else Ok(bytes)
  }

  function ParseOutputs(stored: seq<StoredTxOut>): PolicyResult<seq<TxOut>> {
    if stored == [] then Ok([])
    else
      var script :- HexScript(stored[0].scriptPubkey);
      var others :- ParseOutputs(stored[1..]);
      Ok([TxOut(stored[0].valueSats, script)] + others)
  }

  function HexArray16(hex: string): PolicyResult<Bytes16> {
    var bytes :- HexDecode(hex);
    if |bytes| != 16 then Err(Internal) else Ok(bytes)
  }

  function HexArray32(hex: string): PolicyResult<Bytes32> {
    var bytes :- HexDecode(hex);
    if |bytes| != 32 then Err(Internal) else Ok(bytes)
  }

  function FromStored(lib: Library, s: StoredRecord): PolicyResult<Record> {
    var outpoints :- ParseOutPoints(lib, s.outpoints);
    var outputs :- ParseOutputs(s.outputs);
    var vaultScript :- HexScript(s.vaultScript);
    var requestId :- HexArray16(s.requestId);
    var replayId :- HexArray32(s.replayId);
    var psbtTxid :- HexArray32(s.psbtTxid);
    var outputsCommitment :- HexArray32(s.outputsCommitment);
    var payload :- FromStoreHex(s.signedPsbtOrPartial);
    Ok(Record(requestId, replayId, psbtTxid, outpoints, outputs, vaultScript, outputsCommitment, payload))
  }

  // ----- File -----

  function ToStoredRecords(lib: Library, records: seq<Record>): seq<StoredRecord> {
    if records == [] then [] else [ToStored(lib, records[0])] + ToStoredRecords(lib, records[1..])
  }

  function FromStoredRecords(lib: Library, stored: seq<StoredRecord>): PolicyResult<seq<Record>> {
    if stored == [] then Ok([])
    else
      var first :- FromStored(lib, stored[0]);
      var others :- FromStoredRecords(lib, stored[1..]);
      Ok([first] + others)
  }

  function ToFile(lib: Library, records: seq<Record>): (file: StoredFile)
    ensures file.StoredFile?
  {
    StoredFile(1, ToStoredRecords(lib, records))
  }

  function FromFile(lib: Library, file: StoredFile): PolicyResult<seq<Record>> {
    match file
    case Garbled => Err(Internal)
    case StoredFile(version, records) => if version != 1 then Err(Internal) else FromStoredRecords(lib, records)
  }

  // ----- Round trips -----

  lemma {:induction false} OutPointsRoundTrip(lib: Library, ops: seq<OutPoint>)
    requires lib.OutPointTextRoundTrips()
    ensures ParseOutPoints(lib, PrintOutPoints(lib, ops)) == Ok(ops)
  {
    if ops == [] {
    } else {
      var texts := PrintOutPoints(lib, ops);
      assert texts[1..] == PrintOutPoints(lib, ops[1..]);
      assert lib.parseOutPoint(texts[0]) == Some(ops[0]);
      OutPointsRoundTrip(lib, ops[1..]);
      assert ops == [ops[0]] + ops[1..];
    }
  }

  lemma {:induction false} StoredOutputsRoundTrip(outputs: seq<TxOut>)
    ensures ParseOutputs(StoreOutputs(outputs)) == Ok(outputs)
  {
    if outputs == [] {
    } else {
      var stored := StoreOutputs(outputs);
      assert stored[1..] == StoreOutputs(outputs[1..]);
      HexRoundTrip(outputs[0].scriptPubkey);
      StoredOutputsRoundTrip(outputs[1..]);
      assert outputs == [outputs[0]] + outputs[1..];
    }
  }

  lemma {:induction false} PayloadRoundTrip(p: Payload)
    ensures FromStoreHex(ToStoreHex(p)) == Ok(if p == Signed([]) then Unsigned else p)
  {
    if p.Signed? {
      HexRoundTrip(p.bytes);
    }
  }

  /** A record comes back unchanged exactly when its signature is not the empty one, which reads back
      as no signature. */
  lemma {:induction false} RecordRoundTrip(lib: Library, r: Record)
    requires lib.OutPointTextRoundTrips()
    ensures FromStored(lib, ToStored(lib, r)).Ok?
    ensures FromStored(lib, ToStored(lib, r)) == Ok(r) <==> Constructible(r)
    ensures !Constructible(r) ==> FromStored(lib, ToStored(lib, r)) == Ok(r.(payload := Unsigned))
  {
    OutPointsRoundTrip(lib, r.outpoints);
    StoredOutputsRoundTrip(r.outputs);
    HexRoundTrip(r.vaultScript);
    HexRoundTrip(r.requestId);
    HexRoundTrip(r.replayId);
    HexRoundTrip(r.psbtTxid);
    HexRoundTrip(r.outputsCommitment);
    PayloadRoundTrip(r.payload);
  }

  lemma {:induction false} FileRoundTrip(lib: Library, records: seq<Record>)
    requires lib.OutPointTextRoundTrips()
    requires forall i :: 0 <= i < |records| ==> Constructible(records[i])
    ensures FromFile(lib, ToFile(lib, records)) == Ok(records)
  {
    if records == [] {
    } else {
      assert forall i :: 0 <= i < |records[1..]| ==> records[1..][i] == records[i + 1];
      RecordRoundTrip(lib, records[0]);
      FileRoundTrip(lib, records[1..]);
      assert ToFile(lib, records).records[1..] == ToFile(lib, records[1..]).records;
      assert records == [records[0]] + records[1..];
    }
  }

  /** Every way a caller or the store obtains a record keeps it constructible. */
  lemma {:induction false} ConstructorsNeverSignEmpty(lib: Library, r: Record, signature: seq<Byte>, s: StoredRecord)
    ensures AttachSigned(r, signature) == Err(Internal) <==> signature == []
    ensures AttachSigned(r, signature).Ok? <==> signature != []
    ensures AttachSigned(r, signature).Ok? ==>
              AttachSigned(r, signature).value.payload == Signed(signature)
              && Constructible(AttachSigned(r, signature).value)
    ensures FromStored(lib, s).Ok? ==> Constructible(FromStored(lib, s).value)
  {
    if s.signedPsbtOrPartial != "" && HexDecode(s.signedPsbtOrPartial).Ok? {
      assert |HexDecode(s.signedPsbtOrPartial).value| > 0;
    }
  }

  // ----- What a file says -----

  predicate ReadsOutPoints(lib: Library, texts: seq<string>, ops: seq<OutPoint>) {
    && |texts| == |ops|
    && forall i :: 0 <= i < |texts| ==> lib.parseOutPoint(texts[i]) == Some(ops[i])
  }

  predicate ReadsOutputs(stored: seq<StoredTxOut>, outputs: seq<TxOut>) {
    && |stored| == |outputs|
    && forall i :: 0 <= i < |stored| ==>
         stored[i].valueSats == outputs[i].value && ReadsHex(stored[i].scriptPubkey, outputs[i].scriptPubkey)
  }

  /** An empty text is no signature. */
  predicate ReadsPayload(text: string, payload: Payload) {
    match payload
    case Unsigned => text == ""
    case Signed(bytes) => bytes != [] && ReadsHex(text, bytes)
  }

  /** Field by field. The widths are those of the record's types. */
  predicate ReadsRecord(lib: Library, s: StoredRecord, r: Record) {
    && ReadsHex(s.requestId, r.requestId) && ReadsHex(s.replayId, r.replayId) && ReadsHex(s.psbtTxid, r.psbtTxid)
    && ReadsOutPoints(lib, s.outpoints, r.outpoints) && ReadsOutputs(s.outputs, r.outputs)
    && ReadsHex(s.vaultScript, r.vaultScript) && ReadsHex(s.outputsCommitment, r.outputsCommitment)
    && ReadsPayload(s.signedPsbtOrPartial, r.payload)
  }

  predicate ReadsFile(lib: Library, file: StoredFile, records: seq<Record>) {
    && file.StoredFile? && file.version == 1
    && |file.records| == |records|
    && forall i :: 0 <= i < |records| ==> ReadsRecord(lib, file.records[i], records[i])
  }

  predicate IsHexOf(text: string, width: nat) {
    |text| == 2 * width && IsHex(text)
  }

  predicate IsHexScript(text: string) {
    IsHex(text) && |text| <= 2 * U64_MAX
  }

  predicate IsReadableRecord(lib: Library, s: StoredRecord) {
    && IsHexOf(s.requestId, 16) && IsHexOf(s.replayId, 32)
    && IsHexOf(s.psbtTxid, 32) && IsHexOf(s.outputsCommitment, 32)
    && IsHexScript(s.vaultScript) && IsHex(s.signedPsbtOrPartial)
    && (forall i :: 0 <= i < |s.outpoints| ==> lib.parseOutPoint(s.outpoints[i]).Some?)
    && (forall i :: 0 <= i < |s.outputs| ==> IsHexScript(s.outputs[i].scriptPubkey))
  }

  /** JSON of version 1 in which every field is well formed. */
  predicate IsReadable(lib: Library, file: StoredFile) {
    && file.StoredFile? && file.version == 1
    && forall i :: 0 <= i < |file.records| ==> IsReadableRecord(lib, file.records[i])
  }

  lemma {:induction false} OutPointsAreExact(lib: Library, texts: seq<string>, ops: seq<OutPoint>)
    ensures ParseOutPoints(lib, texts) == Ok(ops) <==> ReadsOutPoints(lib, texts, ops)
    decreases |texts|
  {
    if texts == [] || ops == [] {
    } else {
      OutPointsAreExact(lib, texts[1..], ops[1..]);
      assert ops == [ops[0]] + ops[1..];
      assert forall i :: 0 < i < |texts| ==> texts[i] == texts[1..][i - 1];
      assert forall i :: 0 < i < |ops| ==> ops[i] == ops[1..][i - 1];
    }
  }

  lemma {:induction false} HexScriptIsExact(text: string, script: Script)
    ensures HexScript(text) == Ok(script) <==> ReadsHex(text, script)
    ensures HexScript(text).Ok? <==> IsHexScript(text)
    ensures HexScript(text).Err? ==> HexScript(text) == Err(Internal)
  {
    HexDecodeIsExact(text, script);
    DecodesHex(text);
  }

  lemma {:induction false} OutputsAreExact(stored: seq<StoredTxOut>, outputs: seq<TxOut>)
    ensures ParseOutputs(stored) == Ok(outputs) <==> ReadsOutputs(stored, outputs)
    decreases |stored|
  {
    if stored == [] || outputs == [] {
    } else {
      OutputsAreExact(stored[1..], outputs[1..]);
      HexScriptIsExact(stored[0].scriptPubkey, outputs[0].scriptPubkey);
      assert outputs == [outputs[0]] + outputs[1..];
      assert forall i :: 0 < i < |stored| ==> stored[i] == stored[1..][i - 1];
      assert forall i :: 0 < i < |outputs| ==> outputs[i] == outputs[1..][i - 1];
    }
  }

  lemma {:induction false} FieldsAreReadable(lib: Library, texts: seq<string>, stored: seq<StoredTxOut>)
    ensures ParseOutPoints(lib, texts).Ok? <==> forall i :: 0 <= i < |texts| ==> lib.parseOutPoint(texts[i]).Some?
    ensures ParseOutPoints(lib, texts).Err? ==> ParseOutPoints(lib, texts) == Err(Internal)
    ensures ParseOutputs(stored).Ok? <==> forall i :: 0 <= i < |stored| ==> IsHexScript(stored[i].scriptPubkey)
    ensures ParseOutputs(stored).Err? ==> ParseOutputs(stored) == Err(Internal)
    decreases |texts| + |stored|
  {
    if texts != [] {
      FieldsAreReadable(lib, texts[1..], stored);
      assert forall i :: 0 < i < |texts| ==> texts[i] == texts[1..][i - 1];
    } else if stored != [] {
      FieldsAreReadable(lib, texts, stored[1..]);
      HexScriptIsExact(stored[0].scriptPubkey, []);
      assert forall i :: 0 < i < |stored| ==> stored[i] == stored[1..][i - 1];
    }
  }

  lemma {:induction false} PayloadIsExact(text: string, payload: Payload)
    ensures FromStoreHex(text) == Ok(payload) <==> ReadsPayload(text, payload)
    ensures FromStoreHex(text).Ok? <==> IsHex(text)
    ensures FromStoreHex(text).Err? ==> FromStoreHex(text) == Err(Internal)
  {
    DecodesHex(text);
    if payload.Signed? {
      HexDecodeIsExact(text, payload.bytes);
    }
  }

  /** The four fields of fixed width. */
  lemma {:induction false} FixedFieldsAreExact(s: StoredRecord, r: Record)
    ensures HexArray16(s.requestId) == Ok(r.requestId) <==> ReadsHex(s.requestId, r.requestId)
    ensures HexArray32(s.replayId) == Ok(r.replayId) <==> ReadsHex(s.replayId, r.replayId)
    ensures HexArray32(s.psbtTxid) == Ok(r.psbtTxid) <==> ReadsHex(s.psbtTxid, r.psbtTxid)
    ensures HexArray32(s.outputsCommitment) == Ok(r.outputsCommitment)
       <==> ReadsHex(s.outputsCommitment, r.outputsCommitment)
  {
    HexDecodeIsExact(s.requestId, r.requestId);
    HexDecodeIsExact(s.replayId, r.replayId);
    HexDecodeIsExact(s.psbtTxid, r.psbtTxid);
    HexDecodeIsExact(s.outputsCommitment, r.outputsCommitment);
  }

  /** A stored record reads as exactly the record its fields say. */
  lemma {:induction false} RecordIsExact(lib: Library, s: StoredRecord, r: Record)
    ensures FromStored(lib, s) == Ok(r) <==> ReadsRecord(lib, s, r)
  {
    OutPointsAreExact(lib, s.outpoints, r.outpoints);
    OutputsAreExact(s.outputs, r.outputs);
    HexScriptIsExact(s.vaultScript, r.vaultScript);
    FixedFieldsAreExact(s, r);
    PayloadIsExact(s.signedPsbtOrPartial, r.payload);
  }

  lemma {:induction false} FixedFieldIsReadable(text: string)
    ensures HexArray16(text).Ok? <==> IsHexOf(text, 16)
    ensures HexArray16(text).Err? ==> HexArray16(text) == Err(Internal)
    ensures HexArray32(text).Ok? <==> IsHexOf(text, 32)
    ensures HexArray32(text).Err? ==> HexArray32(text) == Err(Internal)
  {
    DecodesHex(text);
  }

  /** And it is refused exactly when some field is malformed. */
  lemma {:induction false} RecordIsReadable(lib: Library, s: StoredRecord)
    ensures FromStored(lib, s).Ok? <==> IsReadableRecord(lib, s)
    ensures FromStored(lib, s).Err? ==> FromStored(lib, s) == Err(Internal)
  {
    FieldsAreReadable(lib, s.outpoints, s.outputs);
    HexScriptIsExact(s.vaultScript, []);
    FixedFieldIsReadable(s.requestId);
    FixedFieldIsReadable(s.replayId);
    FixedFieldIsReadable(s.psbtTxid);
    FixedFieldIsReadable(s.outputsCommitment);
    PayloadIsExact(s.signedPsbtOrPartial, Unsigned);
  }

  lemma {:induction false} RecordsAreExact(lib: Library, stored: seq<StoredRecord>, records: seq<Record>)
    ensures FromStoredRecords(lib, stored) == Ok(records) <==>
            && |stored| == |records|
            && forall i :: 0 <= i < |stored| ==> ReadsRecord(lib, stored[i], records[i])
    decreases |stored|
  {
    if stored == [] || records == [] {
    } else {
      RecordsAreExact(lib, stored[1..], records[1..]);
      RecordIsExact(lib, stored[0], records[0]);
      assert records == [records[0]] + records[1..];
      if |stored| == |records| {
        ReadsOneMore(lib, stored, records);
      }
    }
  }

  lemma {:induction false} ReadsOneMore(lib: Library, stored: seq<StoredRecord>, records: seq<Record>)
    requires |stored| == |records| > 0
    ensures (forall i :: 0 <= i < |stored| ==> ReadsRecord(lib, stored[i], records[i])) <==>
            && ReadsRecord(lib, stored[0], records[0])
            && forall i :: 0 <= i < |stored[1..]| ==> ReadsRecord(lib, stored[1..][i], records[1..][i])
  {
    assert forall i :: 0 < i < |stored| ==> stored[i] == stored[1..][i - 1] && records[i] == records[1..][i - 1];
  }

  lemma {:induction false} RecordsAreReadable(lib: Library, stored: seq<StoredRecord>)
    ensures FromStoredRecords(lib, stored).Ok? <==> forall i :: 0 <= i < |stored| ==> IsReadableRecord(lib, stored[i])
    ensures FromStoredRecords(lib, stored).Err? ==> FromStoredRecords(lib, stored) == Err(Internal)
  {
    if stored == [] {
    } else {
      RecordIsReadable(lib, stored[0]);
      RecordsAreReadable(lib, stored[1..]);
      assert forall i :: 0 < i < |stored| ==> stored[i] == stored[1..][i - 1];
    }
  }

  /** A file opens exactly when it is readable, as exactly the records it says; anything else is refused. */
  lemma {:induction false} FileIsExact(lib: Library, file: StoredFile, records: seq<Record>)
    ensures FromFile(lib, file) == Ok(records) <==> ReadsFile(lib, file, records)
    ensures FromFile(lib, file).Ok? <==> IsReadable(lib, file)
    ensures FromFile(lib, file).Err? ==> FromFile(lib, file) == Err(Internal)
  {
    if file.StoredFile? {
      RecordsAreExact(lib, file.records, records);
      RecordsAreReadable(lib, file.records);
    }
  }

  /** In particular: no JSON, another version, or one malformed field anywhere. */
  lemma {:induction false} DamagedFileIsRefused(lib: Library, file: StoredFile, i: nat)
    requires || file.Garbled? || file.version != 1
             || (i < |file.records| && !IsReadableRecord(lib, file.records[i]))
    ensures FromFile(lib, file) == Err(Internal)
  {
    FileIsExact(lib, file, []);
  }
}
