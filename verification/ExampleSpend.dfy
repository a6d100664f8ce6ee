/** The program's own example spend, with its amounts as parameters: one 20,000,000-sat coin, one external
    output, one change output. The scenarios are runs made of such spends. */
module ExampleSpend {
  import opened Basics
  import opened Bitcoin
  import opened Pin
  import opened Structure
  import opened Velocity
  import opened Replay
  import opened Store
  import opened Evaluate
  import opened EvaluateProofs
  import opened EvaluateExact
  import opened Agent

  const COIN: U64 := 20_000_000

  function ExampleOutputs(pin: AgentPin, destination: Script, external: U64, change: U64): seq<TxOut> {
    [TxOut(external, destination), TxOut(change, pin.scriptPubkey)]
  }

  function ExamplePsbt(pin: AgentPin, destination: Script, op: OutPoint, external: U64, change: U64): Psbt {
    Psbt(0,
         Transaction(2, 0, [TxIn(op, pin.csvBlocks, [])], ExampleOutputs(pin, destination, external, change)),
         [PsbtInput(Some(TxOut(COIN, pin.scriptPubkey)), None, Some(pin.witnessScript), None, Some(SIGHASH_ALL),
                    map[], {}, false, false)],
         [PsbtOutput(false), PsbtOutput(false)],
         false)
  }

  /** The coin confirmed at height 1 and is just mature, by depth and by clock. */
  function MatureChain(pin: AgentPin, op: OutPoint): ChainView
    requires pin.Provisioned()
  {
    var need := pin.csvBlocks + pin.safetyMargin;
    ChainView(pin.genesisHash, need, 1_700_000_000 + need * 600,
              [PrevoutFact(op, COIN, pin.scriptPubkey, 1, 1_700_000_000, true)])
  }

  function ExampleRequest(requestId: Bytes16, bytes: seq<Byte>, external: U64): PolicyRequest {
    PolicyRequest(requestId, bytes, None, external)
  }

  function ExampleRecord(lib: Library, pin: AgentPin, destination: Script, op: OutPoint, external: U64, change: U64,
                         requestId: Bytes16, bytes: seq<Byte>): Record
  {
    FromPin(lib, pin, requestId, ExamplePsbt(pin, destination, op, external, change), bytes)
  }

  function ExampleAmounts(destination: Script, external: U64, change: U64): AmountBreakdown
    requires external + change <= COIN
  {
    AmountBreakdown(external, destination, change, COIN - external - change, COIN)
  }

  /** The amounts are within the limits that do not depend on what was signed before. */
  predicate ExampleIsSpendable(lib: Library, pin: AgentPin, destination: Script, external: U64, change: U64) {
    && destination != pin.scriptPubkey
    && 1 <= COIN - external - change <= 1_000_000
    && lib.minimalNonDust(destination) <= external < 5_000_000
    && lib.minimalNonDust(pin.scriptPubkey) <= change
  }

  lemma {:induction false} ExampleClassification(pin: AgentPin, destination: Script, external: U64, change: U64)
    requires destination != pin.scriptPubkey
    ensures ClassifyOutputs(ExampleOutputs(pin, destination, external, change), pin.scriptPubkey)
         == Some(ClassifiedOutputs(TxOut(external, destination), change))
  {
    var first, vault := TxOut(external, destination), TxOut(change, pin.scriptPubkey);
    assert ExampleOutputs(pin, destination, external, change)[..1] == [first];
    assert [first][..0] == [];
    assert Externals([first], pin.scriptPubkey) == [first];
    assert Changes([first], pin.scriptPubkey) == [];
  }

  lemma {:induction false} ExampleCoinSum(pin: AgentPin, op: OutPoint)
    requires pin.Provisioned()
    ensures SumBy(CoinValues(MatureChain(pin, op)), [op]) == COIN
  {
    var values := CoinValues(MatureChain(pin, op));
    assert CoinValue(MatureChain(pin, op), op) == COIN;
    assert [] + [op] == [op];
    SumAppend(values, [], op);
  }

  lemma {:induction false} ExamplePsbtIsProper(lib: Library, pin: AgentPin, destination: Script, op: OutPoint,
                                               external: U64, change: U64)
    requires pin.Provisioned()
    ensures ProperPsbt(lib, pin, MatureChain(pin, op), ExamplePsbt(pin, destination, op, external, change))
  {
    assert SequenceSatisfiesOlderCsv(pin.csvBlocks, pin.csvBlocks);
    SequenceCheckIsConsensusCheck(pin.csvBlocks, pin.csvBlocks);
  }

  lemma {:induction false} ExampleAmountsAreProper(lib: Library, pin: AgentPin, destination: Script, op: OutPoint,
                                                   external: U64, change: U64)
    requires pin.Provisioned() && ExampleIsSpendable(lib, pin, destination, external, change)
    ensures ProperAmounts(lib, pin, MatureChain(pin, op), ExamplePsbt(pin, destination, op, external,
                                                                      change).unsignedTx,
                          ExampleAmounts(destination, external, change))
  {
    ExampleClassification(pin, destination, external, change);
    ExampleCoinSum(pin, op);
    assert OutPointsOf(ExamplePsbt(pin, destination, op, external, change).unsignedTx) == [op];
  }

  /** Judged fresh and within the window, the example is a proper request. */
  lemma {:induction false} ExampleIsProper(lib: Library, pin: AgentPin, destination: Script, op: OutPoint,
                                           external: U64, change: U64, requestId: Bytes16, bytes: seq<Byte>,
                                           records: seq<Record>, samples: seq<VelocitySample>)
    requires pin.Provisioned() && ExampleIsSpendable(lib, pin, destination, external, change)
    requires lib.parsePsbt(bytes) == Some(ExamplePsbt(pin, destination, op, external, change))
    requires PreflightVerdict(records,
                              ExampleRecord(lib, pin, destination, op, external, change, requestId, bytes))
          == Ok(Fresh)
    requires external + WindowSum(samples, MatureChain(pin, op).tipHeight) <= 50_000_000
    ensures ProperRequest(lib, pin, ExampleRequest(requestId, bytes, external), MatureChain(pin, op), records, samples,
                          Fresh,
                          ExampleRecord(lib, pin, destination, op, external, change, requestId, bytes),
                          ExampleAmounts(destination, external, change))
  {
    ExamplePsbtIsProper(lib, pin, destination, op, external, change);
    ExampleAmountsAreProper(lib, pin, destination, op, external, change);
  }

  function ExampleTicket(lib: Library, pin: AgentPin, destination: Script, op: OutPoint, external: U64, change: U64,
                         requestId: Bytes16, bytes: seq<Byte>, seen: nat): Ticket
    requires pin.Provisioned()
  {
    Ticket(Fresh, ExampleRecord(lib, pin, destination, op, external, change, requestId, bytes), external,
           MatureChain(pin, op).tipHeight, seen)
  }

  /** Evaluating it leaves its ticket. */
  lemma {:induction false} ExampleLeavesTicket(lib: Library, pin: AgentPin, rule: SampleRule, a: AgentState,
                                               destination: Script, op: OutPoint, external: U64, change: U64,
                                               requestId: Bytes16, bytes: seq<Byte>)
    requires pin.Provisioned() && ExampleIsSpendable(lib, pin, destination, external, change)
    requires lib.parsePsbt(bytes) == Some(ExamplePsbt(pin, destination, op, external, change))
    requires PreflightVerdict(a.store.memory,
                              ExampleRecord(lib, pin, destination, op, external, change, requestId, bytes))
          == Ok(Fresh)
    requires external + WindowSum(Samples(rule, a.ledger), MatureChain(pin, op).tipHeight) <= 50_000_000
    ensures EvaluateStep(lib, pin, rule, a, ExampleRequest(requestId, bytes, external), true, MatureChain(pin, op))
         == a.(pending := a.pending
               + [ExampleTicket(lib, pin, destination, op, external, change, requestId, bytes, |a.ledger|)])
  {
    var samples := Samples(rule, a.ledger);
    ExampleIsProper(lib, pin, destination, op, external, change, requestId, bytes, a.store.memory, samples);
    EvaluationIsExact(lib, pin, ExampleRequest(requestId, bytes, external), true, MatureChain(pin, op), a.store.memory,
                      samples,
                      Fresh, ExampleRecord(lib, pin, destination, op, external, change, requestId, bytes),
                      ExampleAmounts(destination, external, change));
  }

  /** Committing a ticket judged fresh: the record enters memory and the ledger whatever the files do. */
  lemma {:induction false} FreshCommit(lib: Library, a: AgentState, t: Ticket, signature: seq<Byte>, io: Io)
    requires signature != []
    requires PreflightVerdict(a.store.memory, t.record) == Ok(Fresh)
    ensures var record := t.record.(payload := Signed(signature));
            var (store, result) := CommitStep(lib, a.store, record, io);
            && PreflightVerdict(a.store.memory, record) == Ok(Fresh)
            && store.memory == a.store.memory + [record]
            && (result.Ok? <==> io == Io(true, true, true))
            && CommitTicket(lib, a, t, signature, io)
               == a.(store := store, ledger := a.ledger + [Entry(record, t.tip, Charged(t.verdict, t.externalSats),
                                                                 result.Ok?)])
  {
    SignatureKeepsVerdict(a.store.memory, t.record, t.record.(payload := Signed(signature)));
  }

  lemma {:induction false} SignatureKeepsVerdict(records: seq<Record>, r: Record, signed: Record)
    requires signed == r.(payload := signed.payload)
    ensures PreflightVerdict(records, signed) == PreflightVerdict(records, r)
  {
    assert forall k :: 0 <= k < |records| ==> (Blocks(records[k], signed) <==> Blocks(records[k], r));
  }

  lemma {:induction false} NothingStoredIsFresh(r: Record)
    ensures PreflightVerdict([], r) == Ok(Fresh)
  {
    assert FindRequest([], r.requestId) == None;
  }

  /** A run is its first part, then its second. */
  lemma {:induction false} RunInParts(lib: Library, pin: AgentPin, rule: SampleRule, a: AgentState,
                                      first: seq<AgentEvent>, second: seq<AgentEvent>)
    requires AgentRun(lib, pin, rule, a, first).Ok?
    ensures AgentRun(lib, pin, rule, a, first + second)
         == AgentRun(lib, pin, rule, AgentRun(lib, pin, rule, a, first).value, second)
    decreases |first|
  {
    if first == [] {
      assert first + second == second;
    } else {
      assert (first + second)[1..] == first[1..] + second;
      RunInParts(lib, pin, rule, AgentStep(lib, pin, rule, a, first[0]).value, first[1..], second);
    }
  }

  lemma {:induction false} RunOfOne(lib: Library, pin: AgentPin, rule: SampleRule, a: AgentState, e: AgentEvent)
    ensures AgentRun(lib, pin, rule, a, [e]) == AgentStep(lib, pin, rule, a, e)
  {
    assert [e][1..] == [];
    if AgentStep(lib, pin, rule, a, e).Ok? {
      assert AgentRun(lib, pin, rule, AgentStep(lib, pin, rule, a, e).value, []) == AgentStep(lib, pin, rule, a, e);
    }
  }

  /** Evaluate a fresh example in an agent without tickets, and commit it. */
  lemma {:induction false} EvaluateAndCommit(lib: Library, pin: AgentPin, rule: SampleRule, a: AgentState,
                                             destination: Script, op: OutPoint, external: U64, change: U64,
                                             requestId: Bytes16, bytes: seq<Byte>, signature: seq<Byte>, io: Io)
    requires pin.Provisioned() && ExampleIsSpendable(lib, pin, destination, external, change)
    requires lib.parsePsbt(bytes) == Some(ExamplePsbt(pin, destination, op, external, change))
    requires a.pending == [] && a.store.memory == [] && signature != []
    requires external + WindowSum(Samples(rule, a.ledger), MatureChain(pin, op).tipHeight) <= 50_000_000
    ensures var t := ExampleTicket(lib, pin, destination, op, external, change, requestId, bytes, |a.ledger|);
            AgentRun(lib, pin, rule, a,
                     [Evaluated(ExampleRequest(requestId, bytes, external), true, MatureChain(pin, op)),
                      Committed(0, signature, io)])
            == Ok(CommitTicket(lib, a.(pending := [t]), t, signature, io))
  {
    var t := ExampleTicket(lib, pin, destination, op, external, change, requestId, bytes, |a.ledger|);
    var evaluation := Evaluated(ExampleRequest(requestId, bytes, external), true, MatureChain(pin, op));
    var commit := Committed(0, signature, io);
    NothingStoredIsFresh(t.record);
    ExampleLeavesTicket(lib, pin, rule, a, destination, op, external, change, requestId, bytes);
    assert [] + [t] == [t];
    RunOfOne(lib, pin, rule, a, evaluation);
    RunOfOne(lib, pin, rule, a.(pending := [t]), commit);
    RunInParts(lib, pin, rule, a, [evaluation], [commit]);
    assert [evaluation, commit] == [evaluation] + [commit];
  }
}
