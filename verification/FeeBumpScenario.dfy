/** The program's own fee-bump example: a first spend of 1,000,000 sats and a bump that takes 500 sats from
    its change. It shows that the premises of the honest-bump theorem can be met. */
module FeeBumpScenario {
  import opened Basics
  import opened Bitcoin
  import opened Encoding
  import opened Pin
  import opened Replay
  import opened Store
  import opened Evaluate
  import opened Agent
  import opened AgentVelocity
  import opened AgentBumps
  import opened ExampleSpend

  const EXTERNAL: U64 := 1_000_000
  const CHANGE: U64 := 18_999_000
  const BUMPED_CHANGE: U64 := 18_998_500

  ghost predicate BumpLibrary(lib: Library, pin: AgentPin, destination: Script, op: OutPoint,
                              spend: seq<Byte>, bump: seq<Byte>)
  {
    && lib.OutPointTextRoundTrips()
    && destination != pin.scriptPubkey
    && lib.minimalNonDust(destination) <= 1000 && lib.minimalNonDust(pin.scriptPubkey) <= 1000
    && lib.parsePsbt(spend) == Some(ExamplePsbt(pin, destination, op, EXTERNAL, CHANGE))
    && lib.parsePsbt(bump) == Some(ExamplePsbt(pin, destination, op, EXTERNAL, BUMPED_CHANGE))
    && lib.NoCollision(EncodeOutputs(ExampleOutputs(pin, destination, EXTERNAL, CHANGE)),
                       EncodeOutputs(ExampleOutputs(pin, destination, EXTERNAL, BUMPED_CHANGE)))
  }

  function SpendEvents(pin: AgentPin, op: OutPoint, requestId: Bytes16, spend: seq<Byte>, signature: seq<Byte>)
    : seq<AgentEvent>
    requires pin.Provisioned()
  {
    [Evaluated(ExampleRequest(requestId, spend, EXTERNAL), true, MatureChain(pin, op)),
     Committed(0, signature, Io(true, true, true))]
  }

  /** The first spend leaves its record as the only one in the store, by a run in order. */
  lemma {:induction false} FirstSpendIsStored(lib: Library, pin: AgentPin, rule: SampleRule, destination: Script,
                                              op: OutPoint,
                                              spend: seq<Byte>, bump: seq<Byte>, requestId: Bytes16,
                                              signature: seq<Byte>)
    requires pin.Provisioned() && BumpLibrary(lib, pin, destination, op, spend, bump) && signature != []
    ensures var record := ExampleRecord(lib, pin, destination, op, EXTERNAL, CHANGE, requestId, spend);
            var events := SpendEvents(pin, op, requestId, spend, signature);
            var r := AgentRun(lib, pin, rule, NewAgent(lib), events);
            && r.Ok? && r.value.store.memory == [record.(payload := Signed(signature))]
            && InOrder(lib, pin, rule, NewAgent(lib), events, 0)
  {
    var a := NewAgent(lib);
    var events := SpendEvents(pin, op, requestId, spend, signature);
    assert Samples(rule, a.ledger) == [];
    var t := ExampleTicket(lib, pin, destination, op, EXTERNAL, CHANGE, requestId, spend, 0);
    NothingStoredIsFresh(t.record);
    EvaluateAndCommit(lib, pin, rule, a, destination, op, EXTERNAL, CHANGE, requestId, spend, signature,
                      Io(true, true, true));
    FreshCommit(lib, a.(pending := [t]), t, signature, Io(true, true, true));
    ExampleLeavesTicket(lib, pin, rule, a, destination, op, EXTERNAL, CHANGE, requestId, spend);
    assert AgentStep(lib, pin, rule, a, events[0]).value == a.(pending := [t]);
    assert events[1..][1..] == [] && events[1..][0] == events[1];
    assert [] + [t.record.(payload := Signed(signature))] == [t.record.(payload := Signed(signature))];
  }

  lemma {:induction false} BumpIsHonest(lib: Library, pin: AgentPin, destination: Script, op: OutPoint,
                                        spend: seq<Byte>, bump: seq<Byte>, first: Bytes16, second: Bytes16,
                                        signature: seq<Byte>)
    requires pin.Provisioned() && BumpLibrary(lib, pin, destination, op, spend, bump) && first != second
    ensures var original := ExampleRecord(lib, pin, destination, op, EXTERNAL, CHANGE, first, spend);
            && HonestBump(lib, pin, [original.(payload := Signed(signature))], original,
                          ExampleAmounts(destination, EXTERNAL, CHANGE), ExampleRequest(second, bump, EXTERNAL),
                          ExamplePsbt(pin, destination, op, EXTERNAL, BUMPED_CHANGE), MatureChain(pin, op))
            && FactsStillHold(MatureChain(pin, op), MatureChain(pin, op), original.outpoints)
  {
    ExampleClassification(pin, destination, EXTERNAL, CHANGE);
    ExampleClassification(pin, destination, EXTERNAL, BUMPED_CHANGE);
    ExamplePsbtIsProper(lib, pin, destination, op, EXTERNAL, BUMPED_CHANGE);
    assert OutPointsOf(ExamplePsbt(pin, destination, op, EXTERNAL, CHANGE).unsignedTx) == [op];
    assert OutPointsOf(ExamplePsbt(pin, destination, op, EXTERNAL, BUMPED_CHANGE).unsignedTx) == [op];
  }

  /** The bump of 500 sats is accepted as a fee bump that pays a fee of 1,500. */
  lemma {:induction false} BumpIsAccepted(lib: Library, pin: AgentPin, rule: SampleRule, destination: Script,
                                          op: OutPoint,
                                          spend: seq<Byte>, bump: seq<Byte>, first: Bytes16, second: Bytes16,
                                          signature: seq<Byte>)
    requires pin.Provisioned() && BumpLibrary(lib, pin, destination, op, spend, bump)
    requires first != second && signature != []
    ensures var r := AgentRun(lib, pin, rule, NewAgent(lib), SpendEvents(pin, op, first, spend, signature));
            && r.Ok?
            && Evaluation(lib, pin, ExampleRequest(second, bump, EXTERNAL), true, MatureChain(pin, op),
                          r.value.store.memory, Samples(rule, r.value.ledger))
               == Ok(ValidatedUnsigned(FeeBump,
                                       ExampleRecord(lib, pin, destination, op, EXTERNAL, BUMPED_CHANGE, second, bump),
                                       AmountBreakdown(EXTERNAL, destination, BUMPED_CHANGE, 1500, COIN)))
  {
    var events := SpendEvents(pin, op, first, spend, signature);
    var original := ExampleRecord(lib, pin, destination, op, EXTERNAL, CHANGE, first, spend);
    FirstSpendIsStored(lib, pin, rule, destination, op, spend, bump, first, signature);
    var a := AgentRun(lib, pin, rule, NewAgent(lib), events).value;
    NothingStoredIsFresh(original);
    ExampleIsProper(lib, pin, destination, op, EXTERNAL, CHANGE, first, spend, [], []);
    BumpIsHonest(lib, pin, destination, op, spend, bump, first, second, signature);
    ExampleClassification(pin, destination, EXTERNAL, BUMPED_CHANGE);
    HonestBumpIsAccepted(lib, pin, rule, events, 0, a, ExampleRequest(first, spend, EXTERNAL), MatureChain(pin, op),
                         [], [],
                         Fresh, original, ExampleAmounts(destination, EXTERNAL, CHANGE), 0, signature,
                         ExampleRequest(second, bump, EXTERNAL),
                         ExamplePsbt(pin, destination, op, EXTERNAL, BUMPED_CHANGE), MatureChain(pin, op));
  }
}
