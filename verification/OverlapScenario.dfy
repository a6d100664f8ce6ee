/** Eleven requests of 4,900,000 sats, all evaluated before the first is committed: each passes the window
    check, and together they exceed the window cap. Velocity then refuses even a fee bump, which is charged
    nothing. */
module OverlapScenario {
  import opened Basics
  import opened Bitcoin
  import opened Encoding
  import opened Pin
  import opened Velocity
  import opened Replay
  import opened Store
  import opened Evaluate
  import opened EvaluateProofs
  import opened Agent
  import opened AgentVelocity
  import opened AgentBumps
  import opened ExampleSpend

  const EXTERNAL: U64 := 4_900_000
  const CHANGE: U64 := 15_099_000
  const REQUESTS: nat := 11

  function Coin(k: Byte): OutPoint {
    OutPoint(seq(32, i => 0), k)
  }

  function Id(k: Byte): Bytes16 {
    seq(16, i => k)
  }

  ghost predicate ParsesRequests(lib: Library, pin: AgentPin, destination: Script) {
    && ExampleIsSpendable(lib, pin, destination, EXTERNAL, CHANGE)
    && forall k: Byte :: k < REQUESTS ==>
         lib.parsePsbt([k]) == Some(ExamplePsbt(pin, destination, Coin(k), EXTERNAL, CHANGE))
  }

  function Candidate(lib: Library, pin: AgentPin, destination: Script, k: Byte): Record {
    ExampleRecord(lib, pin, destination, Coin(k), EXTERNAL, CHANGE, Id(k), [k])
  }

  function Evaluations(pin: AgentPin, n: nat): seq<AgentEvent>
    requires pin.Provisioned() && n <= REQUESTS
  {
    if n == 0 then []
    else Evaluations(pin, n - 1) + [Evaluating(pin, n - 1)]
  }

  function Commits(signature: seq<Byte>, n: nat): seq<AgentEvent> {
    if n == 0 then [] else Commits(signature, n - 1) + [Committed(n - 1, signature, Io(true, true, true))]
  }

  function OverlappedEvents(pin: AgentPin, signature: seq<Byte>): seq<AgentEvent>
    requires pin.Provisioned()
  {
    Evaluations(pin, REQUESTS) + Commits(signature, REQUESTS)
  }

  function Tip(pin: AgentPin): U32
    requires pin.Provisioned()
  {
    pin.csvBlocks + pin.safetyMargin
  }

  /** An agent that has evaluated the first n requests and committed none. */
  ghost predicate HasEvaluated(lib: Library, pin: AgentPin, destination: Script, a: AgentState, n: nat)
    requires pin.Provisioned() && n <= REQUESTS
  {
    && a.store == EmptyStore(lib) && a.ledger == []
    && |a.pending| == n
    && forall k :: 0 <= k < n ==>
         a.pending[k] == ExampleTicket(lib, pin, destination, Coin(k), EXTERNAL, CHANGE, Id(k), [k], 0)
  }

  function Evaluating(pin: AgentPin, k: Byte): AgentEvent
    requires pin.Provisioned()
  {
    Evaluated(ExampleRequest(Id(k), [k], EXTERNAL), true, MatureChain(pin, Coin(k)))
  }

  lemma {:induction false} EvaluateNext(lib: Library, pin: AgentPin, destination: Script, a: AgentState, k: Byte)
    requires pin.Provisioned() && ParsesRequests(lib, pin, destination)
    requires k < REQUESTS && HasEvaluated(lib, pin, destination, a, k)
    ensures var r := AgentStep(lib, pin, WhenStored, a, Evaluating(pin, k));
            r.Ok? && HasEvaluated(lib, pin, destination, r.value, k + 1)
  {
    NothingStoredIsFresh(Candidate(lib, pin, destination, k));
    assert Samples(WhenStored, []) == [];
    ExampleLeavesTicket(lib, pin, WhenStored, a, destination, Coin(k), EXTERNAL, CHANGE, Id(k), [k]);
  }

  lemma {:induction false} AllEvaluate(lib: Library, pin: AgentPin, destination: Script, n: nat)
    requires pin.Provisioned() && ParsesRequests(lib, pin, destination) && n <= REQUESTS
    ensures var r := AgentRun(lib, pin, WhenStored, NewAgent(lib), Evaluations(pin, n));
            r.Ok? && HasEvaluated(lib, pin, destination, r.value, n)
  {
    if n == 0 {
    } else {
      AllEvaluate(lib, pin, destination, n - 1);
      var a := AgentRun(lib, pin, WhenStored, NewAgent(lib), Evaluations(pin, n - 1)).value;
      EvaluateNext(lib, pin, destination, a, n - 1);
      RunOfOne(lib, pin, WhenStored, a, Evaluating(pin, n - 1));
      RunInParts(lib, pin, WhenStored, NewAgent(lib), Evaluations(pin, n - 1), [Evaluating(pin, n - 1)]);
    }
  }

  /** The first n requests are stored and sampled. */
  ghost predicate HasCommitted(lib: Library, pin: AgentPin, destination: Script, signature: seq<Byte>, a: AgentState,
                               n: nat)
    requires pin.Provisioned() && n <= REQUESTS
  {
    && |a.store.memory| == n
    && (forall k :: 0 <= k < n ==>
          a.store.memory[k] == Candidate(lib, pin, destination, k).(payload := Signed(signature)))
    && WindowSum(Samples(WhenStored, a.ledger), Tip(pin)) == n * EXTERNAL
  }

  lemma {:induction false} NextIsFresh(lib: Library, pin: AgentPin, destination: Script, signature: seq<Byte>,
                                       a: AgentState, n: Byte)
    requires pin.Provisioned() && n < REQUESTS && HasCommitted(lib, pin, destination, signature, a, n)
    ensures PreflightVerdict(a.store.memory, Candidate(lib, pin, destination, n)) == Ok(Fresh)
  {
    var r := Candidate(lib, pin, destination, n);
    forall k: Byte | k < n && k < |a.store.memory|
      ensures a.store.memory[k].requestId != r.requestId
      ensures !OutpointsOverlap(a.store.memory[k].outpoints, r.outpoints)
    {
      assert Id(k)[0] != Id(n)[0];
      assert a.store.memory[k].outpoints == [Coin(k)] && r.outpoints == [Coin(n)];
    }
  }

  lemma {:induction false} CommitOneMore(lib: Library, pin: AgentPin, destination: Script, signature: seq<Byte>,
                                         a: AgentState, k: Byte)
    requires pin.Provisioned() && signature != [] && k < REQUESTS
    requires HasCommitted(lib, pin, destination, signature, a, k)
    requires k < |a.pending|
    requires a.pending[k] == ExampleTicket(lib, pin, destination, Coin(k), EXTERNAL, CHANGE, Id(k), [k], 0)
    ensures var r := AgentRun(lib, pin, WhenStored, a, [Committed(k, signature, Io(true, true, true))]);
            && r.Ok? && r.value.pending == a.pending
            && HasCommitted(lib, pin, destination, signature, r.value, k + 1)
  {
    NextIsFresh(lib, pin, destination, signature, a, k);
    CommitNext(lib, pin, destination, signature, a, k);
    RunOfOne(lib, pin, WhenStored, a, Committed(k, signature, Io(true, true, true)));
  }

  lemma {:induction false} AllCommit(lib: Library, pin: AgentPin, destination: Script, signature: seq<Byte>,
                                     a: AgentState, n: nat)
    requires pin.Provisioned() && signature != []
    requires HasEvaluated(lib, pin, destination, a, REQUESTS) && n <= REQUESTS
    ensures var r := AgentRun(lib, pin, WhenStored, a, Commits(signature, n));
            && r.Ok? && r.value.pending == a.pending
            && HasCommitted(lib, pin, destination, signature, r.value, n)
  {
    if n == 0 {
      assert Samples(WhenStored, []) == [];
    } else {
      AllCommit(lib, pin, destination, signature, a, n - 1);
      var before := AgentRun(lib, pin, WhenStored, a, Commits(signature, n - 1)).value;
      var k: Byte := n - 1;
      assert a.pending[k] == ExampleTicket(lib, pin, destination, Coin(k), EXTERNAL, CHANGE, Id(k), [k], 0);
      CommitOneMore(lib, pin, destination, signature, before, k);
      RunInParts(lib, pin, WhenStored, a, Commits(signature, n - 1), [Committed(k, signature, Io(true, true, true))]);
    }
  }

  lemma {:induction false} CommitNext(lib: Library, pin: AgentPin, destination: Script, signature: seq<Byte>,
                                      a: AgentState, n: Byte)
    requires pin.Provisioned() && signature != []
    requires n < REQUESTS && HasCommitted(lib, pin, destination, signature, a, n)
    requires PreflightVerdict(a.store.memory, Candidate(lib, pin, destination, n)) == Ok(Fresh)
    ensures var t := ExampleTicket(lib, pin, destination, Coin(n), EXTERNAL, CHANGE, Id(n), [n], 0);
            var next := CommitTicket(lib, a, t, signature, Io(true, true, true));
            next.pending == a.pending && HasCommitted(lib, pin, destination, signature, next, n + 1)
  {
    var t := ExampleTicket(lib, pin, destination, Coin(n), EXTERNAL, CHANGE, Id(n), [n], 0);
    FreshCommit(lib, a, t, signature, Io(true, true, true));
    SampleAddsToWindow(a.ledger, Entry(t.record.(payload := Signed(signature)), t.tip, EXTERNAL, true), Tip(pin));
  }

  lemma {:induction false} SampleAddsToWindow(ledger: seq<Entry>, e: Entry, tip: U32)
    requires e.tip == tip
    ensures WindowSum(Samples(WhenStored, ledger + [e]), tip) == WindowSum(Samples(WhenStored, ledger), tip) + e.charged
  {
    SamplesAppend(WhenStored, ledger, e);
    var samples := Samples(WhenStored, ledger);
    assert (samples + [VelocitySample(e.tip, e.charged)])[..|samples|] == samples;
  }

  /** So the window cap needs the order that the velocity theorem asks for. */
  lemma {:induction false} OverlappedRequestsExceedCap(lib: Library, pin: AgentPin, destination: Script,
                                                       signature: seq<Byte>)
    returns (a: AgentState)
    requires pin.Provisioned() && ParsesRequests(lib, pin, destination) && signature != []
    ensures AgentRun(lib, pin, WhenStored, NewAgent(lib), OverlappedEvents(pin, signature)) == Ok(a)
    ensures HasCommitted(lib, pin, destination, signature, a, REQUESTS)
    ensures WindowSum(Samples(WhenStored, a.ledger), Tip(pin)) == 53_900_000 > pin.velocityPer144Sats
  {
    AllEvaluate(lib, pin, destination, REQUESTS);
    var evaluated := AgentRun(lib, pin, WhenStored, NewAgent(lib), Evaluations(pin, REQUESTS)).value;
    AllCommit(lib, pin, destination, signature, evaluated, REQUESTS);
    RunInParts(lib, pin, WhenStored, NewAgent(lib), Evaluations(pin, REQUESTS), Commits(signature, REQUESTS));
    a := AgentRun(lib, pin, WhenStored, evaluated, Commits(signature, REQUESTS)).value;
  }

  // ----- A refused bump -----

  const BUMP: Byte := 200
  const BUMPED_CHANGE: U64 := 15_098_500

  /** A bump of the first request that takes 500 sats from its change. */
  function BumpPsbt(pin: AgentPin, destination: Script): Psbt {
    ExamplePsbt(pin, destination, Coin(0), EXTERNAL, BUMPED_CHANGE)
  }

  ghost predicate ParsesBump(lib: Library, pin: AgentPin, destination: Script) {
    && ExampleIsSpendable(lib, pin, destination, EXTERNAL, BUMPED_CHANGE)
    && lib.parsePsbt([BUMP]) == Some(BumpPsbt(pin, destination))
    && lib.NoCollision(EncodeOutputs(ExampleOutputs(pin, destination, EXTERNAL, CHANGE)),
                       EncodeOutputs(ExampleOutputs(pin, destination, EXTERNAL, BUMPED_CHANGE)))
  }

  lemma {:induction false} BumpIsProper(lib: Library, pin: AgentPin, destination: Script, signature: seq<Byte>,
                                        a: AgentState)
    returns (bump: PolicyRequest, psbt: Psbt, chain: ChainView, am: AmountBreakdown)
    requires pin.Provisioned() && ParsesRequests(lib, pin, destination) && ParsesBump(lib, pin, destination)
    requires HasCommitted(lib, pin, destination, signature, a, REQUESTS)
    ensures psbt == BumpPsbt(pin, destination) && chain.tipHeight == Tip(pin) && am.feeSats == 1500
    ensures |a.store.memory| > 0
    ensures ProperBump(lib, pin, a.store.memory, a.store.memory[0], bump, psbt, chain, am)
  {
    bump, psbt := ExampleRequest(Id(BUMP), [BUMP], EXTERNAL), BumpPsbt(pin, destination);
    chain, am := MatureChain(pin, Coin(0)), ExampleAmounts(destination, EXTERNAL, BUMPED_CHANGE);
    ExampleClassification(pin, destination, EXTERNAL, CHANGE);
    ExampleClassification(pin, destination, EXTERNAL, BUMPED_CHANGE);
    ExamplePsbtIsProper(lib, pin, destination, Coin(0), EXTERNAL, BUMPED_CHANGE);
    ExampleAmountsAreProper(lib, pin, destination, Coin(0), EXTERNAL, BUMPED_CHANGE);
    forall k: nat | k < |a.store.memory|
      ensures a.store.memory[k].requestId != Id(BUMP)
      ensures ChangeOf(a.store.memory[k]) == CHANGE
      ensures a.store.memory[k].outputs == ExampleOutputs(pin, destination, EXTERNAL, CHANGE)
    {
      assert a.store.memory[k] == Candidate(lib, pin, destination, k).(payload := Signed(signature));
      assert Id(k)[0] != Id(BUMP)[0];
    }
    assert OutPointsOf(BumpPsbt(pin, destination).unsignedTx) == [Coin(0)] == a.store.memory[0].outpoints;
  }

  /** In the state the overlapped requests leave, any proper bump at their tip is refused. */
  lemma {:induction false} BumpIsRefused(lib: Library, pin: AgentPin, events: seq<AgentEvent>, a: AgentState,
                                         bump: PolicyRequest, psbt: Psbt, chain: ChainView, am: AmountBreakdown)
    requires lib.OutPointTextRoundTrips() && pin.Provisioned()
    requires AgentRun(lib, pin, WhenStored, NewAgent(lib), events) == Ok(a)
    requires |a.store.memory| > 0 && WindowSum(Samples(WhenStored, a.ledger), chain.tipHeight) == 53_900_000
    requires ProperBump(lib, pin, a.store.memory, a.store.memory[0], bump, psbt, chain, am)
    ensures Evaluation(lib, pin, bump, true, chain, a.store.memory, Samples(WhenStored, a.ledger))
         == Err(PolicyErrorCode.Velocity)
  {
    ProperBumpIsDecided(lib, pin, WhenStored, events, a, 0, bump, psbt, chain, am);
  }

  /** After the overlapped requests a proper bump of the first is refused, although it is charged nothing. */
  lemma {:induction false} OverlappedBumpIsRefused(lib: Library, pin: AgentPin, destination: Script,
                                                   signature: seq<Byte>)
    returns (a: AgentState, bump: PolicyRequest, psbt: Psbt, chain: ChainView, am: AmountBreakdown)
    requires lib.OutPointTextRoundTrips() && pin.Provisioned() && signature != []
    requires ParsesRequests(lib, pin, destination) && ParsesBump(lib, pin, destination)
    ensures AgentRun(lib, pin, WhenStored, NewAgent(lib), OverlappedEvents(pin, signature)) == Ok(a)
    ensures psbt == BumpPsbt(pin, destination) && am.feeSats == 1500 && |a.store.memory| > 0
    ensures ProperBump(lib, pin, a.store.memory, a.store.memory[0], bump, psbt, chain, am)
    ensures Evaluation(lib, pin, bump, true, chain, a.store.memory, Samples(WhenStored, a.ledger))
         == Err(PolicyErrorCode.Velocity)
  {
    a := OverlappedRequestsExceedCap(lib, pin, destination, signature);
    bump, psbt, chain, am := BumpIsProper(lib, pin, destination, signature, a);
    BumpIsRefused(lib, pin, OverlappedEvents(pin, signature), a, bump, psbt, chain, am);
  }
}
