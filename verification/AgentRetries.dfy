/** Retries: a signature committed with success answers its request for ever. */
module AgentRetries {
  import opened Basics
  import opened Bitcoin
  import opened Pin
  import opened Structure
  import opened Replay
  import opened Store
  import opened Evaluate
  import opened EvaluateProofs
  import opened Agent

  lemma {:induction false} CommitKeepsDurable(lib: Library, a: AgentState, t: Ticket, signature: seq<Byte>, io: Io,
                                              base: nat)
    requires Sound(lib, a.store, base)
    ensures var store := CommitTicket(lib, a, t, signature, io).store;
            && Sound(lib, store, base) && store.memory[..base] == a.store.memory[..base]
  {
    if signature != [] {
      CommitKeepsSound(lib, a.store, AttachSigned(t.record, signature).value, io, base);
    }
  }

  lemma {:induction false} StepKeepsDurable(lib: Library, pin: AgentPin, rule: SampleRule, a: AgentState, e: AgentEvent,
                                            base: nat)
    requires lib.OutPointTextRoundTrips()
    requires Sound(lib, a.store, base)
    ensures var r := AgentStep(lib, pin, rule, a, e);
            && r.Ok? && Sound(lib, r.value.store, base)
            && r.value.store.memory[..base] == a.store.memory[..base]
  {
    match e
    case Evaluated(request, authOk, chain) =>
    case Committed(ticket, signature, io) =>
      if ticket < |a.pending| {
        CommitKeepsDurable(lib, a, a.pending[ticket], signature, io, base);
      }
    case Crashed(survivor) =>
      ReopenKeepsSound(lib, a.store, if survivor < |a.store.files| then survivor else 0, base);
  }

  lemma {:induction false} RunKeepsDurable(lib: Library, pin: AgentPin, rule: SampleRule, a: AgentState,
                                           events: seq<AgentEvent>, base: nat)
    requires lib.OutPointTextRoundTrips()
    requires Sound(lib, a.store, base)
    ensures var r := AgentRun(lib, pin, rule, a, events);
            && r.Ok? && Sound(lib, r.value.store, base)
            && r.value.store.memory[..base] == a.store.memory[..base]
    decreases |events|
  {
    if events == [] {
    } else {
      StepKeepsDurable(lib, pin, rule, a, events[0], base);
      RunKeepsDurable(lib, pin, rule, AgentStep(lib, pin, rule, a, events[0]).value, events[1..], base);
    }
  }

  /** A step that puts a new signature on the ledger and reports success. */
  ghost predicate ReportsNew(lib: Library, pin: AgentPin, rule: SampleRule, a: AgentState, e: AgentEvent) {
    && AgentStep(lib, pin, rule, a, e).Ok?
    && var ledger := AgentStep(lib, pin, rule, a, e).value.ledger;
    && |ledger| > |a.ledger|
    && ledger[|ledger| - 1].reported
  }

  /** Its record is then the last in the store, and durable. */
  lemma {:induction false} ReportedIsDurable(lib: Library, pin: AgentPin, rule: SampleRule, a: AgentState,
                                             ticket: nat, signature: seq<Byte>, io: Io)
    requires Sound(lib, a.store, 0)
    requires ReportsNew(lib, pin, rule, a, Committed(ticket, signature, io))
    ensures ticket < |a.pending| && signature != []
    ensures PreflightVerdict(a.store.memory, a.pending[ticket].record.(payload := Signed(signature)))
              in {Ok(Fresh), Ok(FeeBump)}
    ensures var next := AgentStep(lib, pin, rule, a, Committed(ticket, signature, io)).value;
            && next.store.memory == a.store.memory + [a.pending[ticket].record.(payload := Signed(signature))]
            && Sound(lib, next.store, |next.store.memory|)
  {
    var record := AttachSigned(a.pending[ticket].record, signature).value;
    CommitKeepsSound(lib, a.store, record, io, 0);
  }

  /** Two requests under one request id whose PSBTs parse, and on whose bytes SHA256 does not collide. */
  ghost predicate SameIdNoCollision(lib: Library, request: PolicyRequest, psbt: Psbt,
                                    later: PolicyRequest, psbt': Psbt)
  {
    && ParsePsbtV0(lib, request.psbtBytes) == Ok(psbt) && ParsePsbtV0(lib, later.psbtBytes) == Ok(psbt')
    && later.requestId == request.requestId
    && lib.NoCollision(request.psbtBytes, later.psbtBytes)
    && lib.NoCollision(
         ReplayIdPreimage(request.requestId, lib.computeTxid(psbt.unsignedTx), lib.sha256(request.psbtBytes)),
         ReplayIdPreimage(request.requestId, lib.computeTxid(psbt'.unsignedTx), lib.sha256(later.psbtBytes)))
  }

  /** Once the agent has committed a signature for a request with success, then after any further run the
      same request gets exactly those bytes, whatever the chain looks like; and the same request id with
      other PSBT bytes is a conflict. */
  lemma {:induction false} CommittedRequestIsAnsweredForEver(
    lib: Library, pin: AgentPin, rule: SampleRule, a: AgentState, request: PolicyRequest, psbt: Psbt,
    ticket: nat, signature: seq<Byte>, io: Io, events: seq<AgentEvent>,
    later: PolicyRequest, psbt': Psbt, chain: ChainView)
    requires lib.OutPointTextRoundTrips()
    requires Sound(lib, a.store, 0)
    requires SameIdNoCollision(lib, request, psbt, later, psbt')
    requires RequireNoUnknownPsbtFields(psbt').Ok?
    requires ReportsNew(lib, pin, rule, a, Committed(ticket, signature, io))
    requires a.pending[ticket].record == FromPin(lib, pin, request.requestId, psbt, request.psbtBytes)
    ensures var r := AgentRun(lib, pin, rule, a, [Committed(ticket, signature, io)] + events);
            && r.Ok?
            && Evaluation(lib, pin, later, true, chain, r.value.store.memory, Samples(rule, r.value.ledger))
               == if later.psbtBytes == request.psbtBytes then Ok(CachedSignature(signature)) else Err(ReplayConflict)
  {
    var step := Committed(ticket, signature, io);
    ReportedIsDurable(lib, pin, rule, a, ticket, signature, io);
    var next := AgentStep(lib, pin, rule, a, step).value;
    var base := |next.store.memory|;
    RunKeepsDurable(lib, pin, rule, next, events, base);
    assert ([step] + events)[1..] == events;
    var after := AgentRun(lib, pin, rule, next, events).value;
    var memory := after.store.memory;
    assert memory[base - 1] == memory[..base][base - 1];
    RetryIsAnswered(lib, pin, later, chain, memory, Samples(rule, after.ledger), base - 1);
    ReplayIdIdentifiesBytes(lib, pin, request.requestId, psbt', later.psbtBytes, psbt, request.psbtBytes);
  }
}
