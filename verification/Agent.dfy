/** The agent as a state machine over the caller sequence the policy documents: evaluate, sign, attach the
    signature, commit, record a velocity sample. Requests may be evaluated and committed in any
    interleaving, writes may fail, and the process may crash and reopen its store.

    When the caller records a velocity sample is a parameter: as soon as a record has entered the store,
    or only when the commit has reported success. */
module Agent {
  import opened Basics
  import opened Bitcoin
  import opened Pin
  import opened Velocity
  import opened Replay
  import opened Store
  import opened Evaluate
  import opened EvaluateProofs

  datatype SampleRule = WhenStored | WhenReported

  /** An accepted evaluation that waits for its signature to be committed, and how many signatures the
      ledger held when it was evaluated. */
  datatype Ticket = Ticket(verdict: Verdict, record: Record, externalSats: U64, tip: U32, seen: nat)

  /** A signature that has entered the store, what it is charged, and whether its commit reported success.
      Entries outlive crashes. */
  datatype Entry = Entry(record: Record, tip: U32, charged: U64, reported: bool)

  datatype AgentState = AgentState(store: StoreState, pending: seq<Ticket>, ledger: seq<Entry>)

  datatype AgentEvent =
    | Evaluated(request: PolicyRequest, authOk: bool, chain: ChainView)
    | Committed(ticket: nat, signature: seq<Byte>, io: Io)
    | Crashed(survivor: nat)

  predicate Sampled(rule: SampleRule, e: Entry) {
    rule.WhenStored? || e.reported
  }

  /** The samples the caller has recorded. */
  function Samples(rule: SampleRule, ledger: seq<Entry>): seq<VelocitySample> {
    if ledger == [] then []
    else
      var before, last := Samples(rule, ledger[..|ledger| - 1]), ledger[|ledger| - 1];
      if Sampled(rule, last) then before + [VelocitySample(last.tip, last.charged)] else before
  }

  function EvaluateStep(lib: Library, pin: AgentPin, rule: SampleRule, a: AgentState, request: PolicyRequest,
                        authOk: bool, chain: ChainView): AgentState
  {
    match Evaluation(lib, pin, request, authOk, chain, a.store.memory, Samples(rule, a.ledger))
    case Ok(ValidatedUnsigned(verdict, record, amounts)) =>
      a.(pending := a.pending + [Ticket(verdict, record, amounts.externalSats, chain.tipHeight, |a.ledger|)])
    case _ => a
  }

  /** Whatever the file operations do, a record that has entered the store's memory is on the ledger. */
  function CommitTicket(lib: Library, a: AgentState, t: Ticket, signature: seq<Byte>, io: Io): AgentState {
    match AttachSigned(t.record, signature)
    case Err(_) => a
    case Ok(record) =>
      var (store, result) := CommitStep(lib, a.store, record, io);
      if |store.memory| > |a.store.memory|
      then a.(store := store,
              ledger := a.ledger + [Entry(record, t.tip, Charged(t.verdict, t.externalSats), result.Ok?)])
      else a.(store := store)
  }

  function AgentStep(lib: Library, pin: AgentPin, rule: SampleRule, a: AgentState, e: AgentEvent)
    : PolicyResult<AgentState>
  {
    match e
    case Evaluated(request, authOk, chain) => Ok(EvaluateStep(lib, pin, rule, a, request, authOk, chain))
    case Committed(ticket, signature, io) =>
      if ticket < |a.pending| then Ok(CommitTicket(lib, a, a.pending[ticket], signature, io)) else Ok(a)
    case Crashed(survivor) =>
      var store :- Reopen(lib, a.store, if survivor < |a.store.files| then survivor else 0);
      Ok(AgentState(store, [], a.ledger))
  }

  function AgentRun(lib: Library, pin: AgentPin, rule: SampleRule, a: AgentState, events: seq<AgentEvent>)
    : PolicyResult<AgentState>
    decreases |events|
  {
    if events == [] then Ok(a)
    else
      var next :- AgentStep(lib, pin, rule, a, events[0]);
      AgentRun(lib, pin, rule, next, events[1..])
  }

  function NewAgent(lib: Library): AgentState {
    AgentState(EmptyStore(lib), [], [])
  }

  // ----- The invariant of every run -----

  /** The same coins, paying the same external amount. */
  predicate SameSpend(a: Record, b: Record) {
    Elements(a.outpoints) == Elements(b.outpoints) && ExternalOf(a) == ExternalOf(b)
  }

  ghost predicate InLedger(ledger: seq<Entry>, r: Record) {
    exists k :: 0 <= k < |ledger| && ledger[k].record == r
  }

  ghost predicate SpendInLedger(ledger: seq<Entry>, r: Record) {
    exists k :: 0 <= k < |ledger| && SameSpend(ledger[k].record, r)
  }

  /** Some entry for the same spend was charged in full. */
  ghost predicate PaidFor(ledger: seq<Entry>, r: Record) {
    exists k :: 0 <= k < |ledger| && IsFullyCharged(ledger[k]) && SameSpend(ledger[k].record, r)
  }

  predicate IsFullyCharged(e: Entry) {
    e.charged == ExternalOf(e.record)
  }

  ghost predicate TicketOk(lib: Library, pin: AgentPin, ledger: seq<Entry>, t: Ticket) {
    && PolicyShape(lib, pin, t.record)
    && t.externalSats == ExternalOf(t.record)
    && t.verdict in {Fresh, FeeBump}
    && (t.verdict.FeeBump? ==> SpendInLedger(ledger, t.record))
  }

  ghost predicate MemoryOk(lib: Library, pin: AgentPin, ledger: seq<Entry>, memory: seq<Record>) {
    forall i :: 0 <= i < |memory| ==> PolicyShape(lib, pin, memory[i]) && InLedger(ledger, memory[i])
  }

  ghost predicate PendingOk(lib: Library, pin: AgentPin, ledger: seq<Entry>, pending: seq<Ticket>) {
    forall i :: 0 <= i < |pending| ==> TicketOk(lib, pin, ledger, pending[i])
  }

  /** It is charged in full or nothing, and some entry for its spend is charged in full. */
  ghost predicate EntryOk(ledger: seq<Entry>, i: nat)
    requires i < |ledger|
  {
    && ledger[i].record.outpoints != []
    && (ledger[i].charged == 0 || IsFullyCharged(ledger[i]))
    && PaidFor(ledger, ledger[i].record)
  }

  ghost predicate LedgerOk(ledger: seq<Entry>) {
    forall i {:trigger EntryOk(ledger, i)} :: 0 <= i < |ledger| ==> EntryOk(ledger, i)
  }

  ghost predicate AgentInv(lib: Library, pin: AgentPin, a: AgentState) {
    && Sound(lib, a.store, 0)
    && MemoryOk(lib, pin, a.ledger, a.store.memory)
    && PendingOk(lib, pin, a.ledger, a.pending)
    && LedgerOk(a.ledger)
  }

  lemma {:induction false} EvaluateKeepsInv(lib: Library, pin: AgentPin, rule: SampleRule, a: AgentState,
                                            request: PolicyRequest, authOk: bool, chain: ChainView)
    requires AgentInv(lib, pin, a)
    ensures AgentInv(lib, pin, EvaluateStep(lib, pin, rule, a, request, authOk, chain))
  {
    var samples := Samples(rule, a.ledger);
    match Evaluation(lib, pin, request, authOk, chain, a.store.memory, samples) {
      case Ok(ValidatedUnsigned(verdict, record, am)) =>
        EvaluationMeans(lib, pin, request, authOk, chain, a.store.memory, samples, verdict, record, am);
        AcceptedRecordShape(lib, pin, request, chain, a.store.memory, samples, verdict, record, am);
        if verdict.FeeBump? {
          BumpSpendIsInLedger(lib, pin, a, record);
        }
      case _ =>
    }
  }

  lemma {:induction false} BumpSpendIsInLedger(lib: Library, pin: AgentPin, a: AgentState, record: Record)
    requires AgentInv(lib, pin, a)
    requires PreflightVerdict(a.store.memory, record) == Ok(FeeBump)
    ensures SpendInLedger(a.ledger, record)
  {
    var existing := BumpedRecord(a.store.memory, record);
    assert InLedger(a.ledger, existing);
    var j :| 0 <= j < |a.ledger| && a.ledger[j].record == existing;
  }

  lemma {:induction false} BumpedRecord(records: seq<Record>, candidate: Record) returns (existing: Record)
    requires PreflightVerdict(records, candidate) == Ok(FeeBump)
    ensures existing in records && SameSpend(existing, candidate)
  {
    var k :| 0 <= k < |records| && OutpointsOverlap(records[k].outpoints, candidate.outpoints);
    assert !Blocks(records[k], candidate);
    existing := records[k];
  }

  lemma {:induction false} CommitKeepsInv(lib: Library, pin: AgentPin, a: AgentState, t: Ticket, signature: seq<Byte>,
                                          io: Io)
    requires AgentInv(lib, pin, a) && TicketOk(lib, pin, a.ledger, t)
    ensures AgentInv(lib, pin, CommitTicket(lib, a, t, signature, io))
  {
    if signature != [] {
      var record := AttachSigned(t.record, signature).value;
      var (store, result) := CommitStep(lib, a.store, record, io);
      CommitKeepsSound(lib, a.store, record, io, 0);
      if |store.memory| > |a.store.memory| {
        EntryKeepsInv(lib, pin, a, t, Entry(record, t.tip, Charged(t.verdict, t.externalSats), result.Ok?));
      }
    }
  }

  lemma {:induction false} EntryKeepsInv(lib: Library, pin: AgentPin, a: AgentState, t: Ticket, e: Entry)
    requires AgentInv(lib, pin, a) && TicketOk(lib, pin, a.ledger, t)
    requires e.record == t.record.(payload := e.record.payload)
    requires e.charged == Charged(t.verdict, t.externalSats)
    ensures var ledger := a.ledger + [e];
            && MemoryOk(lib, pin, ledger, a.store.memory + [e.record])
            && PendingOk(lib, pin, ledger, a.pending)
            && LedgerOk(ledger)
  {
    var ledger, memory := a.ledger + [e], a.store.memory + [e.record];
    LedgerGrows(a.ledger, e);
    assert InLedger(ledger, e.record) by {
      assert ledger[|a.ledger|].record == e.record;
    }
    forall i | 0 <= i < |memory|
      ensures PolicyShape(lib, pin, memory[i]) && InLedger(ledger, memory[i])
    {
      if i < |a.store.memory| {
        assert memory[i] == a.store.memory[i];
      }
    }
    assert SameSpend(t.record, e.record);
    NewEntryIsPaidFor(a.ledger, t, e);
    forall i | 0 <= i < |ledger|
      ensures EntryOk(ledger, i)
    {
      if i < |a.ledger| {
        assert EntryOk(a.ledger, i) && ledger[i] == a.ledger[i];
      }
    }
  }

  lemma {:induction false} LedgerGrows(ledger: seq<Entry>, e: Entry)
    ensures forall r :: InLedger(ledger, r) ==> InLedger(ledger + [e], r)
    ensures forall r :: SpendInLedger(ledger, r) ==> SpendInLedger(ledger + [e], r)
    ensures forall r :: PaidFor(ledger, r) ==> PaidFor(ledger + [e], r)
  {
    assert forall k :: 0 <= k < |ledger| ==> (ledger + [e])[k] == ledger[k];
  }

  lemma {:induction false} PaidForSameSpend(ledger: seq<Entry>, r: Record, r': Record)
    requires PaidFor(ledger, r) && SameSpend(r, r')
    ensures PaidFor(ledger, r')
  {
    var k :| 0 <= k < |ledger| && IsFullyCharged(ledger[k]) && SameSpend(ledger[k].record, r);
    assert SameSpend(ledger[k].record, r');
  }

  lemma {:induction false} NewEntryIsPaidFor(ledger: seq<Entry>, t: Ticket, e: Entry)
    requires LedgerOk(ledger)
    requires e.record == t.record.(payload := e.record.payload)
    requires t.externalSats == ExternalOf(t.record) && e.charged == Charged(t.verdict, t.externalSats)
    requires t.verdict.FeeBump? ==> SpendInLedger(ledger, t.record)
    ensures PaidFor(ledger + [e], e.record)
  {
    assert SameSpend(t.record, e.record);
    if t.verdict.FeeBump? {
      var j :| 0 <= j < |ledger| && SameSpend(ledger[j].record, t.record);
      assert EntryOk(ledger, j);
      PaidForSameSpend(ledger, ledger[j].record, e.record);
      LedgerGrows(ledger, e);
    } else {
      assert (ledger + [e])[|ledger|] == e;
      assert IsFullyCharged(e) && SameSpend(e.record, e.record);
    }
  }

  lemma {:induction false} CrashKeepsInv(lib: Library, pin: AgentPin, rule: SampleRule, a: AgentState, survivor: nat)
    requires lib.OutPointTextRoundTrips()
    requires AgentInv(lib, pin, a)
    ensures var r := AgentStep(lib, pin, rule, a, Crashed(survivor));
            r.Ok? && AgentInv(lib, pin, r.value)
  {
    ReopenKeepsSound(lib, a.store, if survivor < |a.store.files| then survivor else 0, 0);
  }

  lemma {:induction false} StepKeepsInv(lib: Library, pin: AgentPin, rule: SampleRule, a: AgentState, e: AgentEvent)
    requires lib.OutPointTextRoundTrips()
    requires AgentInv(lib, pin, a)
    ensures var r := AgentStep(lib, pin, rule, a, e);
            r.Ok? && AgentInv(lib, pin, r.value)
  {
    match e
    case Evaluated(request, authOk, chain) => EvaluateKeepsInv(lib, pin, rule, a, request, authOk, chain);
    case Committed(ticket, signature, io) =>
      if ticket < |a.pending| {
        CommitKeepsInv(lib, pin, a, a.pending[ticket], signature, io);
      }
    case Crashed(survivor) => CrashKeepsInv(lib, pin, rule, a, survivor);
  }

  lemma {:induction false} RunKeepsInv(lib: Library, pin: AgentPin, rule: SampleRule, a: AgentState,
                                       events: seq<AgentEvent>)
    requires lib.OutPointTextRoundTrips()
    requires AgentInv(lib, pin, a)
    ensures var r := AgentRun(lib, pin, rule, a, events);
            r.Ok? && AgentInv(lib, pin, r.value)
    decreases |events|
  {
    if events == [] {
    } else {
      StepKeepsInv(lib, pin, rule, a, events[0]);
      RunKeepsInv(lib, pin, rule, AgentStep(lib, pin, rule, a, events[0]).value, events[1..]);
    }
  }

  lemma {:induction false} NewAgentHasInv(lib: Library, pin: AgentPin)
    ensures AgentInv(lib, pin, NewAgent(lib))
  {
    SavedIsSound(lib, [], 0);
  }

}
