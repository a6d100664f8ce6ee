/** How often the spend of one coin set can be signed. With stable coin values the fees along a consistent list
    of records rise strictly, and they are bounded; so the number of records for one coin set is. */
module AgentFees {
  import opened Basics
  import opened Bitcoin
  import opened Pin
  import opened Structure
  import opened Replay
  import opened Store
  import opened Evaluate
  import opened EvaluateProofs
  import opened EvaluateExact
  import opened Agent
  import opened AgentRetries

  // ----- Fees within a consistent list of records -----

  /** What the coins of a record are worth, less what its outputs pay. */
  function FeeOf(value: OutPoint -> nat, r: Record): int {
    SumBy(value, r.outpoints) - ExternalOf(r) - ChangeOf(r)
  }

  ghost predicate FeeBounded(value: OutPoint -> nat, r: Record) {
    NoDuplicates(r.outpoints) && 1 <= FeeOf(value, r) <= MAX_POLICY_FEE_SATS
  }

  ghost predicate AllFeesBounded(value: OutPoint -> nat, records: seq<Record>) {
    forall i :: 0 <= i < |records| ==> FeeBounded(value, records[i])
  }

  /** Along the records of one coin set, the fee rises by exactly the drop in change. */
  lemma {:induction false} FeeRisesByDropInChange(value: OutPoint -> nat, records: seq<Record>, i: nat, j: nat)
    requires Consistent(records) && i < j < |records|
    requires OutpointsOverlap(records[i].outpoints, records[j].outpoints)
    requires NoDuplicates(records[i].outpoints) && NoDuplicates(records[j].outpoints)
    ensures ChangeOf(records[j]) < ChangeOf(records[i])
    ensures FeeOf(value, records[j]) - FeeOf(value, records[i]) == ChangeOf(records[i]) - ChangeOf(records[j])
  {
    ConflictMeansSameSpend(records, i, j);
    SumOverSameSet(value, records[i].outpoints, records[j].outpoints);
  }

  /** How many of the first n records share a coin with `r`. */
  function ConflictCount(records: seq<Record>, r: Record, n: nat): nat
    requires n <= |records|
  {
    if n == 0 then 0
    else ConflictCount(records, r, n - 1)
         + if OutpointsOverlap(records[n - 1].outpoints, r.outpoints) then 1 else 0
  }

  lemma {:induction false} LaterConflictPaysMore(value: OutPoint -> nat, records: seq<Record>, i: nat, j: nat, k: nat)
    requires Consistent(records) && i < |records| && j < k < |records|
    requires OutpointsOverlap(records[j].outpoints, records[i].outpoints)
    requires OutpointsOverlap(records[k].outpoints, records[i].outpoints)
    requires FeeBounded(value, records[j]) && FeeBounded(value, records[k])
    ensures FeeOf(value, records[j]) < FeeOf(value, records[k])
  {
    OverlapIsSymmetric(records[k].outpoints, records[i].outpoints);
    ConflictIsEquivalence(records, j, i, k);
    FeeRisesByDropInChange(value, records, j, k);
  }

  /** Record `last` shares a coin with record i and pays a fee of at least the number of those before n that do. */
  ghost predicate PaysForCount(value: OutPoint -> nat, records: seq<Record>, i: nat, n: nat, last: nat)
    requires i < |records| && n <= |records|
  {
    && last < n
    && OutpointsOverlap(records[last].outpoints, records[i].outpoints)
    && FeeOf(value, records[last]) >= ConflictCount(records, records[i], n)
  }

  lemma {:induction false} NextPaysForCount(value: OutPoint -> nat, records: seq<Record>, i: nat, n: nat, before: nat)
    requires Consistent(records) && i < |records| && n < |records|
    requires FeeBounded(value, records[n]) && OutpointsOverlap(records[n].outpoints, records[i].outpoints)
    requires ConflictCount(records, records[i], n) > 0 ==>
               PaysForCount(value, records, i, n, before) && FeeBounded(value, records[before])
    ensures PaysForCount(value, records, i, n + 1, n)
  {
    if ConflictCount(records, records[i], n) > 0 {
      LaterConflictPaysMore(value, records, i, before, n);
    }
  }

  lemma {:induction false} OtherKeepsCount(value: OutPoint -> nat, records: seq<Record>, i: nat, n: nat, last: nat)
    requires i < |records| && n < |records|
    requires !OutpointsOverlap(records[n].outpoints, records[i].outpoints)
    ensures ConflictCount(records, records[i], n + 1) == ConflictCount(records, records[i], n)
    ensures PaysForCount(value, records, i, n, last) ==> PaysForCount(value, records, i, n + 1, last)
  {
  }

  /** The last of them pays a fee of at least their number. */
  lemma {:induction false} FeeCountsConflicts(value: OutPoint -> nat, records: seq<Record>, i: nat, n: nat)
    returns (last: nat)
    requires Consistent(records) && i < |records| && n <= |records|
    requires forall k :: 0 <= k < n ==> FeeBounded(value, records[k])
    ensures ConflictCount(records, records[i], n) > 0 ==> PaysForCount(value, records, i, n, last)
  {
    last := 0;
    if n == 0 {
    } else {
      var before := FeeCountsConflicts(value, records, i, n - 1);
      if OutpointsOverlap(records[n - 1].outpoints, records[i].outpoints) {
        last := n - 1;
        NextPaysForCount(value, records, i, n - 1, before);
      } else {
        last := before;
        OtherKeepsCount(value, records, i, n - 1, before);
      }
    }
  }

  lemma {:induction false} ConsistentCountIsBounded(value: OutPoint -> nat, records: seq<Record>, i: nat)
    requires Consistent(records) && i < |records| && AllFeesBounded(value, records)
    ensures ConflictCount(records, records[i], |records|) <= 1_000_000
  {
    var last := FeeCountsConflicts(value, records, i, |records|);
    if ConflictCount(records, records[i], |records|) > 0 {
      assert FeeBounded(value, records[last]);
    }
  }

  // ----- Fees over a run -----

  /** The coins are worth the same in every view, and a request names each coin once. */
  ghost predicate StableEvent(lib: Library, value: OutPoint -> nat, e: AgentEvent) {
    e.Evaluated? ==>
      && (forall f :: f in e.chain.prevouts ==> f.value == value(f.outpoint))
      && (ParsePsbtV0(lib, e.request.psbtBytes).Ok? ==>
            NoDuplicates(OutPointsOf(ParsePsbtV0(lib, e.request.psbtBytes).value.unsignedTx)))
  }

  ghost predicate StableEvents(lib: Library, value: OutPoint -> nat, events: seq<AgentEvent>) {
    forall i :: 0 <= i < |events| ==> StableEvent(lib, value, events[i])
  }

  ghost predicate FeesInv(value: OutPoint -> nat, a: AgentState) {
    && (forall i :: 0 <= i < |a.ledger| ==> FeeBounded(value, a.ledger[i].record))
    && (forall i :: 0 <= i < |a.pending| ==> FeeBounded(value, a.pending[i].record))
  }

  /** The coins of an accepted spend are worth what the stable values say. */
  lemma {:induction false} AcceptedFeeIsBounded(value: OutPoint -> nat, chain: ChainView, record: Record,
                                                am: AmountBreakdown)
    requires forall f :: f in chain.prevouts ==> f.value == value(f.outpoint)
    requires NoDuplicates(record.outpoints)
    requires SumBy(CoinValues(chain), record.outpoints) == am.externalSats + am.changeSats + am.feeSats
    requires 1 <= am.feeSats <= 1_000_000
    requires ExternalOf(record) == am.externalSats && ChangeOf(record) == am.changeSats
    requires forall op :: op in record.outpoints ==> FindFact(chain.prevouts, op).Some?
    ensures FeeBounded(value, record)
  {
    SumPointwise(CoinValues(chain), record.outpoints, value, record.outpoints);
  }

  lemma {:induction false} EvaluateKeepsFees(lib: Library, pin: AgentPin, value: OutPoint -> nat, rule: SampleRule,
                                             a: AgentState, request: PolicyRequest, authOk: bool, chain: ChainView)
    requires pin.Provisioned()
    requires FeesInv(value, a) && StableEvent(lib, value, Evaluated(request, authOk, chain))
    ensures FeesInv(value, EvaluateStep(lib, pin, rule, a, request, authOk, chain))
  {
    var samples := Samples(rule, a.ledger);
    match Evaluation(lib, pin, request, authOk, chain, a.store.memory, samples) {
      case Ok(ValidatedUnsigned(verdict, record, am)) =>
        EvaluationMeans(lib, pin, request, authOk, chain, a.store.memory, samples, verdict, record, am);
        AcceptedSpendBalances(lib, pin, request, chain, a.store.memory, samples, verdict, record, am);
        AcceptedFeeIsBounded(value, chain, record, am);
      case _ =>
    }
  }

  lemma {:induction false} SignatureKeepsFee(value: OutPoint -> nat, r: Record, signed: Record)
    requires FeeBounded(value, r) && signed == r.(payload := signed.payload)
    ensures FeeBounded(value, signed)
  {
  }

  lemma {:induction false} StepKeepsFees(lib: Library, pin: AgentPin, value: OutPoint -> nat, rule: SampleRule,
                                         a: AgentState, e: AgentEvent)
    requires pin.Provisioned()
    requires FeesInv(value, a) && StableEvent(lib, value, e)
    requires AgentStep(lib, pin, rule, a, e).Ok?
    ensures FeesInv(value, AgentStep(lib, pin, rule, a, e).value)
  {
    match e
    case Evaluated(request, authOk, chain) => EvaluateKeepsFees(lib, pin, value, rule, a, request, authOk, chain);
    case Committed(ticket, signature, io) =>
      if ticket < |a.pending| && signature != [] {
        var record := a.pending[ticket].record;
        SignatureKeepsFee(value, record, record.(payload := Signed(signature)));
      }
    case Crashed(survivor) =>
  }

  lemma {:induction false} RunKeepsFees(lib: Library, pin: AgentPin, value: OutPoint -> nat, rule: SampleRule,
                                        a: AgentState, events: seq<AgentEvent>)
    requires pin.Provisioned()
    requires FeesInv(value, a) && StableEvents(lib, value, events)
    requires AgentRun(lib, pin, rule, a, events).Ok?
    ensures FeesInv(value, AgentRun(lib, pin, rule, a, events).value)
    decreases |events|
  {
    if events == [] {
    } else {
      StepKeepsFees(lib, pin, value, rule, a, events[0]);
      assert forall i :: 0 <= i < |events[1..]| ==> events[1..][i] == events[i + 1];
      RunKeepsFees(lib, pin, value, rule, AgentStep(lib, pin, rule, a, events[0]).value, events[1..]);
    }
  }

  // ----- Signatures whose commit reported success -----

  /** The records on the ledger whose commit reported Fresh or FeeBump, in order. */
  function Reported(ledger: seq<Entry>): (r: seq<Record>)
    ensures forall x :: x in r ==> exists k :: 0 <= k < |ledger| && ledger[k].record == x
  {
    if ledger == [] then []
    else
      var before, last := Reported(ledger[..|ledger| - 1]), ledger[|ledger| - 1];
      assert last in ledger;
      if last.reported then before + [last.record] else before
  }

  /** The reported records are consistent, and among the durable records of the store. */
  ghost predicate ReportedKept(lib: Library, a: AgentState, base: nat) {
    && Sound(lib, a.store, base)
    && Consistent(Reported(a.ledger))
    && AllIn(Reported(a.ledger), a.store.memory[..base])
  }

  ghost predicate AllIn(records: seq<Record>, memory: seq<Record>) {
    forall i :: 0 <= i < |records| ==> records[i] in memory
  }

  /** A candidate that some records let in is let in by fewer. */
  lemma {:induction false} FewerRecordsAllow(records: seq<Record>, memory: seq<Record>, r: Record)
    requires AllIn(records, memory)
    requires PreflightVerdict(memory, r) in {Ok(Fresh), Ok(FeeBump)}
    ensures PreflightVerdict(records, r) in {Ok(Fresh), Ok(FeeBump)}
  {
    forall i | 0 <= i < |records|
      ensures records[i].requestId != r.requestId && !Blocks(records[i], r)
    {
      var k :| 0 <= k < |memory| && memory[k] == records[i];
    }
  }

  lemma {:induction false} ReportedAppend(ledger: seq<Entry>, e: Entry)
    ensures Reported(ledger + [e]) == if e.reported then Reported(ledger) + [e.record] else Reported(ledger)
  {
    assert (ledger + [e])[..|ledger|] == ledger;
  }

  lemma {:induction false} KeptRecordsExtend(records: seq<Record>, memory: seq<Record>, base: nat, r: Record)
    requires Consistent(records) && base <= |memory| && AllIn(records, memory[..base])
    requires Constructible(r) && r.payload.Signed?
    requires PreflightVerdict(memory, r) in {Ok(Fresh), Ok(FeeBump)}
    ensures Consistent(records + [r]) && AllIn(records + [r], memory + [r])
  {
    forall i | 0 <= i < |records|
      ensures records[i] in memory
    {
      assert records[i] in memory[..base];
    }
    FewerRecordsAllow(records, memory, r);
    AppendKeepsConsistent(records, r);
  }

  lemma {:induction false} ReportedEntryIsKept(lib: Library, a: AgentState, next: AgentState, e: Entry, base: nat)
    requires ReportedKept(lib, a, base) && Sound(lib, next.store, |next.store.memory|)
    requires next.ledger == a.ledger + [e] && e.reported
    requires next.store.memory == a.store.memory + [e.record]
    requires e.record.payload.Signed? && Constructible(e.record)
    requires PreflightVerdict(a.store.memory, e.record) in {Ok(Fresh), Ok(FeeBump)}
    ensures ReportedKept(lib, next, |next.store.memory|)
  {
    KeptRecordsExtend(Reported(a.ledger), a.store.memory, base, e.record);
    ReportedAppend(a.ledger, e);
    assert next.store.memory[..|next.store.memory|] == next.store.memory;
  }

  lemma {:induction false} ReportedEntry(lib: Library, pin: AgentPin, rule: SampleRule, a: AgentState,
                                         ticket: nat, signature: seq<Byte>, io: Io)
    returns (e: Entry)
    requires ReportsNew(lib, pin, rule, a, Committed(ticket, signature, io)) && ticket < |a.pending|
    ensures e.reported && e.record == a.pending[ticket].record.(payload := Signed(signature))
    ensures AgentStep(lib, pin, rule, a, Committed(ticket, signature, io)).value.ledger == a.ledger + [e]
  {
    var next := AgentStep(lib, pin, rule, a, Committed(ticket, signature, io)).value;
    e := next.ledger[|a.ledger|];
  }

  /** A reported commit adds a record that the earlier ones let in. */
  lemma {:induction false} ReportKeepsReported(lib: Library, pin: AgentPin, rule: SampleRule, a: AgentState,
                                               ticket: nat, signature: seq<Byte>, io: Io, base: nat)
    requires ReportedKept(lib, a, base)
    requires ReportsNew(lib, pin, rule, a, Committed(ticket, signature, io))
    ensures var next := AgentStep(lib, pin, rule, a, Committed(ticket, signature, io)).value;
            ReportedKept(lib, next, |next.store.memory|)
  {
    ReportedIsDurable(lib, pin, rule, a, ticket, signature, io);
    var e := ReportedEntry(lib, pin, rule, a, ticket, signature, io);
    ReportedEntryIsKept(lib, a, AgentStep(lib, pin, rule, a, Committed(ticket, signature, io)).value, e, base);
  }

  lemma {:induction false} OtherStepsReportNothing(lib: Library, pin: AgentPin, rule: SampleRule, a: AgentState,
                                                   e: AgentEvent)
    requires AgentStep(lib, pin, rule, a, e).Ok? && !ReportsNew(lib, pin, rule, a, e)
    ensures Reported(AgentStep(lib, pin, rule, a, e).value.ledger) == Reported(a.ledger)
  {
    var next := AgentStep(lib, pin, rule, a, e).value;
    if |next.ledger| > |a.ledger| {
      ReportedAppend(a.ledger, next.ledger[|a.ledger|]);
    }
  }

  lemma {:induction false} StepKeepsReported(lib: Library, pin: AgentPin, rule: SampleRule, a: AgentState,
                                             e: AgentEvent, base: nat)
    returns (base': nat)
    requires lib.OutPointTextRoundTrips()
    requires ReportedKept(lib, a, base)
    ensures AgentStep(lib, pin, rule, a, e).Ok?
    ensures ReportedKept(lib, AgentStep(lib, pin, rule, a, e).value, base')
  {
    StepKeepsDurable(lib, pin, rule, a, e, base);
    if ReportsNew(lib, pin, rule, a, e) {
      base' := |AgentStep(lib, pin, rule, a, e).value.store.memory|;
      ReportKeepsReported(lib, pin, rule, a, e.ticket, e.signature, e.io, base);
    } else {
      base' := base;
      OtherStepsReportNothing(lib, pin, rule, a, e);
    }
  }

  lemma {:induction false} RunKeepsReported(lib: Library, pin: AgentPin, rule: SampleRule, a: AgentState,
                                            events: seq<AgentEvent>, base: nat)
    requires lib.OutPointTextRoundTrips()
    requires ReportedKept(lib, a, base)
    ensures AgentRun(lib, pin, rule, a, events).Ok?
    ensures Consistent(Reported(AgentRun(lib, pin, rule, a, events).value.ledger))
    decreases |events|
  {
    if events == [] {
    } else {
      var base' := StepKeepsReported(lib, pin, rule, a, events[0], base);
      RunKeepsReported(lib, pin, rule, AgentStep(lib, pin, rule, a, events[0]).value, events[1..], base');
    }
  }

  /** On every run with stable coin values and requests that name each coin once, whatever fails or crashes:
      of the signatures for one coin set, at most a million are ever reported as committed. */
  lemma {:induction false} ReportedBumpsAreBounded(lib: Library, pin: AgentPin, value: OutPoint -> nat,
                                                   rule: SampleRule,
                                                   events: seq<AgentEvent>, i: nat)
    requires lib.OutPointTextRoundTrips() && pin.Provisioned()
    requires StableEvents(lib, value, events)
    ensures AgentRun(lib, pin, rule, NewAgent(lib), events).Ok?
    ensures var reported := Reported(AgentRun(lib, pin, rule, NewAgent(lib), events).value.ledger);
            i < |reported| ==> ConflictCount(reported, reported[i], |reported|) <= 1_000_000
  {
    NewAgentHasInv(lib, pin);
    RunKeepsReported(lib, pin, rule, NewAgent(lib), events, 0);
    RunKeepsFees(lib, pin, value, rule, NewAgent(lib), events);
    var reported := Reported(AgentRun(lib, pin, rule, NewAgent(lib), events).value.ledger);
    if i < |reported| {
      assert forall j :: 0 <= j < |reported| ==> reported[j] in reported;
      ConsistentCountIsBounded(value, reported, i);
    }
  }

  // ----- What the store holds -----

  /** And it holds of what the store holds at any time. */
  lemma {:induction false} StoredBumpsAreBounded(lib: Library, pin: AgentPin, value: OutPoint -> nat, rule: SampleRule,
                                                 events: seq<AgentEvent>, i: nat)
    requires lib.OutPointTextRoundTrips() && pin.Provisioned()
    requires StableEvents(lib, value, events)
    ensures AgentRun(lib, pin, rule, NewAgent(lib), events).Ok?
    ensures var memory := AgentRun(lib, pin, rule, NewAgent(lib), events).value.store.memory;
            i < |memory| ==> ConflictCount(memory, memory[i], |memory|) <= 1_000_000
  {
    NewAgentHasInv(lib, pin);
    RunKeepsInv(lib, pin, rule, NewAgent(lib), events);
    RunKeepsFees(lib, pin, value, rule, NewAgent(lib), events);
    var a := AgentRun(lib, pin, rule, NewAgent(lib), events).value;
    if i < |a.store.memory| {
      forall k | 0 <= k < |a.store.memory|
        ensures FeeBounded(value, a.store.memory[k])
      {
        assert InLedger(a.ledger, a.store.memory[k]);
      }
      ConsistentCountIsBounded(value, a.store.memory, i);
    }
  }

  // ----- All signatures -----

  /** The records of all signatures ever stored, in order. */
  function Recorded(ledger: seq<Entry>): (r: seq<Record>)
    ensures |r| == |ledger|
    ensures forall i :: 0 <= i < |r| ==> r[i] == ledger[i].record
  {
    seq(|ledger|, i requires 0 <= i < |ledger| => ledger[i].record)
  }

  /** What memory held before a step and does not hold after it. */
  function DroppedBy(a: AgentState, next: AgentState): seq<Record> {
    if |next.store.memory| < |a.store.memory| then a.store.memory[|next.store.memory|..] else []
  }

  /** What the crashes of a run made the store forget, in order. */
  function Dropped(lib: Library, pin: AgentPin, rule: SampleRule, a: AgentState, events: seq<AgentEvent>): seq<Record>
    decreases |events|
  {
    if events == [] then []
    else
      match AgentStep(lib, pin, rule, a, events[0])
      case Err(_) => []
      case Ok(next) => DroppedBy(a, next) + Dropped(lib, pin, rule, next, events[1..])
  }

  /** Every signature is in memory or was dropped. */
  ghost predicate Accounted(a: AgentState, dropped: seq<Record>) {
    multiset(Recorded(a.ledger)) == multiset(a.store.memory) + multiset(dropped)
  }

  lemma {:induction false} CommitAccounts(lib: Library, a: AgentState, t: Ticket, signature: seq<Byte>, io: Io,
                                          dropped: seq<Record>)
    requires Accounted(a, dropped)
    ensures var next := CommitTicket(lib, a, t, signature, io);
            Accounted(next, dropped) && DroppedBy(a, next) == []
  {
    var next := CommitTicket(lib, a, t, signature, io);
    if |next.store.memory| > |a.store.memory| {
      GrowingAccounts(a, next, next.ledger[|a.ledger|], dropped);
    }
  }

  lemma {:induction false} GrowingAccounts(a: AgentState, next: AgentState, e: Entry, dropped: seq<Record>)
    requires Accounted(a, dropped)
    requires next.ledger == a.ledger + [e] && next.store.memory == a.store.memory + [e.record]
    ensures Accounted(next, dropped)
  {
    assert Recorded(next.ledger) == Recorded(a.ledger) + [e.record];
  }

  lemma {:induction false} CrashAccounts(lib: Library, pin: AgentPin, rule: SampleRule, a: AgentState, survivor: nat,
                                         dropped: seq<Record>)
    requires lib.OutPointTextRoundTrips()
    requires Sound(lib, a.store, 0) && Accounted(a, dropped)
    ensures var r := AgentStep(lib, pin, rule, a, Crashed(survivor));
            r.Ok? && Accounted(r.value, dropped + DroppedBy(a, r.value))
  {
    ReopenKeepsSound(lib, a.store, if survivor < |a.store.files| then survivor else 0, 0);
    ForgettingAccounts(a, AgentStep(lib, pin, rule, a, Crashed(survivor)).value, dropped);
  }

  lemma {:induction false} ForgettingAccounts(a: AgentState, next: AgentState, dropped: seq<Record>)
    requires Accounted(a, dropped)
    requires next.ledger == a.ledger && next.store.memory <= a.store.memory
    ensures Accounted(next, dropped + DroppedBy(a, next))
  {
    var kept := next.store.memory;
    assert a.store.memory == kept + a.store.memory[|kept|..];
    assert DroppedBy(a, next) == a.store.memory[|kept|..];
  }

  lemma {:induction false} StepAccounts(lib: Library, pin: AgentPin, rule: SampleRule, a: AgentState, e: AgentEvent,
                                        dropped: seq<Record>)
    requires lib.OutPointTextRoundTrips()
    requires Sound(lib, a.store, 0) && Accounted(a, dropped)
    ensures var r := AgentStep(lib, pin, rule, a, e);
            r.Ok? && Sound(lib, r.value.store, 0) && Accounted(r.value, dropped + DroppedBy(a, r.value))
  {
    StepKeepsDurable(lib, pin, rule, a, e, 0);
    assert dropped + [] == dropped;
    match e
    case Evaluated(_, _, _) =>
    case Committed(ticket, signature, io) =>
      if ticket < |a.pending| {
        CommitAccounts(lib, a, a.pending[ticket], signature, io, dropped);
      }
    case Crashed(survivor) => CrashAccounts(lib, pin, rule, a, survivor, dropped);
  }

  lemma {:induction false} RunAccounts(lib: Library, pin: AgentPin, rule: SampleRule, a: AgentState,
                                       events: seq<AgentEvent>, dropped: seq<Record>)
    requires lib.OutPointTextRoundTrips()
    requires Sound(lib, a.store, 0) && Accounted(a, dropped)
    ensures var r := AgentRun(lib, pin, rule, a, events);
            r.Ok? && Accounted(r.value, dropped + Dropped(lib, pin, rule, a, events))
    decreases |events|
  {
    if events == [] {
      assert dropped + [] == dropped;
    } else {
      StepAccounts(lib, pin, rule, a, events[0], dropped);
      var next := AgentStep(lib, pin, rule, a, events[0]).value;
      RunAccounts(lib, pin, rule, next, events[1..], dropped + DroppedBy(a, next));
      DroppedInParts(dropped, DroppedBy(a, next), Dropped(lib, pin, rule, next, events[1..]));
    }
  }

  lemma {:induction false} DroppedInParts(before: seq<Record>, now: seq<Record>, later: seq<Record>)
    ensures (before + now) + later == before + (now + later)
  {
  }

  /** On every run the signatures ever stored are those in memory and those that crashes dropped, each as often
      as it was stored. */
  lemma {:induction false} SignaturesAreConserved(lib: Library, pin: AgentPin, rule: SampleRule,
                                                  events: seq<AgentEvent>)
    requires lib.OutPointTextRoundTrips()
    ensures var r := AgentRun(lib, pin, rule, NewAgent(lib), events);
            r.Ok? && Accounted(r.value, Dropped(lib, pin, rule, NewAgent(lib), events))
  {
    SavedIsSound(lib, [], 0);
    RunAccounts(lib, pin, rule, NewAgent(lib), events, []);
    var dropped := Dropped(lib, pin, rule, NewAgent(lib), events);
    assert [] + dropped == dropped;
  }

  // ----- Their number for one coin set -----

  function OfCoins(coins: set<OutPoint>): Record -> nat {
    (r: Record) => if Elements(r.outpoints) == coins then 1 else 0
  }

  /** How many of the records spend exactly these coins. */
  function CoinSetCount(records: seq<Record>, coins: set<OutPoint>): nat {
    SumBy(OfCoins(coins), records)
  }

  /** They all share a coin with any one of them. */
  lemma {:induction false} CoinSetConflicts(records: seq<Record>, r: Record, n: nat)
    requires n <= |records| && r.outpoints != []
    ensures CoinSetCount(records[..n], Elements(r.outpoints)) <= ConflictCount(records, r, n)
  {
    if n == 0 {
    } else {
      CoinSetConflicts(records, r, n - 1);
      assert records[..n][..n - 1] == records[..n - 1];
      if Elements(records[n - 1].outpoints) == Elements(r.outpoints) {
        assert r.outpoints[0] in Elements(records[n - 1].outpoints) * Elements(r.outpoints);
      }
    }
  }

  /** One of them, if there are any. */
  lemma {:induction false} CoinSetMember(records: seq<Record>, coins: set<OutPoint>) returns (i: nat)
    requires CoinSetCount(records, coins) > 0
    ensures i < |records| && Elements(records[i].outpoints) == coins
  {
    var n := |records| - 1;
    if Elements(records[n].outpoints) == coins {
      i := n;
    } else {
      i := CoinSetMember(records[..n], coins);
    }
  }

  lemma {:induction false} StoredCoinSetIsBounded(lib: Library, pin: AgentPin, value: OutPoint -> nat, rule: SampleRule,
                                                  events: seq<AgentEvent>, coins: set<OutPoint>)
    requires lib.OutPointTextRoundTrips() && pin.Provisioned()
    requires StableEvents(lib, value, events)
    ensures AgentRun(lib, pin, rule, NewAgent(lib), events).Ok?
    ensures CoinSetCount(AgentRun(lib, pin, rule, NewAgent(lib), events).value.store.memory, coins) <= 1_000_000
  {
    NewAgentHasInv(lib, pin);
    RunKeepsInv(lib, pin, rule, NewAgent(lib), events);
    var a := AgentRun(lib, pin, rule, NewAgent(lib), events).value;
    var memory := a.store.memory;
    if CoinSetCount(memory, coins) > 0 {
      var i := CoinSetMember(memory, coins);
      StoredBumpsAreBounded(lib, pin, value, rule, events, i);
      assert PolicyShape(lib, pin, memory[i]);
      CoinSetConflicts(memory, memory[i], |memory|);
      assert memory[..|memory|] == memory;
    }
  }

  /** On every run with stable coin values and requests that name each coin once: the signatures ever stored for
      one coin set are at most a million, those in memory, and those of them that crashes made the store forget. */
  lemma {:induction false} AllBumpsAreBounded(lib: Library, pin: AgentPin, value: OutPoint -> nat, rule: SampleRule,
                                              events: seq<AgentEvent>, coins: set<OutPoint>)
    requires lib.OutPointTextRoundTrips() && pin.Provisioned()
    requires StableEvents(lib, value, events)
    ensures AgentRun(lib, pin, rule, NewAgent(lib), events).Ok?
    ensures var a := AgentRun(lib, pin, rule, NewAgent(lib), events).value;
            && CoinSetCount(a.store.memory, coins) <= 1_000_000
            && CoinSetCount(Recorded(a.ledger), coins)
               == CoinSetCount(a.store.memory, coins)
                  + CoinSetCount(Dropped(lib, pin, rule, NewAgent(lib), events), coins)
  {
    SignaturesAreConserved(lib, pin, rule, events);
    StoredCoinSetIsBounded(lib, pin, value, rule, events, coins);
    var a := AgentRun(lib, pin, rule, NewAgent(lib), events).value;
    var dropped := Dropped(lib, pin, rule, NewAgent(lib), events);
    assert multiset(a.store.memory + dropped) == multiset(Recorded(a.ledger));
    SumOfPermutation(OfCoins(coins), Recorded(a.ledger), a.store.memory + dropped);
    SumConcat(OfCoins(coins), a.store.memory, dropped);
  }

  function SharesCoin(r: Record): Record -> nat {
    (x: Record) => if OutpointsOverlap(x.outpoints, r.outpoints) then 1 else 0
  }

  lemma {:induction false} ConflictCountIsSum(records: seq<Record>, r: Record, n: nat)
    requires n <= |records|
    ensures ConflictCount(records, r, n) == SumBy(SharesCoin(r), records[..n])
  {
    if n == 0 {
    } else {
      ConflictCountIsSum(records, r, n - 1);
      assert records[..n][..n - 1] == records[..n - 1];
    }
  }

  /** So when no crash drops a record, at most a million of all signatures share a coin with any one of them. */
  lemma {:induction false} BumpsAreBounded(lib: Library, pin: AgentPin, value: OutPoint -> nat, rule: SampleRule,
                                           events: seq<AgentEvent>, i: nat)
    requires lib.OutPointTextRoundTrips() && pin.Provisioned()
    requires StableEvents(lib, value, events)
    requires Dropped(lib, pin, rule, NewAgent(lib), events) == []
    ensures AgentRun(lib, pin, rule, NewAgent(lib), events).Ok?
    ensures var all := Recorded(AgentRun(lib, pin, rule, NewAgent(lib), events).value.ledger);
            i < |all| ==> ConflictCount(all, all[i], |all|) <= 1_000_000
  {
    SignaturesAreConserved(lib, pin, rule, events);
    var a := AgentRun(lib, pin, rule, NewAgent(lib), events).value;
    var all, memory := Recorded(a.ledger), a.store.memory;
    if i < |all| {
      assert multiset(all) == multiset(memory);
      assert all[i] in multiset(all);
      var j :| 0 <= j < |memory| && memory[j] == all[i];
      StoredBumpsAreBounded(lib, pin, value, rule, events, j);
      ConflictCountIsSum(all, all[i], |all|);
      ConflictCountIsSum(memory, all[i], |memory|);
      assert all[..|all|] == all && memory[..|memory|] == memory;
      SumOfPermutation(SharesCoin(all[i]), all, memory);
    }
  }
}
