/** The sliding-window cap over whole runs: exactly when it is kept, and an order of requests that keeps it. */
module AgentVelocity {
  import opened Basics
  import opened Bitcoin
  import opened Pin
  import opened Velocity
  import opened Replay
  import opened Store
  import opened Evaluate
  import opened EvaluateProofs
  import opened Agent
  import opened AgentExposure

  lemma {:induction false} SamplesAppend(rule: SampleRule, ledger: seq<Entry>, e: Entry)
    ensures Samples(rule, ledger + [e])
         == if Sampled(rule, e) then Samples(rule, ledger) + [VelocitySample(e.tip, e.charged)]
            else Samples(rule, ledger)
  {
    assert (ledger + [e])[..|ledger|] == ledger;
  }

  /** A commit leaves the tickets, and the ledger unless it stores a signature. */
  lemma {:induction false} CommitRecordsAtMostOne(lib: Library, a: AgentState, t: Ticket, signature: seq<Byte>, io: Io)
    ensures var next := CommitTicket(lib, a, t, signature, io);
            && next.pending == a.pending
            && (|next.ledger| <= |a.ledger| ==> next.ledger == a.ledger)
            && (|next.ledger| > |a.ledger| ==>
                  var e := next.ledger[|a.ledger|];
                  next.ledger == a.ledger + [e] && e.tip == t.tip && e.charged == Charged(t.verdict, t.externalSats))
  {
  }

  /** A step leaves the ledger, or adds one entry to it. */
  lemma {:induction false} StepRecordsAtMostOne(lib: Library, pin: AgentPin, rule: SampleRule, a: AgentState,
                                                e: AgentEvent)
    requires AgentStep(lib, pin, rule, a, e).Ok?
    ensures var next := AgentStep(lib, pin, rule, a, e).value;
            if |next.ledger| <= |a.ledger| then next.ledger == a.ledger
            else next.ledger == a.ledger + [next.ledger[|a.ledger|]]
  {
    if e.Committed? && e.ticket < |a.pending| {
      CommitRecordsAtMostOne(lib, a, a.pending[e.ticket], e.signature, e.io);
    }
  }

  // ----- The exact condition -----

  /** If the step adds an entry that counts, its charge fits beside the charges that already count. The rule by
      which entries are counted need not be the caller's own: counting all of them, `WhenStored`, gives the
      charges themselves. */
  ghost predicate StepFits(pin: AgentPin, counted: SampleRule, a: AgentState, next: AgentState) {
    |next.ledger| > |a.ledger| && Sampled(counted, next.ledger[|a.ledger|]) ==>
      var e := next.ledger[|a.ledger|];
      FitsWindows(Samples(counted, a.ledger), e.tip, e.charged, pin.velocityPer144Sats)
  }

  ghost predicate CommitsFit(lib: Library, pin: AgentPin, rule: SampleRule, counted: SampleRule,
                             a: AgentState, events: seq<AgentEvent>)
    decreases |events|
  {
    events == [] ||
    (var r := AgentStep(lib, pin, rule, a, events[0]);
     r.Ok? ==> StepFits(pin, counted, a, r.value) && CommitsFit(lib, pin, rule, counted, r.value, events[1..]))
  }

  lemma {:induction false} StepKeepsCapExactly(lib: Library, pin: AgentPin, rule: SampleRule, counted: SampleRule,
                                               a: AgentState, e: AgentEvent)
    requires AgentStep(lib, pin, rule, a, e).Ok?
    ensures var next := AgentStep(lib, pin, rule, a, e).value;
            WithinCap(Samples(counted, next.ledger), pin.velocityPer144Sats) <==>
            && WithinCap(Samples(counted, a.ledger), pin.velocityPer144Sats)
            && StepFits(pin, counted, a, next)
  {
    var next := AgentStep(lib, pin, rule, a, e).value;
    StepRecordsAtMostOne(lib, pin, rule, a, e);
    if |next.ledger| > |a.ledger| {
      var entry := next.ledger[|a.ledger|];
      SamplesAppend(counted, a.ledger, entry);
      RecordingKeepsCapExactly(Samples(counted, a.ledger), entry.tip, entry.charged, pin.velocityPer144Sats);
    }
  }

  lemma {:induction false} RunKeepsCapExactly(lib: Library, pin: AgentPin, rule: SampleRule, counted: SampleRule,
                                              a: AgentState, events: seq<AgentEvent>)
    requires AgentRun(lib, pin, rule, a, events).Ok?
    ensures WithinCap(Samples(counted, AgentRun(lib, pin, rule, a, events).value.ledger), pin.velocityPer144Sats) <==>
            && WithinCap(Samples(counted, a.ledger), pin.velocityPer144Sats)
            && CommitsFit(lib, pin, rule, counted, a, events)
    decreases |events|
  {
    if events == [] {
    } else {
      StepKeepsCapExactly(lib, pin, rule, counted, a, events[0]);
      RunKeepsCapExactly(lib, pin, rule, counted, AgentStep(lib, pin, rule, a, events[0]).value, events[1..]);
    }
  }

  /** On every run, whatever the interleaving, the tips, the failures and the crashes: all windows of counted
      charges are within the cap, at every height, exactly when each charge fitted at its commit. */
  lemma {:induction false} CapIsKeptExactly(lib: Library, pin: AgentPin, rule: SampleRule, counted: SampleRule,
                                            events: seq<AgentEvent>)
    requires lib.OutPointTextRoundTrips()
    ensures var r := AgentRun(lib, pin, rule, NewAgent(lib), events);
            && r.Ok?
            && (WithinCap(Samples(counted, r.value.ledger), pin.velocityPer144Sats) <==>
                CommitsFit(lib, pin, rule, counted, NewAgent(lib), events))
  {
    NewAgentHasInv(lib, pin);
    RunKeepsInv(lib, pin, rule, NewAgent(lib), events);
    assert Samples(counted, []) == [];
    assert forall h: nat :: WindowSum([], h) == 0;
    RunKeepsCapExactly(lib, pin, rule, counted, NewAgent(lib), events);
  }

  // ----- Requests in order -----

  function TipAfter(e: AgentEvent, tip: U32): U32 {
    if e.Evaluated? then e.chain.tipHeight else tip
  }

  /** Evaluations see tips no lower than those before, and a commit that stores a signature finds the ledger
      as long as it was when its ticket was evaluated. */
  predicate StepInOrder(a: AgentState, e: AgentEvent, next: AgentState, tip: U32) {
    match e
    case Evaluated(_, _, chain) => tip <= chain.tipHeight
    case Committed(ticket, _, _) =>
      ticket < |a.pending| && |next.ledger| > |a.ledger| ==> a.pending[ticket].seen == |a.ledger|
    case Crashed(_) => true
  }

  predicate InOrder(lib: Library, pin: AgentPin, rule: SampleRule, a: AgentState, events: seq<AgentEvent>, tip: U32)
    decreases |events|
  {
    events == [] ||
    (var r := AgentStep(lib, pin, rule, a, events[0]);
     r.Ok? ==>
       && StepInOrder(a, events[0], r.value, tip)
       && InOrder(lib, pin, rule, r.value, events[1..], TipAfter(events[0], tip)))
  }

  /** What a ticket has passed: the window check over the samples of the ledger it saw, at a tip no lower
      than theirs. */
  ghost predicate TicketFits(pin: AgentPin, rule: SampleRule, ledger: seq<Entry>, t: Ticket) {
    && t.seen <= |ledger|
    && var samples := Samples(rule, ledger[..t.seen]);
    && TipsUpTo(samples, t.tip)
    && WindowVerdict(samples, t.tip, Charged(t.verdict, t.externalSats),
                     pin.velocityPerSigSats, pin.velocityPer144Sats).Ok?
  }

  ghost predicate TicketsFit(pin: AgentPin, rule: SampleRule, a: AgentState, tip: U32) {
    && TipsUpTo(Samples(rule, a.ledger), tip)
    && forall i :: 0 <= i < |a.pending| ==> a.pending[i].tip <= tip && TicketFits(pin, rule, a.ledger, a.pending[i])
  }

  lemma {:induction false} AcceptedFitsWindow(lib: Library, pin: AgentPin, request: PolicyRequest, authOk: bool,
                                              chain: ChainView, records: seq<Record>, samples: seq<VelocitySample>,
                                              verdict: Verdict, record: Record, am: AmountBreakdown)
    requires Evaluation(lib, pin, request, authOk, chain, records, samples)
          == Ok(ValidatedUnsigned(verdict, record, am))
    ensures WindowVerdict(samples, chain.tipHeight, Charged(verdict, am.externalSats),
                          pin.velocityPerSigSats, pin.velocityPer144Sats).Ok?
  {
    EvaluationMeans(lib, pin, request, authOk, chain, records, samples, verdict, record, am);
    AcceptedRecordShape(lib, pin, request, chain, records, samples, verdict, record, am);
  }

  lemma {:induction false} NewTicketFits(pin: AgentPin, rule: SampleRule, a: AgentState, t: Ticket, tip: U32, tip': U32)
    requires TicketsFit(pin, rule, a, tip) && tip <= tip' && t.tip == tip' && t.seen == |a.ledger|
    requires WindowVerdict(Samples(rule, a.ledger), tip', Charged(t.verdict, t.externalSats),
                           pin.velocityPerSigSats, pin.velocityPer144Sats).Ok?
    ensures TicketsFit(pin, rule, a.(pending := a.pending + [t]), tip')
  {
    assert a.ledger[..|a.ledger|] == a.ledger;
    assert TicketFits(pin, rule, a.ledger, t);
  }

  lemma {:induction false} EvaluateKeepsTickets(lib: Library, pin: AgentPin, rule: SampleRule, a: AgentState,
                                                request: PolicyRequest, authOk: bool, chain: ChainView, tip: U32)
    requires TicketsFit(pin, rule, a, tip) && tip <= chain.tipHeight
    ensures TicketsFit(pin, rule, EvaluateStep(lib, pin, rule, a, request, authOk, chain), chain.tipHeight)
  {
    var samples := Samples(rule, a.ledger);
    match Evaluation(lib, pin, request, authOk, chain, a.store.memory, samples) {
      case Ok(ValidatedUnsigned(verdict, record, am)) =>
        AcceptedFitsWindow(lib, pin, request, authOk, chain, a.store.memory, samples, verdict, record, am);
        NewTicketFits(pin, rule, a, Ticket(verdict, record, am.externalSats, chain.tipHeight, |a.ledger|), tip,
                      chain.tipHeight);
      case _ =>
    }
  }

  /** A ticket that saw the whole ledger fits, and recording it leaves the others theirs. */
  lemma {:induction false} EntryKeepsTickets(pin: AgentPin, rule: SampleRule, a: AgentState, t: Ticket, e: Entry,
                                             tip: U32)
    requires TicketsFit(pin, rule, a, tip) && t in a.pending && t.seen == |a.ledger|
    requires e.tip == t.tip && e.charged == Charged(t.verdict, t.externalSats)
    ensures FitsWindows(Samples(rule, a.ledger), e.tip, e.charged, pin.velocityPer144Sats)
    ensures TicketsFit(pin, rule, a.(ledger := a.ledger + [e]), tip)
  {
    var ledger := a.ledger + [e];
    assert TicketFits(pin, rule, a.ledger, t) && a.ledger[..t.seen] == a.ledger;
    LastWindowDecides(Samples(rule, a.ledger), t.tip, e.charged, pin.velocityPer144Sats);
    SamplesAppend(rule, a.ledger, e);
    forall i | 0 <= i < |a.pending|
      ensures TicketFits(pin, rule, ledger, a.pending[i])
    {
      assert TicketFits(pin, rule, a.ledger, a.pending[i]);
      assert ledger[..a.pending[i].seen] == a.ledger[..a.pending[i].seen];
    }
  }

  lemma {:induction false} CommitInOrderFits(pin: AgentPin, rule: SampleRule, a: AgentState, next: AgentState,
                                             t: Ticket, tip: U32)
    requires TicketsFit(pin, rule, a, tip) && t in a.pending && next.pending == a.pending
    requires |next.ledger| <= |a.ledger| ==> next.ledger == a.ledger
    requires |next.ledger| > |a.ledger| ==>
               var e := next.ledger[|a.ledger|];
               && t.seen == |a.ledger| && next.ledger == a.ledger + [e]
               && e.tip == t.tip && e.charged == Charged(t.verdict, t.externalSats)
    ensures StepFits(pin, rule, a, next) && TicketsFit(pin, rule, next, tip)
  {
    if |next.ledger| > |a.ledger| {
      EntryKeepsTickets(pin, rule, a, t, next.ledger[|a.ledger|], tip);
    }
  }

  lemma {:induction false} StepInOrderFits(lib: Library, pin: AgentPin, rule: SampleRule, a: AgentState, e: AgentEvent,
                                           tip: U32)
    requires TicketsFit(pin, rule, a, tip)
    requires AgentStep(lib, pin, rule, a, e).Ok? && StepInOrder(a, e, AgentStep(lib, pin, rule, a, e).value, tip)
    ensures StepFits(pin, rule, a, AgentStep(lib, pin, rule, a, e).value)
    ensures TicketsFit(pin, rule, AgentStep(lib, pin, rule, a, e).value, TipAfter(e, tip))
  {
    match e
    case Evaluated(request, authOk, chain) => EvaluateKeepsTickets(lib, pin, rule, a, request, authOk, chain, tip);
    case Committed(ticket, signature, io) =>
      if ticket < |a.pending| {
        CommitRecordsAtMostOne(lib, a, a.pending[ticket], signature, io);
        CommitInOrderFits(pin, rule, a, CommitTicket(lib, a, a.pending[ticket], signature, io), a.pending[ticket], tip);
      }
    case Crashed(_) =>
  }

  lemma {:induction false} RunInOrderFits(lib: Library, pin: AgentPin, rule: SampleRule, a: AgentState,
                                          events: seq<AgentEvent>, tip: U32)
    requires TicketsFit(pin, rule, a, tip) && InOrder(lib, pin, rule, a, events, tip)
    requires AgentRun(lib, pin, rule, a, events).Ok?
    ensures CommitsFit(lib, pin, rule, rule, a, events)
    decreases |events|
  {
    if events == [] {
    } else {
      StepInOrderFits(lib, pin, rule, a, events[0], tip);
      RunInOrderFits(lib, pin, rule, AgentStep(lib, pin, rule, a, events[0]).value, events[1..],
                     TipAfter(events[0], tip));
    }
  }

  /** In order the evaluation's own check is enough: the recorded samples keep every window within the cap. */
  lemma {:induction false} EverySampledWindowIsWithinCap(lib: Library, pin: AgentPin, rule: SampleRule,
                                                         events: seq<AgentEvent>, tip: U32)
    requires lib.OutPointTextRoundTrips()
    requires InOrder(lib, pin, rule, NewAgent(lib), events, tip)
    ensures var r := AgentRun(lib, pin, rule, NewAgent(lib), events);
            r.Ok? && WithinCap(Samples(rule, r.value.ledger), pin.velocityPer144Sats)
  {
    CapIsKeptExactly(lib, pin, rule, rule, events);
    RunInOrderFits(lib, pin, rule, NewAgent(lib), events, tip);
  }

  lemma {:induction false} AllSampledMeansAllCount(rule: SampleRule, ledger: seq<Entry>)
    requires AllSampled(rule, ledger)
    ensures Samples(rule, ledger) == Samples(WhenStored, ledger)
  {
    if ledger == [] {
    } else {
      var n := |ledger| - 1;
      assert AllSampled(rule, ledger[..n]);
      AllSampledMeansAllCount(rule, ledger[..n]);
      assert Sampled(rule, ledger[n]);
    }
  }

  /** And where no stored signature is left unsampled, so do the charges of all of them. */
  lemma {:induction false} EveryWindowIsWithinCap(lib: Library, pin: AgentPin, rule: SampleRule,
                                                  events: seq<AgentEvent>, tip: U32, height: nat)
    requires lib.OutPointTextRoundTrips()
    requires InOrder(lib, pin, rule, NewAgent(lib), events, tip)
    ensures var r := AgentRun(lib, pin, rule, NewAgent(lib), events);
            r.Ok? && (AllSampled(rule, r.value.ledger) ==>
                        WindowSum(Samples(WhenStored, r.value.ledger), height) <= pin.velocityPer144Sats)
  {
    EverySampledWindowIsWithinCap(lib, pin, rule, events, tip);
    var ledger := AgentRun(lib, pin, rule, NewAgent(lib), events).value.ledger;
    if AllSampled(rule, ledger) {
      AllSampledMeansAllCount(rule, ledger);
    }
  }

  /** A careful caller who keeps the order is within the cap. */
  lemma {:induction false} CarefulCallerIsWithinCap(lib: Library, pin: AgentPin, rule: SampleRule,
                                                    events: seq<AgentEvent>, tip: U32, height: nat)
    requires lib.OutPointTextRoundTrips()
    requires InOrder(lib, pin, rule, NewAgent(lib), events, tip)
    requires forall i :: 0 <= i < |events| ==> SamplesEvery(rule, events[i])
    ensures var r := AgentRun(lib, pin, rule, NewAgent(lib), events);
            r.Ok? && WindowSum(Samples(WhenStored, r.value.ledger), height) <= pin.velocityPer144Sats
  {
    EveryWindowIsWithinCap(lib, pin, rule, events, tip, height);
    RunKeepsAllSampled(lib, pin, rule, NewAgent(lib), events);
  }
}
