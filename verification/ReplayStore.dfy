/** The durable store: records in memory, a directory on disk, and what survives a failure between them. */
module Store {
  import opened Basics
  import opened Bitcoin
  import opened Replay
  import opened Persistence

  /** `files` are the contents that the directory entry of the records file may turn out to have after
      a crash: first the one last made durable, last the one that a reader sees now. */
  datatype StoreState = StoreState(memory: seq<Record>, files: seq<StoredFile>)

  /** Which of the file operations of one persist succeed. The temporary file is written and synced,
      renamed over the records file, and then the directory is synced. */
  datatype Io = Io(write: bool, rename: bool, syncDirectory: bool)

  function Push(lib: Library, s: StoreState, record: Record, verdict: Verdict, io: Io)
    : (StoreState, PolicyResult<Verdict>)
  {
    if record.payload.Unsigned? then (s, Err(Internal))
    else
      var memory := s.memory + [record];
      var file := ToFile(lib, memory);
      if !io.write || !io.rename then (StoreState(memory, s.files), Err(Internal))
      else if !io.syncDirectory then (StoreState(memory, s.files + [file]), Err(Internal))
      else (StoreState(memory, [file]), Ok(verdict))
  }

  function CommitStep(lib: Library, s: StoreState, record: Record, io: Io)
    : (StoreState, PolicyResult<Verdict>)
  {
    match PreflightVerdict(s.memory, record)
    case Err(e) => (s, Err(e))
    case Ok(Idempotent(bytes)) => (s, Ok(Idempotent(bytes)))
    case Ok(verdict) => Push(lib, s, record, verdict, io)
  }

  /** Restart after a crash: one of the possible contents is found, and is what the store opens with. */
  function Reopen(lib: Library, s: StoreState, survivor: nat): PolicyResult<StoreState> {
    if survivor >= |s.files| then Err(Internal)
    else
      var records :- FromFile(lib, s.files[survivor]);
      Ok(StoreState(records, [s.files[survivor]]))
  }

  /** What initialisation makes. */
  function EmptyStore(lib: Library): StoreState {
    StoreState([], [ToFile(lib, [])])
  }

  /** It opens exactly when the contents found are readable, with the records they say. */
  lemma {:induction false} ReopenIsExact(lib: Library, s: StoreState, survivor: nat)
    ensures Reopen(lib, s, survivor).Ok? <==> survivor < |s.files| && IsReadable(lib, s.files[survivor])
    ensures Reopen(lib, s, survivor).Ok? ==>
              && Reopen(lib, s, survivor).value.files == [s.files[survivor]]
              && ReadsFile(lib, s.files[survivor], Reopen(lib, s, survivor).value.memory)
    ensures Reopen(lib, s, survivor).Err? ==> Reopen(lib, s, survivor) == Err(Internal)
  {
    if survivor < |s.files| {
      var file := s.files[survivor];
      FileIsExact(lib, file, if FromFile(lib, file).Ok? then FromFile(lib, file).value else []);
    }
  }

  // ----- The store as an object -----

  const STORE_VERSION_TAG: string := "TESAURUS_REPLAY_V1"

  /** The version file: none, one that cannot be read, or its trimmed text. */
  datatype VersionFile = Missing | Unreadable | Text(text: string)

  /** Writing it: all of it, or an error that leaves whatever it leaves. */
  datatype VersionWrite = Written | Failed(left: VersionFile)

  datatype InitIo = InitIo(version: VersionWrite, records: Io)

  function VersionAfter(write: VersionWrite): VersionFile {
    match write
    case Written => Text(STORE_VERSION_TAG)
    case Failed(left) => left
  }

  /** A records file that cannot be read counts as missing. */
  class Directory {
    var version: VersionFile
    var files: seq<StoredFile>

    constructor ()
      ensures version == Missing && files == []
    {
      version, files := Missing, [];
    }

    /** Write the temporary file, then rename it over the records file. */
    method PersistRecords(lib: Library, records: seq<Record>, io: Io) returns (r: PolicyResult<()>)
      modifies this`files
      ensures r.Ok? <==> io.write && io.rename
      ensures files == if r.Ok? then old(files) + [ToFile(lib, records)] else old(files)
    {
      if !io.write || !io.rename {
        return Err(Internal);
      }
      files := files + [ToFile(lib, records)];
      return Ok(());
    }

    method Sync(io: Io) returns (r: PolicyResult<()>)
      requires files != []
      modifies this`files
      ensures r.Ok? <==> io.syncDirectory
      ensures files == if r.Ok? then [old(files)[|old(files)| - 1]] else old(files)
    {
      if !io.syncDirectory {
        return Err(Internal);
      }
      files := [files[|files| - 1]];
      return Ok(());
    }
  }

  class ReplayStore {
    const dir: Directory
    var records: seq<Record>

    function View(): StoreState
      reads this, dir
    {
      StoreState(records, dir.files)
    }

    constructor (dir: Directory, records: seq<Record>)
      ensures this.dir == dir && this.records == records
    {
      this.dir, this.records := dir, records;
    }

    /** Refuses a directory that already holds a store. An initialisation that fails half way leaves what it
        wrote, and the directory is refused from then on unless no version was left. A version file is there even
        if it cannot be read. */
    static method Init(lib: Library, dir: Directory, io: InitIo) returns (r: PolicyResult<ReplayStore>)
      modifies dir
      ensures r.Ok? <==> old(dir.version).Missing? && io.version.Written? && io.records == Io(true, true, true)
      ensures r.Ok? ==> fresh(r.value) && r.value.dir == dir && r.value.View() == EmptyStore(lib)
      ensures r.Err? ==> r == Err(Internal)
      ensures dir.version ==
              if !old(dir.version).Missing? then old(dir.version)
              else if io.version.Written? then Text("TESAURUS_REPLAY_V1") else io.version.left
      ensures dir.files ==
              if !old(dir.version).Missing? || !io.version.Written? || !io.records.write || !io.records.rename
              then old(dir.files)
              else if io.records.syncDirectory then EmptyStore(lib).files
              else old(dir.files) + EmptyStore(lib).files
    {
      if !dir.version.Missing? {
        return Err(Internal);
      }
      dir.version := VersionAfter(io.version);
      if !io.version.Written? {
        return Err(Internal);
      }
      var persisted := dir.PersistRecords(lib, [], io.records);
      if persisted.Err? {
        return Err(Internal);
      }
      var synced := dir.Sync(io.records);
      if synced.Err? {
        return Err(Internal);
      }
      r := Open(lib, dir);
    }

    /** Missing or unreadable data refuses the store. */
    static method Open(lib: Library, dir: Directory) returns (r: PolicyResult<ReplayStore>)
      ensures r.Ok? <==> dir.version == Text("TESAURUS_REPLAY_V1") && dir.files != []
                         && IsReadable(lib, dir.files[|dir.files| - 1])
      ensures r.Ok? ==> fresh(r.value) && r.value.dir == dir
                        && ReadsFile(lib, dir.files[|dir.files| - 1], r.value.records)
      ensures r.Err? ==> r == Err(Internal)
    {
      if dir.version != Text(STORE_VERSION_TAG) || dir.files == [] {
        return Err(Internal);
      }
      var file := dir.files[|dir.files| - 1];
      FileIsExact(lib, file, if FromFile(lib, file).Ok? then FromFile(lib, file).value else []);
      match FromFile(lib, file) {
        case Err(e) => return Err(Internal);
        case Ok(records) =>
          var store := new ReplayStore(dir, records);
          return Ok(store);
      }
    }

    method Preflight(candidate: Record) returns (r: PolicyResult<Verdict>)
      ensures r == PreflightVerdict(records, candidate)
    {
      for i := 0 to |records|
        invariant forall k :: 0 <= k < i ==> records[k].requestId != candidate.requestId
      {
        if records[i].requestId == candidate.requestId {
          assert FindRequest(records, candidate.requestId) == Some(i);
          if records[i].replayId != candidate.replayId {
            return Err(ReplayConflict);
          }
          match records[i].payload {
            case Unsigned => return Err(Internal);
            case Signed(bytes) => return Ok(Idempotent(bytes));
          }
        }
      }
      var sawFeeBump := false;
      for i := 0 to |records|
        invariant forall k :: 0 <= k < i ==> !Blocks(records[k], candidate)
        invariant sawFeeBump <==>
                  exists k :: 0 <= k < i && OutpointsOverlap(records[k].outpoints, candidate.outpoints)
      {
        var existing := records[i];
        if !OutpointsOverlap(existing.outpoints, candidate.outpoints) {
          continue;
        }
        if existing.outputsCommitment == candidate.outputsCommitment {
          assert Blocks(records[i], candidate);
          return Err(PolicyErrorCode.Replay);
        }
        if IsVaultChangeOnly(existing, candidate) {
          sawFeeBump := true;
          continue;
        }
        assert Blocks(records[i], candidate);
        return Err(PolicyErrorCode.Replay);
      }
      if sawFeeBump {
        return Ok(FeeBump);
      }
      return Ok(Fresh);
    }

    method Commit(lib: Library, record: Record, io: Io) returns (r: PolicyResult<Verdict>)
      modifies this, dir
      ensures (View(), r) == old(CommitStep(lib, View(), record, io))
      ensures dir.version == old(dir.version)
    {
      r := Preflight(record);
      if r.Err? || r.value.Idempotent? {
        return;
      }
      if record.payload.Unsigned? {
        return Err(Internal);
      }
      records := records + [record];
      var persisted := dir.PersistRecords(lib, records, io);
      if persisted.Err? {
        return Err(Internal);
      }
      var synced := dir.Sync(io);
      if synced.Err? {
        return Err(Internal);
      }
    }
  }

  // ----- What every run keeps -----

  /** The file holds a prefix of the memory that has at least the first `base` records. */
  ghost predicate IsPrefixFile(lib: Library, file: StoredFile, memory: seq<Record>, base: nat) {
    exists n :: base <= n <= |memory| && file == ToFile(lib, memory[..n])
  }

  ghost predicate Sound(lib: Library, s: StoreState, base: nat) {
    && Consistent(s.memory)
    && base <= |s.memory|
    && s.files != []
    && forall k :: 0 <= k < |s.files| ==> IsPrefixFile(lib, s.files[k], s.memory, base)
  }

  /** At every outcome of a commit, and so at every point where it may be cut short, what disk holds is
      a prefix of memory and memory is consistent. A reported Fresh or FeeBump is on disk for good. */
  lemma {:induction false} CommitKeepsSound(lib: Library, s: StoreState, record: Record, io: Io, base: nat)
    requires Sound(lib, s, base) && Constructible(record)
    ensures var (s', r) := CommitStep(lib, s, record, io);
            && Sound(lib, s', base)
            && s.memory <= s'.memory
            && (r.Ok? ==> r == PreflightVerdict(s.memory, record))
            && (r in {Ok(Fresh), Ok(FeeBump)} <==>
                  && PreflightVerdict(s.memory, record) in {Ok(Fresh), Ok(FeeBump)} && record.payload.Signed?
                  && io == Io(true, true, true))
            && (r in {Ok(Fresh), Ok(FeeBump)} ==>
                  && s'.memory == s.memory + [record]
                  && Sound(lib, s', |s'.memory|))
            && (r.Ok? && r.value.Idempotent? ==> s' == s)
  {
    var (s', r) := CommitStep(lib, s, record, io);
    if s'.memory != s.memory {
      AppendKeepsConsistent(s.memory, record);
      SavedIsSound(lib, s'.memory, |s'.memory|);
      SavedIsSound(lib, s'.memory, base);
      assert IsPrefixFile(lib, [ToFile(lib, s'.memory)][0], s'.memory, base);
      forall k | 0 <= k < |s.files|
        ensures IsPrefixFile(lib, s.files[k], s'.memory, base)
      {
        PrefixFileExtends(lib, s.files[k], s.memory, s'.memory, base);
      }
    }
  }

  lemma {:induction false} PrefixFileExtends(lib: Library, file: StoredFile, memory: seq<Record>, more: seq<Record>,
                                             base: nat)
    requires IsPrefixFile(lib, file, memory, base) && memory <= more
    ensures IsPrefixFile(lib, file, more, base)
  {
    var n :| base <= n <= |memory| && file == ToFile(lib, memory[..n]);
    assert more[..n] == memory[..n];
  }

  lemma {:induction false} SavedIsSound(lib: Library, memory: seq<Record>, base: nat)
    requires Consistent(memory) && base <= |memory|
    ensures Sound(lib, StoreState(memory, [ToFile(lib, memory)]), base)
  {
    assert memory[..|memory|] == memory;
    assert IsPrefixFile(lib, ToFile(lib, memory), memory, base);
  }

  /** Whatever contents survive, the store opens, with exactly the records written there: a prefix of
      what memory held, no shorter than what was durable. */
  lemma {:induction false} ReopenKeepsSound(lib: Library, s: StoreState, survivor: nat, base: nat)
    requires lib.OutPointTextRoundTrips()
    requires Sound(lib, s, base) && survivor < |s.files|
    ensures var r := Reopen(lib, s, survivor);
            && r.Ok? && Sound(lib, r.value, base)
            && r.value.memory <= s.memory
            && r.value.memory[..base] == s.memory[..base]
            && ToFile(lib, r.value.memory) == s.files[survivor]
  {
    assert IsPrefixFile(lib, s.files[survivor], s.memory, base);
    var n :| base <= n <= |s.memory| && s.files[survivor] == ToFile(lib, s.memory[..n]);
    var memory := s.memory[..n];
    PrefixIsConsistent(s.memory, n);
    FileRoundTrip(lib, memory);
    SavedIsSound(lib, memory, base);
  }

  /** A commit of some record, or a crash after which the numbered contents turn out to have survived
      (any number past the last stands for the first). */
  datatype StoreEvent = Commit(record: Record, io: Io) | Crash(survivor: nat)

  function StoreStep(lib: Library, s: StoreState, e: StoreEvent): PolicyResult<StoreState> {
    match e
    case Commit(record, io) => Ok(CommitStep(lib, s, record, io).0)
    case Crash(survivor) => Reopen(lib, s, if survivor < |s.files| then survivor else 0)
  }

  function StoreRun(lib: Library, s: StoreState, events: seq<StoreEvent>): PolicyResult<StoreState>
    decreases |events|
  {
    if events == [] then Ok(s)
    else
      var next :- StoreStep(lib, s, events[0]);
      StoreRun(lib, next, events[1..])
  }

  ghost predicate AllConstructible(events: seq<StoreEvent>) {
    forall i :: 0 <= i < |events| && events[i].Commit? ==> Constructible(events[i].record)
  }

  lemma {:induction false} StepKeepsSound(lib: Library, s: StoreState, e: StoreEvent, base: nat)
    requires lib.OutPointTextRoundTrips()
    requires Sound(lib, s, base) && (e.Commit? ==> Constructible(e.record))
    ensures var r := StoreStep(lib, s, e);
            && r.Ok? && Sound(lib, r.value, base)
            && r.value.memory[..base] == s.memory[..base]
  {
    match e
    case Commit(record, io) => CommitKeepsSound(lib, s, record, io, base);
    case Crash(survivor) => ReopenKeepsSound(lib, s, if survivor < |s.files| then survivor else 0, base);
  }

  /** Any interleaving of commits, failed writes, crashes and reopenings keeps the store sound, never
      makes it unopenable, and never loses what was durable. */
  lemma {:induction false} RunKeepsSound(lib: Library, s: StoreState, events: seq<StoreEvent>, base: nat)
    requires lib.OutPointTextRoundTrips()
    requires Sound(lib, s, base) && AllConstructible(events)
    ensures var r := StoreRun(lib, s, events);
            && r.Ok? && Sound(lib, r.value, base)
            && r.value.memory[..base] == s.memory[..base]
    decreases |events|
  {
    if events == [] {
    } else {
      var next := StoreStep(lib, s, events[0]);
      StepKeepsSound(lib, s, events[0], base);
      assert AllConstructible(events[1..]) by {
        assert forall i :: 0 <= i < |events| - 1 ==> events[1..][i] == events[i + 1];
      }
      RunKeepsSound(lib, next.value, events[1..], base);
    }
  }

  /** Every reachable store is consistent: request ids are unique, and two records that share a coin
      spend the same coins to the same external output with strictly falling change. */
  lemma {:induction false} ReachableStoreIsConsistent(lib: Library, events: seq<StoreEvent>)
    requires lib.OutPointTextRoundTrips() && AllConstructible(events)
    ensures var r := StoreRun(lib, EmptyStore(lib), events);
            r.Ok? && Consistent(r.value.memory) && Sound(lib, r.value, 0)
  {
    SavedIsSound(lib, [], 0);
    RunKeepsSound(lib, EmptyStore(lib), events, 0);
  }

  /** After a commit that reports success, and whatever happens next, the same request id and replay id
      get back the committed bytes, and the same request id with any other replay id is a conflict. */
  lemma {:induction false} CommitIsAnsweredForEver(lib: Library, s: StoreState, record: Record, io: Io,
                                events: seq<StoreEvent>, candidate: Record)
    requires lib.OutPointTextRoundTrips()
    requires Sound(lib, s, 0) && Constructible(record) && AllConstructible(events)
    requires CommitStep(lib, s, record, io).1 in {Ok(Fresh), Ok(FeeBump)}
    requires candidate.requestId == record.requestId
    ensures record.payload.Signed?
    ensures var later := StoreRun(lib, CommitStep(lib, s, record, io).0, events);
            && later.Ok?
            && PreflightVerdict(later.value.memory, candidate)
               == if candidate.replayId == record.replayId then Ok(Idempotent(record.payload.bytes))
                  else Err(ReplayConflict)
  {
    var (s', r) := CommitStep(lib, s, record, io);
    CommitKeepsSound(lib, s, record, io, 0);
    var base := |s'.memory|;
    RunKeepsSound(lib, s', events, base);
    var later := StoreRun(lib, s', events).value;
    assert later.memory[..base][base - 1] == record;
    CommittedRecordAnswers(later.memory, base - 1, candidate);
  }

  /** What a commit puts into memory when it fails after all. */
  predicate IsStorable(records: seq<Record>, record: Record) {
    PreflightVerdict(records, record) in {Ok(Fresh), Ok(FeeBump)} && record.payload.Signed?
  }

  /** A commit reports an error when the record could not be stored anyway, or when a file operation fails. In
      the first case the store is as it was. In the second the record is in memory, and its ids are answered with
      its signature. */
  lemma {:induction false} ErrorIsClosedExactly(lib: Library, s: StoreState, record: Record, io: Io)
    ensures var (s', r) := CommitStep(lib, s, record, io);
            && (IsStorable(s.memory, record) && io != Io(true, true, true) ==> r == Err(Internal))
            && (r.Err? ==>
                  && (s' == s <==> !IsStorable(s.memory, record))
                  && (s'.memory == s.memory <==> !IsStorable(s.memory, record))
                  && var answer := PreflightVerdict(s'.memory, record);
                  && (answer.Ok? && answer.value.Idempotent? <==> IsStorable(s.memory, record))
                  && (IsStorable(s.memory, record) ==> answer == Ok(Idempotent(record.payload.bytes))))
  {
  }

  /** What a commit answers, and what a reader of the records file then sees. */
  lemma {:induction false} CommitIsExact(lib: Library, s: StoreState, record: Record, io: Io)
    requires s.files != []
    ensures var (s', r) := CommitStep(lib, s, record, io);
            && (!IsStorable(s.memory, record) ==> s' == s)
            && (PreflightVerdict(s.memory, record) !in {Ok(Fresh), Ok(FeeBump)} ==>
                  r == PreflightVerdict(s.memory, record))
            && (PreflightVerdict(s.memory, record) in {Ok(Fresh), Ok(FeeBump)} ==>
                  r == if record.payload.Signed? && io.write && io.rename && io.syncDirectory
                       then PreflightVerdict(s.memory, record) else Err(Internal))
            && (IsStorable(s.memory, record) ==>
                  && s'.memory == s.memory + [record]
                  && s'.files[|s'.files| - 1]
                     == (if io.write && io.rename then ToFile(lib, s'.memory) else s.files[|s.files| - 1])
                  && s'.files[0] == (if r.Ok? then ToFile(lib, s'.memory) else s.files[0])
                  && |s'.files| == (if r.Ok? then 1 else if io.write && io.rename then |s.files| + 1 else |s.files|))
  {
  }

  /** A first record whose write fails, for any such record. */
  lemma {:induction false} FirstWriteFails(lib: Library, record: Record, io: Io)
    requires record.payload.Signed? && io != Io(true, true, true)
    ensures var (s', r) := CommitStep(lib, EmptyStore(lib), record, io);
            && r == Err(Internal) && s'.memory == [record]
            && PreflightVerdict(s'.memory, record) == Ok(Idempotent(record.payload.bytes))
  {
    assert FindRequest([], record.requestId) == None;
    assert PreflightVerdict([], record) == Ok(Fresh);
    assert [] + [record] == [record];
    ErrorIsClosedExactly(lib, EmptyStore(lib), record, io);
  }
}
