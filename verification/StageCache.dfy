/**
 * The stage cache (crates/ferrodoc-runtime/src/cache.rs): any number of writers and readers, each a sequence of file
 * operations, interleaved in any order and failing at any point.
 */
module StageCache {
  import opened Collections
  import Framing

  type byte = Framing.byte

  const MAX_METADATA_BYTES: nat := 1024 * 1024

  datatype CacheKey = CacheKey(
    stage: string, input: nat, models: map<string, nat>, engine: string, engineVersion: string, schema: string,
    parameters: nat)

  datatype Cacheability = Deterministic | Seeded(seed: nat) | NotCacheable

  datatype CacheError = Io | Corrupt | Uncacheable

  datatype Hit = Hit(bytes: seq<byte>, mediaType: string)

  datatype Metadata = Metadata(key: CacheKey, digest: nat, bytes: nat, mediaType: string)

  /** An entry or staging directory: each of its two files appears whole or not at all. */
  datatype Directory = Directory(metadata: Option<Metadata>, value: Option<seq<byte>>)

  /** Published entries by key digest, and the staging directory of each writer. */
  datatype Files = Files(entries: map<nat, Directory>, staging: map<nat, Directory>)

  /** The digest of a key, of a value, and the size of a serialized metadata file. */
  datatype Setup = Setup(keyDigest: CacheKey -> nat, hash: seq<byte> -> nat, metadataSize: Metadata -> nat)

  // ---- Reading an entry ----

  type GetResult = Result<Option<Hit>, CacheError>

  datatype Reading =
    | Look
    | Inspect
    | Measure(metadata: Metadata)
    | Fetch(metadata: Metadata)
    | Finished(result: GetResult)

  /** A read bound; `None` is the largest 64-bit value. */
  predicate Within(bytes: seq<byte>, bound: Option<nat>) {
    bound.Some? ==> |bytes| <= bound.value
  }

  /** One file operation of a read; `fault` is an operating-system failure of it. */
  function ReadStep(
      setup: Setup, entries: map<nat, Directory>, key: CacheKey, bound: Option<nat>, reading: Reading, fault: bool)
    : Reading {
    var d := setup.keyDigest(key);
    match reading
    case Look => if fault || d !in entries then Finished(Ok(None)) else Inspect
    case Inspect =>
      if fault || d !in entries || entries[d].metadata.None? then Finished(Err(Io))
      else
        var metadata := entries[d].metadata.value;
        if setup.metadataSize(metadata) > MAX_METADATA_BYTES || metadata.key != key then Finished(Err(Corrupt))
        else Measure(metadata)
    case Measure(metadata) =>
      if fault || d !in entries || entries[d].value.None? then Finished(Err(Io))
      else if |entries[d].value.value| != metadata.bytes ||
           !Within(entries[d].value.value, bound) then Finished(Err(Corrupt))
      else Fetch(metadata)
    case Fetch(metadata) =>
      if fault || d !in entries || entries[d].value.None? then Finished(Err(Io))
      else
        var bytes := entries[d].value.value;
        if |bytes| != metadata.bytes || setup.hash(bytes) != metadata.digest then Finished(Err(Corrupt))
        else Finished(Ok(Some(Hit(bytes, metadata.mediaType))))
    case Finished(_) => reading
  }

  // ---- Publishing an entry ----

  datatype Phase =
    | Checking
    | Confirming(confirmed: Reading)
    | Creating
    | WritingValue
    | WritingMetadata
    | Publishing
    | Losing
    | Discarding
    | Verifying(verified: Reading)
    | Cleaning(error: CacheError)
    | Done(result: Result<(), CacheError>)

  datatype Process =
    | Put(key: CacheKey, cacheability: Cacheability, mediaType: string, bytes: seq<byte>, phase: Phase)
    | Get(key: CacheKey, bound: Option<nat>, reading: Reading, history: History)

  /** What a reader's history is compared with: whether a put of its key had been acknowledged when it began, and
      whether one of its own operations has failed. */
  datatype History = History(late: bool, faulted: bool)

  function Judge(result: GetResult, bytes: seq<byte>): Result<(), CacheError> {
    match result
    case Err(e) => Err(e)
    case Ok(None) => Err(Corrupt)
    case Ok(Some(hit)) => if hit.bytes != bytes then Err(Corrupt) else Ok(())
  }

  function MetadataOf(setup: Setup, put: Process): Metadata
    requires put.Put?
  {
    Metadata(put.key, setup.hash(put.bytes), |put.bytes|, put.mediaType)
  }

  datatype Progress = Progress(files: Files, phase: Phase)

  /** One file operation of writer `i`. */
  function PutStep(setup: Setup, files: Files, i: nat, put: Process, fault: bool): Progress
    requires put.Put?
  {
    var d := setup.keyDigest(put.key);
    match put.phase
    case Checking =>
      Progress(files,
               if put.cacheability.NotCacheable? then Done(Err(Uncacheable))
               else if !fault && d in files.entries then Confirming(Look) else Creating)
    case Confirming(Finished(result)) => Progress(files, Done(Judge(result, put.bytes)))
    case Confirming(reading) => Progress(files,
        Confirming(ReadStep(setup, files.entries, put.key, None, reading, fault)))
    case Creating =>
      if fault then Progress(files, Done(Err(Io)))
      else Progress(files.(staging := files.staging[i := Directory(None, None)]), WritingValue)
    case WritingValue =>
      if fault || i !in files.staging then Progress(files, Cleaning(Io))
      else Progress(files.(staging := files.staging[i := files.staging[i].(value := Some(put.bytes))]), WritingMetadata)
    case WritingMetadata =>
      if fault || i !in files.staging then Progress(files, Cleaning(Io))
      else Progress(files.(staging := files.staging[i := files.staging[i].(metadata := Some(MetadataOf(setup,
          put)))]), Publishing)
    case Publishing =>
      if fault || i !in files.staging || d in files.entries then Progress(files, Losing)
      else Progress(Files(files.entries[d := files.staging[i]], files.staging - {i}), Verifying(Look))
    case Losing => Progress(files, if !fault && d in files.entries then Discarding else Cleaning(Io))
    case Discarding =>
      if fault then Progress(files, Cleaning(Io))
      else Progress(files.(staging := files.staging - {i}), Verifying(Look))
    case Verifying(Finished(result)) =>
      var judged := Judge(result, put.bytes);
      Progress(files, if judged.Err? then Cleaning(judged.error) else Done(Ok(())))
    case Verifying(reading) => Progress(files, Verifying(ReadStep(setup, files.entries, put.key, None, reading, fault)))
    case Cleaning(error) =>
      Progress(if fault then files else files.(staging := files.staging - {i}), Done(Err(error)))
    case Done(_) => Progress(files, put.phase)
  }

  // ---- Runs ----

  datatype System = System(files: Files, processes: seq<Process>)

  datatype Move =
    | StartPut(key: CacheKey, cacheability: Cacheability, mediaType: string, bytes: seq<byte>)
    | StartGet(key: CacheKey, bound: Option<nat>)
    | Advance(process: nat, fault: bool)

  const EMPTY := System(Files(map[], map[]), [])

  /** A put of this key has returned `Ok`. */
  predicate Acknowledged(s: System, key: CacheKey) {
    exists i: nat :: i < |s.processes| && AcknowledgedBy(s.processes[i], key)
  }

  predicate AcknowledgedBy(p: Process, key: CacheKey) {
    p.Put? && p.key == key && p.phase == Done(Ok(()))
  }

  /** A step of a process that does not exist changes nothing; a crashed process simply takes no further step. */
  function Next(setup: Setup, s: System, move: Move): System {
    match move
    case StartPut(key, cacheability, mediaType, bytes) =>
      s.(processes := s.processes + [Put(key, cacheability, mediaType, bytes, Checking)])
    case StartGet(key, bound) =>
      s.(processes := s.processes + [Get(key, bound, Look, History(Acknowledged(s, key), false))])
    case Advance(i, fault) =>
      if i >= |s.processes| then s
      else
        match s.processes[i]
        case Put(_, _, _, _, _) =>
          var progress := PutStep(setup, s.files, i, s.processes[i], fault);
          System(progress.files, s.processes[i := s.processes[i].(phase := progress.phase)])
        case Get(key, bound, reading, history) =>
          var after := ReadStep(setup, s.files.entries, key, bound, reading, fault);
          s.(processes := s.processes[i := Get(key, bound, after, History(history.late, history.faulted || fault))])
  }

  function Run(setup: Setup, s: System, moves: seq<Move>): System
    decreases |moves|
  {
    if moves == [] then s else Run(setup, Next(setup, s, moves[0]), moves[1..])
  }

  // ---- The invariant ----

  predicate Complete(setup: Setup, d: nat, directory: Directory) {
    && directory.metadata.Some? && directory.value.Some?
    && setup.keyDigest(directory.metadata.value.key) == d
    && directory.metadata.value.bytes == |directory.value.value|
    && directory.metadata.value.digest == setup.hash(directory.value.value)
  }

  predicate Published(setup: Setup, entries: map<nat, Directory>) {
    forall d :: d in entries ==> Complete(setup, d, entries[d])
  }

  /** The entry a read of this key accepts, as far as its metadata goes. */
  predicate Readable(setup: Setup, entries: map<nat, Directory>, key: CacheKey) {
    var d := setup.keyDigest(key);
    && d in entries && entries[d].metadata.Some? && entries[d].value.Some?
    && entries[d].metadata.value.key == key
    && setup.metadataSize(entries[d].metadata.value) <= MAX_METADATA_BYTES
  }

  function Stored(setup: Setup, entries: map<nat, Directory>, key: CacheKey): Hit
    requires Readable(setup, entries, key)
  {
    var entry := entries[setup.keyDigest(key)];
    Hit(entry.value.value, entry.metadata.value.mediaType)
  }

  predicate ReadingSound(
      setup: Setup, entries: map<nat, Directory>, key: CacheKey, bound: Option<nat>, reading: Reading) {
    match reading
    case Look => true
    case Inspect => setup.keyDigest(key) in entries
    case Measure(metadata) =>
      Readable(setup, entries, key) && entries[setup.keyDigest(key)].metadata == Some(metadata)
    case Fetch(metadata) =>
      && Readable(setup, entries, key) && entries[setup.keyDigest(key)].metadata == Some(metadata)
      && Within(Stored(setup, entries, key).bytes, bound)
    case Finished(Ok(Some(hit))) =>
      Readable(setup, entries, key) && hit == Stored(setup, entries, key) && Within(hit.bytes, bound)
    case Finished(_) => true
  }

  /** What a fault-free read of a readable entry ends with. */
  function Expected(setup: Setup, entries: map<nat, Directory>, key: CacheKey, bound: Option<nat>): GetResult
    requires Readable(setup, entries, key)
  {
    if Within(Stored(setup, entries, key).bytes, bound) then Ok(Some(Stored(setup, entries, key))) else Err(Corrupt)
  }

  predicate Prompt(setup: Setup, entries: map<nat, Directory>, get: Process)
    requires get.Get?
  {
    get.history.late && !get.history.faulted ==>
      && Readable(setup, entries, get.key)
      && (get.reading.Finished? ==> get.reading.result == Expected(setup, entries, get.key, get.bound))
  }

  predicate ProcessSound(setup: Setup, files: Files, i: nat, p: Process) {
    match p
    case Get(key, bound, reading, _) => ReadingSound(setup, files.entries, key, bound, reading) &&
        Prompt(setup, files.entries, p)
    case Put(key, _, _, bytes, phase) =>
      match phase
      case Checking => i !in files.staging
      case Confirming(reading) => i !in files.staging && ReadingSound(setup, files.entries, key, None, reading)
      case Creating => i !in files.staging
      case Verifying(reading) => i !in files.staging && ReadingSound(setup, files.entries, key, None, reading)
      case WritingValue => i in files.staging && files.staging[i] == Directory(None, None)
      case WritingMetadata => i in files.staging && files.staging[i] == Directory(None, Some(bytes))
      case Publishing => i in files.staging && files.staging[i] == Directory(Some(MetadataOf(setup, p)), Some(bytes))
      case Done(Ok(_)) =>
        && i !in files.staging
        && Readable(setup, files.entries, key) && Stored(setup, files.entries, key).bytes == bytes
      case _ => true
  }

  predicate Sound(setup: Setup, s: System) {
    && Published(setup, s.files.entries)
    && (forall i: nat :: i < |s.processes| ==> ProcessSound(setup, s.files, i, s.processes[i]))
    && forall i: nat :: i in s.files.staging ==> i < |s.processes| && s.processes[i].Put?
  }

  /** Everything published stays, unchanged. */
  predicate Extends(before: map<nat, Directory>, after: map<nat, Directory>) {
    forall d :: d in before ==> d in after && after[d] == before[d]
  }

  lemma ReadKeepsSound(
      setup: Setup, entries: map<nat, Directory>, key: CacheKey, bound: Option<nat>, reading: Reading, fault: bool)
    requires Published(setup, entries) && ReadingSound(setup, entries, key, bound, reading)
    ensures var after := ReadStep(setup, entries, key, bound, reading, fault);
            && ReadingSound(setup, entries, key, bound, after)
            && (!fault && Readable(setup, entries, key) && after.Finished? && !reading.Finished? ==>
                  after.result == Expected(setup, entries, key, bound))
  {
    var d := setup.keyDigest(key);
    if d in entries {
      assert Complete(setup, d, entries[d]);
    }
  }

  /** A process's standing survives every step of another. */
  lemma Standing(setup: Setup, before: Files, after: Files, i: nat, p: Process)
    requires ProcessSound(setup, before, i, p) && Extends(before.entries, after.entries)
    requires i in before.staging <==> i in after.staging
    requires i in before.staging ==> after.staging[i] == before.staging[i]
    ensures ProcessSound(setup, after, i, p)
  {
  }

  lemma PutKeepsSound(setup: Setup, files: Files, i: nat, put: Process, fault: bool)
    requires put.Put? && Published(setup, files.entries) && ProcessSound(setup, files, i, put)
    ensures var progress := PutStep(setup, files, i, put, fault);
            && Published(setup, progress.files.entries)
            && Extends(files.entries, progress.files.entries)
            && (forall j :: j != i ==> (j in progress.files.staging <==> j in files.staging))
            && (forall j :: j != i && j in files.staging ==> progress.files.staging[j] == files.staging[j])
            && ProcessSound(setup, progress.files, i, put.(phase := progress.phase))
  {
    match put.phase
    case Confirming(reading) => ReadKeepsSound(setup, files.entries, put.key, None, reading, fault);
    case Verifying(reading) => ReadKeepsSound(setup, files.entries, put.key, None, reading, fault);
    case _ =>
  }

  /** Every step keeps the invariant, and only ever adds entries. */
  lemma NextSound(setup: Setup, s: System, move: Move)
    requires Sound(setup, s)
    ensures Sound(setup, Next(setup, s, move))
    ensures Extends(s.files.entries, Next(setup, s, move).files.entries)
  {
    var after := Next(setup, s, move);
    match move
    case StartPut(_, _, _, _) =>
    case StartGet(key, bound) =>
      if Acknowledged(s, key) {
        var i: nat :| i < |s.processes| && AcknowledgedBy(s.processes[i], key);
        assert ProcessSound(setup, s.files, i, s.processes[i]);
      }
    case Advance(i, fault) =>
      if i < |s.processes| {
        var p := s.processes[i];
        assert ProcessSound(setup, s.files, i, p);
        if p.Put? {
          PutKeepsSound(setup, s.files, i, p, fault);
          forall j: nat | j < |s.processes|
            ensures ProcessSound(setup, after.files, j, after.processes[j])
          {
            if j != i {
              Standing(setup, s.files, after.files, j, s.processes[j]);
            }
          }
        } else {
          ReadKeepsSound(setup, s.files.entries, p.key, p.bound, p.reading, fault);
        }
      }
  }

  lemma {:induction false} RunSound(setup: Setup, s: System, moves: seq<Move>)
    requires Sound(setup, s)
    ensures Sound(setup, Run(setup, s, moves))
    ensures Extends(s.files.entries, Run(setup, s, moves).files.entries)
    decreases |moves|
  {
    if moves != [] {
      NextSound(setup, s, moves[0]);
      RunSound(setup, Next(setup, s, moves[0]), moves[1..]);
    }
  }

  // ---- What writers and readers may rely on ----

  /** All puts of one key that return `Ok` agree on the bytes, however they interleave. */
  lemma PutsAgree(setup: Setup, moves: seq<Move>, i: nat, j: nat)
    requires var s := Run(setup, EMPTY, moves);
             && i < |s.processes| && j < |s.processes|
             && AcknowledgedBy(s.processes[i], s.processes[j].key) && AcknowledgedBy(s.processes[j], s.processes[j].key)
    ensures Run(setup, EMPTY, moves).processes[i].bytes == Run(setup, EMPTY, moves).processes[j].bytes
  {
    RunSound(setup, EMPTY, moves);
    var s := Run(setup, EMPTY, moves);
    assert ProcessSound(setup, s.files, i, s.processes[i]) && ProcessSound(setup, s.files, j, s.processes[j]);
  }

  /**
   * Every hit returns the bytes that every acknowledged put of the key published; a read that begins after such a put
   * returns and meets no operating-system failure is a hit, unless those bytes exceed its own bound.
   */
  lemma GetsReturnWhatWasPut(setup: Setup, moves: seq<Move>, put: nat, get: nat)
    requires var s := Run(setup, EMPTY, moves);
             && put < |s.processes| && get < |s.processes|
             && s.processes[get].Get? && s.processes[get].reading.Finished?
             && AcknowledgedBy(s.processes[put], s.processes[get].key)
    ensures var s := Run(setup, EMPTY, moves);
            var bytes := s.processes[put].bytes;
            var g := s.processes[get];
            && (g.reading.result.Ok? && g.reading.result.value.Some? ==> g.reading.result.value.value.bytes == bytes)
            && (g.history.late && !g.history.faulted ==>
                  if Within(bytes, g.bound) then g.reading.result.Ok? && g.reading.result.value.Some?
                  else g.reading.result == Err(Corrupt))
  {
    RunSound(setup, EMPTY, moves);
    var s := Run(setup, EMPTY, moves);
    assert ProcessSound(setup, s.files, put, s.processes[put]) && ProcessSound(setup, s.files, get, s.processes[get]);
  }

  /** A writer's staging directory is gone once its put returns `Ok`, and while it waits or reads there is none. */
  lemma NothingStaged(setup: Setup, moves: seq<Move>, i: nat)
    requires var s := Run(setup, EMPTY, moves); i in s.files.staging
    ensures var s := Run(setup, EMPTY, moves);
            && i < |s.processes| && s.processes[i].Put?
            && (var phase := s.processes[i].phase;
                && !phase.Checking? && !phase.Confirming? && !phase.Creating? && !phase.Verifying?
                && phase != Done(Ok(())))
  {
    RunSound(setup, EMPTY, moves);
    var s := Run(setup, EMPTY, moves);
    assert ProcessSound(setup, s.files, i, s.processes[i]);
  }

  lemma {:induction false} RunConcat(setup: Setup, s: System, a: seq<Move>, b: seq<Move>)
    ensures Run(setup, s, a + b) == Run(setup, Run(setup, s, a), b)
    decreases |a|
  {
    if a == [] {
      assert a + b == b;
    } else {
      assert (a + b)[1..] == a[1..] + b;
      RunConcat(setup, Next(setup, s, a[0]), a[1..], b);
    }
  }

  /** A published entry's files never change again. */
  lemma EntriesAreImmutable(setup: Setup, before: seq<Move>, more: seq<Move>, d: nat)
    requires d in Run(setup, EMPTY, before).files.entries
    ensures var entries := Run(setup, EMPTY, before + more).files.entries;
            && d in entries && entries[d] == Run(setup, EMPTY, before).files.entries[d]
            && Complete(setup, d, entries[d])
  {
    RunSound(setup, EMPTY, before);
    RunSound(setup, Run(setup, EMPTY, before), more);
    RunConcat(setup, EMPTY, before, more);
  }
}
