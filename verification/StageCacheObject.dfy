/** The stage cache used by one caller at a time: the object, and exactly when its operations succeed. */
module StageCacheObject {
  import opened Collections
  import opened StageCache

  // ---- One process running alone ----

  /** A read whose four operations are not interrupted and do not fail. */
  function ReadAlone(setup: Setup, entries: map<nat, Directory>, key: CacheKey, bound: Option<nat>): Reading {
    var inspect := ReadStep(setup, entries, key, bound, Look, false);
    var measure := ReadStep(setup, entries, key, bound, inspect, false);
    var fetch := ReadStep(setup, entries, key, bound, measure, false);
    ReadStep(setup, entries, key, bound, fetch, false)
  }

  function ReadOutcome(setup: Setup, entries: map<nat, Directory>, key: CacheKey, bound: Option<nat>): GetResult {
    if setup.keyDigest(key) !in entries then Ok(None)
    else if Readable(setup, entries, key) then Expected(setup, entries, key, bound)
    else Err(Corrupt)
  }

  lemma ReadAloneOutcome(setup: Setup, entries: map<nat, Directory>, key: CacheKey, bound: Option<nat>)
    requires Published(setup, entries)
    ensures ReadAlone(setup, entries, key, bound) == Finished(ReadOutcome(setup, entries, key, bound))
  {
    if setup.keyDigest(key) in entries {
      assert Complete(setup, setup.keyDigest(key), entries[setup.keyDigest(key)]);
    }
  }

  /** The entry is whole and of that key, its value as long as bound and metadata say, and of the recorded digest. */
  ghost predicate Trusted(setup: Setup, entry: Directory, key: CacheKey, bound: Option<nat>) {
    && entry.metadata.Some? && entry.value.Some?
    && entry.metadata.value.key == key && setup.metadataSize(entry.metadata.value) <= 1_048_576
    && |entry.value.value| == entry.metadata.value.bytes
    && setup.hash(entry.value.value) == entry.metadata.value.digest
    && (bound.Some? ==> |entry.value.value| <= bound.value)
  }

  /** Whatever the entries hold, be they damaged: a read hits what it can trust, and misses what is not there. */
  lemma ReadsIff(setup: Setup, entries: map<nat, Directory>, key: CacheKey, bound: Option<nat>)
    ensures var d := setup.keyDigest(key);
            var reading := ReadAlone(setup, entries, key, bound);
            && reading.Finished?
            && (reading.result == Ok(None) <==> d !in entries)
            && (reading.result.Ok? && reading.result.value.Some? <==>
                  d in entries && Trusted(setup, entries[d], key, bound))
            && (d in entries && Trusted(setup, entries[d], key, bound) ==>
                  reading.result.value.value == Hit(entries[d].value.value, entries[d].metadata.value.mediaType))
  {
  }

  // ---- One put running alone ----

  /** Writer `i` taking `n` steps that do not fail, with nothing else happening. */
  function PutAlone(setup: Setup, files: Files, i: nat, put: Process, n: nat): Progress
    requires put.Put?
  {
    if n == 0 then Progress(files, put.phase)
    else
      var before := PutAlone(setup, files, i, put, n - 1);
      PutStep(setup, before.files, i, put.(phase := before.phase), false)
  }

  lemma {:induction false} PutAloneFrom(setup: Setup, files: Files, i: nat, put: Process, m: nat, n: nat)
    requires put.Put?
    ensures var middle := PutAlone(setup, files, i, put, m);
            PutAlone(setup, files, i, put, m + n) ==
            PutAlone(setup, middle.files, i, put.(phase := middle.phase), n)
  {
    if n > 0 {
      PutAloneFrom(setup, files, i, put, m, n - 1);
    }
  }

  function Entry(setup: Setup, put: Process): Directory
    requires put.Put?
  {
    Directory(Some(MetadataOf(setup, put)), Some(put.bytes))
  }

  function PutResult(setup: Setup, entries: map<nat, Directory>, put: Process): Result<(), CacheError>
    requires put.Put?
  {
    var d := setup.keyDigest(put.key);
    if put.cacheability.NotCacheable? then Err(Uncacheable)
    else if d in entries then
      if Readable(setup, entries, put.key) &&
           Stored(setup, entries, put.key).bytes == put.bytes then Ok(()) else Err(Corrupt)
    else if setup.metadataSize(MetadataOf(setup, put)) <= MAX_METADATA_BYTES then Ok(())
    else Err(Corrupt)
  }

  /** One more step of a writer that has come as far as `phase`. */
  function Onward(setup: Setup, files: Files, i: nat, put: Process, phase: Phase): Progress
    requires put.Put?
  {
    PutStep(setup, files, i, put.(phase := phase), false)
  }

  lemma OneMore(setup: Setup, files: Files, i: nat, put: Process, n: nat, at: Progress)
    requires put.Put? && PutAlone(setup, files, i, put, n) == at
    ensures PutAlone(setup, files, i, put, n + 1) == Onward(setup, at.files, i, put, at.phase)
  {
  }

  /** Confirming or verifying alone, from the first look to the verdict and, if that is an error, the cleaning. */
  lemma JudgedAlone(setup: Setup, files: Files, i: nat, put: Process)
    requires put.Put? && i !in files.staging && put.phase in {Confirming(Look), Verifying(Look)}
    ensures PutAlone(setup, files, i, put, 6)
         == Progress(files, Done(Judge(ReadAlone(setup, files.entries, put.key, None).result, put.bytes)))
  {
    ReadsIff(setup, files.entries, put.key, None);
    assert files.(staging := files.staging - {i}) == files;
    var p0 := Progress(files, put.phase);
    var p1 := Onward(setup, files, i, put, p0.phase);
    var p2 := Onward(setup, p1.files, i, put, p1.phase);
    var p3 := Onward(setup, p2.files, i, put, p2.phase);
    var p4 := Onward(setup, p3.files, i, put, p3.phase);
    var p5 := Onward(setup, p4.files, i, put, p4.phase);
    assert PutAlone(setup, files, i, put, 0) == p0;
    OneMore(setup, files, i, put, 0, p0);
    OneMore(setup, files, i, put, 1, p1);
    OneMore(setup, files, i, put, 2, p2);
    OneMore(setup, files, i, put, 3, p3);
    OneMore(setup, files, i, put, 4, p4);
    OneMore(setup, files, i, put, 5, p5);
  }

  lemma StagedAlone(setup: Setup, files: Files, i: nat, put: Process)
    requires put.Put? && put.phase == Creating && i !in files.staging && setup.keyDigest(put.key) !in files.entries
    ensures PutAlone(setup, files, i, put, 4)
         == Progress(files.(entries := files.entries[setup.keyDigest(put.key) := Entry(setup, put)]), Verifying(Look))
  {
    var p0 := Progress(files, Creating);
    var p1 := Onward(setup, files, i, put, Creating);
    var p2 := Onward(setup, p1.files, i, put, WritingValue);
    var p3 := Onward(setup, p2.files, i, put, WritingMetadata);
    var p4 := Onward(setup, p3.files, i, put, Publishing);
    assert PutAlone(setup, files, i, put, 0) == p0;
    OneMore(setup, files, i, put, 0, p0);
    OneMore(setup, files, i, put, 1, p1);
    OneMore(setup, files, i, put, 2, p2);
    OneMore(setup, files, i, put, 3, p3);
    assert p3.files.staging[i] == Entry(setup, put);
    assert p3.files.staging - {i} == files.staging;
  }

  lemma {:induction false} DoneStays(setup: Setup, files: Files, i: nat, put: Process, m: nat, n: nat)
    requires put.Put? && PutAlone(setup, files, i, put, m).phase.Done? && m <= n
    ensures PutAlone(setup, files, i, put, n) == PutAlone(setup, files, i, put, m)
  {
    if m < n {
      DoneStays(setup, files, i, put, m, n - 1);
    }
  }

  /** The entries after a put that nothing disturbs. */
  function PutEntries(setup: Setup, entries: map<nat, Directory>, put: Process): map<nat, Directory>
    requires put.Put?
  {
    if put.cacheability.NotCacheable? || setup.keyDigest(put.key) in entries then entries
    else entries[setup.keyDigest(put.key) := Entry(setup, put)]
  }

  /** A writer left alone is done after eleven steps, with the result and the entries of a sequential put. */
  lemma PutAloneOutcome(setup: Setup, files: Files, i: nat, put: Process)
    requires put.Put? && put.phase == Checking && i !in files.staging && Published(setup, files.entries)
    ensures PutAlone(setup, files, i, put, 11)
         == Progress(files.(entries := PutEntries(setup, files.entries, put)),
              Done(PutResult(setup, files.entries, put)))
  {
    var first := Onward(setup, files, i, put, Checking);
    assert PutAlone(setup, files, i, put, 0) == Progress(files, Checking);
    OneMore(setup, files, i, put, 0, Progress(files, Checking));
    PutAloneFrom(setup, files, i, put, 1, 10);
    if put.cacheability.NotCacheable? {
      RefusedAlone(setup, files, i, put.(phase := first.phase));
    } else if setup.keyDigest(put.key) in files.entries {
      ConfirmedAlone(setup, files, i, put.(phase := first.phase));
    } else {
      NewAlone(setup, files, i, put.(phase := first.phase));
    }
  }

  lemma RefusedAlone(setup: Setup, files: Files, i: nat, put: Process)
    requires put.Put? && put.phase.Done?
    ensures PutAlone(setup, files, i, put, 10) == Progress(files, put.phase)
  {
    assert PutAlone(setup, files, i, put, 0) == Progress(files, put.phase);
    DoneStays(setup, files, i, put, 0, 10);
  }

  lemma ConfirmedAlone(setup: Setup, files: Files, i: nat, put: Process)
    requires put.Put? && put.phase == Confirming(Look) && i !in files.staging && Published(setup, files.entries)
    requires setup.keyDigest(put.key) in files.entries && !put.cacheability.NotCacheable?
    ensures PutAlone(setup, files, i, put, 10) == Progress(files, Done(PutResult(setup, files.entries, put)))
  {
    JudgedAlone(setup, files, i, put);
    ReadAloneOutcome(setup, files.entries, put.key, None);
    DoneStays(setup, files, i, put, 6, 10);
  }

  lemma NewAlone(setup: Setup, files: Files, i: nat, put: Process)
    requires put.Put? && put.phase == Creating && i !in files.staging && Published(setup, files.entries)
    requires setup.keyDigest(put.key) !in files.entries && !put.cacheability.NotCacheable?
    ensures PutAlone(setup, files, i, put, 10)
         == Progress(files.(entries := files.entries[setup.keyDigest(put.key) := Entry(setup, put)]),
              Done(PutResult(setup, files.entries, put)))
  {
    StagedAlone(setup, files, i, put);
    PutAloneFrom(setup, files, i, put, 4, 6);
    PublishedAlone(setup, files, i, put);
  }

  /** A writer whose rename failed joins the entry another one published, and reports an I/O failure without one. */
  lemma LosersJoin(setup: Setup, files: Files, i: nat, put: Process)
    requires put.Put? && put.phase == Losing && i in files.staging
    ensures setup.keyDigest(put.key) in files.entries ==>
              PutAlone(setup, files, i, put, 2) == Progress(files.(staging := files.staging - {i}), Verifying(Look))
    ensures setup.keyDigest(put.key) !in files.entries ==>
              PutAlone(setup, files, i, put, 2) == Progress(files.(staging := files.staging - {i}), Done(Err(Io)))
  {
    assert PutAlone(setup, files, i, put, 0) == Progress(files, Losing);
    OneMore(setup, files, i, put, 0, Progress(files, Losing));
    OneMore(setup, files, i, put, 1, PutAlone(setup, files, i, put, 1));
  }

  lemma PublishedAlone(setup: Setup, files: Files, i: nat, put: Process)
    requires put.Put? && i !in files.staging && Published(setup, files.entries)
    requires setup.keyDigest(put.key) !in files.entries && !put.cacheability.NotCacheable?
    ensures var after := files.(entries := files.entries[setup.keyDigest(put.key) := Entry(setup, put)]);
            PutAlone(setup, after, i, put.(phase := Verifying(Look)), 6)
            == Progress(after, Done(PutResult(setup, files.entries, put)))
  {
    var d := setup.keyDigest(put.key);
    var after := files.(entries := files.entries[d := Entry(setup, put)]);
    assert Complete(setup, d, after.entries[d]);
    JudgedAlone(setup, after, i, put.(phase := Verifying(Look)));
    ReadAloneOutcome(setup, after.entries, put.key, None);
  }

  /** An entry that no read accepts stays that way: later puts and reads of its key are all refused. */
  lemma UnreadableForever(setup: Setup, before: Files, after: Files, put: Process, bound: Option<nat>)
    requires put.Put? && !put.cacheability.NotCacheable?
    requires Published(setup, after.entries) && Extends(before.entries, after.entries)
    requires setup.keyDigest(put.key) in before.entries && !Readable(setup, before.entries, put.key)
    requires Complete(setup, setup.keyDigest(put.key), before.entries[setup.keyDigest(put.key)])
    ensures ReadOutcome(setup, after.entries, put.key, bound) == Err(Corrupt)
    ensures PutResult(setup, after.entries, put) == Err(Corrupt)
  {
  }

  /** A put of a new key whose metadata cannot be read back publishes an entry that refuses it and everything later. */
  lemma OversizedMetadataPoisons(
      setup: Setup, entries: map<nat, Directory>, put: Process, after: Files, bound: Option<nat>)
    requires put.Put? && !put.cacheability.NotCacheable? && Published(setup, entries)
    requires setup.keyDigest(put.key) !in entries && setup.metadataSize(MetadataOf(setup, put)) > MAX_METADATA_BYTES
    requires Published(setup, after.entries)
    requires Extends(entries[setup.keyDigest(put.key) := Entry(setup, put)], after.entries)
    ensures PutResult(setup, entries, put) == Err(Corrupt)
    ensures Published(setup, entries[setup.keyDigest(put.key) := Entry(setup, put)])
    ensures PutResult(setup, after.entries, put) == Err(Corrupt)
    ensures ReadOutcome(setup, after.entries, put.key, bound) == Err(Corrupt)
  {
    var poisoned := entries[setup.keyDigest(put.key) := Entry(setup, put)];
    assert Complete(setup, setup.keyDigest(put.key), poisoned[setup.keyDigest(put.key)]);
    UnreadableForever(setup, Files(poisoned, map[]), after, put, bound);
  }

  /** A media type of one byte more than the bound on metadata files. */
  const LONG_MEDIA_TYPE: string := seq(MAX_METADATA_BYTES + 1, _ => 'a')

  /** For instance, one byte under that media type, put into an empty cache. */
  lemma LongMediaTypePoisons(setup: Setup, key: CacheKey)
    requires forall m: Metadata :: setup.metadataSize(m) >= |m.mediaType|
    ensures var put := Put(key, Deterministic, LONG_MEDIA_TYPE, [1], Checking);
            var poisoned := map[setup.keyDigest(key) := Entry(setup, put)];
            && PutResult(setup, map[], put) == Err(Corrupt)
            && PutResult(setup, poisoned, put) == Err(Corrupt)
            && ReadOutcome(setup, poisoned, key, None) == Err(Corrupt)
  {
    var put := Put(key, Deterministic, LONG_MEDIA_TYPE, [1], Checking);
    var poisoned := map[setup.keyDigest(key) := Entry(setup, put)];
    assert map[][setup.keyDigest(key) := Entry(setup, put)] == poisoned;
    OversizedMetadataPoisons(setup, map[], put, Files(poisoned, map[]), None);
  }

  // ---- The object ----

  class Cache {
    const setup: Setup
    var entries: map<nat, Directory>
    var staging: map<nat, Directory>

    ghost predicate Valid()
      reads this
    {
      Published(setup, entries)
    }

    constructor (setup: Setup)
      ensures Valid() && this.setup == setup && entries == map[] && staging == map[]
    {
      this.setup := setup;
      entries, staging := map[], map[];
    }

    /** The read of whatever is there, be it damaged. */
    method Read(key: CacheKey, bound: Option<nat>) returns (result: GetResult)
      ensures Finished(result) == ReadAlone(setup, entries, key, bound)
      ensures Valid() ==> result == ReadOutcome(setup, entries, key, bound)
    {
      ReadsIff(setup, entries, key, bound);
      if Valid() {
        ReadAloneOutcome(setup, entries, key, bound);
      }
      var d := setup.keyDigest(key);
      if d !in entries {
        return Ok(None);
      }
      if entries[d].metadata.None? {
        return Err(Io);
      }
      var metadata := entries[d].metadata.value;
      if setup.metadataSize(metadata) > MAX_METADATA_BYTES || metadata.key != key {
        return Err(Corrupt);
      }
      if entries[d].value.None? {
        return Err(Io);
      }
      var bytes := entries[d].value.value;
      if |bytes| != metadata.bytes || (bound.Some? && |bytes| > bound.value) {
        return Err(Corrupt);
      }
      if setup.hash(bytes) != metadata.digest {
        return Err(Corrupt);
      }
      return Ok(Some(Hit(bytes, metadata.mediaType)));
    }

    /** A metadata file too large to be read back is published all the same, and only then reported. */
    method Write(key: CacheKey, cacheability: Cacheability, mediaType: string, bytes: seq<byte>, directory: nat)
      returns (result: Result<(), CacheError>)
      requires Valid() && directory !in staging
      modifies this
      ensures Valid() && staging == old(staging)
      ensures result == PutResult(setup, old(entries), Put(key, cacheability, mediaType, bytes, Checking))
      ensures entries
           == PutEntries(setup, old(entries), Put(key, cacheability, mediaType, bytes, Checking))
    {
      if cacheability.NotCacheable? {
        return Err(Uncacheable);
      }
      var d := setup.keyDigest(key);
      if d in entries {
        assert Complete(setup, d, entries[d]);
        var hit := Read(key, None);
        result := Judge(hit, bytes);
        return;
      }
      staging := staging[directory := Directory(None, None)];
      staging := staging[directory := staging[directory].(value := Some(bytes))];
      var metadata := Metadata(key, setup.hash(bytes), |bytes|, mediaType);
      staging := staging[directory := staging[directory].(metadata := Some(metadata))];
      entries := entries[d := staging[directory]];
      staging := staging - {directory};
      assert staging == old(staging);
      var published := Read(key, None);
      result := Judge(published, bytes);
    }
  }
}
