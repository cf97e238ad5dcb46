/**
 * The Google Drive to Pinecone indexer (app.py): per-file indexing,
 * two-tier vector deletion and the update cycle over the processed-files
 * map `file id -> {modified, vectors, name}`.
 *
 * The Drive download, the PaLM embedding and the Pinecone index are
 * oracles of the request they receive (Services). The processed-files
 * JSON file is the `processed` field of a DriveIndexer; every save point
 * of the source is a write of that field.
 */
module DriveSync {
  import opened Indexing
  import Chunker

  const Namespace := "default"

  /** An entry of the Drive folder listing: `{id, name, modifiedTime}`. */
  datatype DriveFile = DriveFile(id: string, name: string, modifiedTime: string)

  datatype ChunkMetadata = ChunkMetadata(fileId: string, fileName: string, chunkIndex: nat, text: string)

  /** A request to the Pinecone index. */
  datatype IndexCall =
    | Upsert(id: string, values: Embedding, metadata: ChunkMetadata, namespace: string)
    | DeleteIds(ids: seq<string>, namespace: string)
    | DeleteFilter(fileId: string, namespace: string)

  /** Outcome of the Drive folder listing: an exception, or a result that may lack "files". */
  datatype Listing = ListingFailed(message: string) | Listed(files: Option<seq<DriveFile>>)

  /**
   * The external services as oracles. `download` gives the decoded
   * content, "" when the bytes are not UTF-8; `embed` gives None when the
   * response has no embedding; `index` says whether the call returned
   * (true) or raised (false).
   */
  datatype Services = Services(
    download: (string, string) -> string,
    embed: string -> Option<Embedding>,
    index: IndexCall -> bool)

  type Processed = map<string, Record<string>>

  /** Python's `a > b` on str: lexicographic by code point, a proper prefix being smaller. */
  predicate StrGreater(a: string, b: string): (r: bool)
    ensures b <= a ==> (r <==> a != b)
    ensures a <= b ==> !r
  {
    if b == [] then a != []
    else if a == [] then false
    else if a[0] != b[0] then a[0] > b[0]
    else StrGreater(a[1..], b[1..])
  }

  /** No timestamp is newer than itself. */
  lemma {:induction false} StrGreaterIrreflexive(a: string)
    ensures !StrGreater(a, a)
  {
    if a != [] {
      StrGreaterIrreflexive(a[1..]);
    }
  }

  /** String comparison is a strict total order: exactly one of a > b, b > a, a == b. */
  lemma {:induction false} StrGreaterTrichotomy(a: string, b: string)
    ensures a == b ==> !StrGreater(a, b) && !StrGreater(b, a)
    ensures a != b ==> StrGreater(a, b) != StrGreater(b, a)
  {
    if a == b {
      StrGreaterIrreflexive(a);
    } else if a != [] && b != [] && a[0] == b[0] {
      assert a[1..] != b[1..] by {
        assert a == [a[0]] + a[1..] && b == [b[0]] + b[1..];
      }
      StrGreaterTrichotomy(a[1..], b[1..]);
    }
  }

  lemma {:induction false} StrGreaterTransitive(a: string, b: string, c: string)
    requires StrGreater(a, b) && StrGreater(b, c)
    ensures StrGreater(a, c)
  {
    if c != [] && a[0] == b[0] && b[0] == c[0] {
      StrGreaterTransitive(a[1..], b[1..], c[1..]);
    }
  }

  /** `poll_drive_folder() or []`: the listing, with an exception read as an empty folder. */
  function PollDriveFolder(listing: Listing): (files: seq<DriveFile>)
    ensures listing.ListingFailed? ==> files == []
    ensures listing.Listed? && listing.files.Some? ==> files == listing.files.value
    ensures listing.Listed? && listing.files.None? ==> files == []
  {
    match listing
    case ListingFailed(_) => []
    case Listed(files) => if files.Some? then files.value else []
  }

  function CurrentIds(files: seq<DriveFile>): set<string>
  {
    set f | f in files :: f.id
  }

  predicate DistinctIds(files: seq<DriveFile>)
  {
    forall i, j :: 0 <= i < j < |files| ==> files[i].id != files[j].id
  }

  /** The chunks of a downloaded file, with the default window. */
  function Chunks(content: string): seq<string>
  {
    Chunker.Windows(content, Chunker.DefaultChunkSize, Chunker.DefaultOverlap)
  }

  /** The vector upserted for chunk i of file f, which embedded to e. */
  function UpsertOf(f: DriveFile, chunks: seq<string>, i: nat, e: Embedding): IndexCall
    requires i < |chunks|
  {
    Upsert(VectorId(f.id, i), e, ChunkMetadata(f.id, f.name, i, Preview(chunks[i])), Namespace)
  }

  /** The upserts attempted for the first n chunks, in order: one per chunk that embedded. */
  function UpsertCalls(svc: Services, f: DriveFile, chunks: seq<string>, n: nat): seq<IndexCall>
    requires n <= |chunks|
  {
    if n == 0 then []
    else
      var e := svc.embed(chunks[n - 1]);
      UpsertCalls(svc, f, chunks, n - 1) + (if e.Some? then [UpsertOf(f, chunks, n - 1, e.value)] else [])
  }

  /** The k-th upsert carries the k-th recorded vector ID. */
  lemma {:induction false} UpsertCallsIds(svc: Services, f: DriveFile, chunks: seq<string>, n: nat)
    requires n <= |chunks|
    ensures var calls := UpsertCalls(svc, f, chunks, n);
            var ids := IdsFor(f.id, EmbeddedIndices(chunks, svc.embed, n));
            |calls| == |ids| &&
            forall k :: 0 <= k < |ids| ==> calls[k].Upsert? && calls[k].id == ids[k]
  {
    if n > 0 {
      UpsertCallsIds(svc, f, chunks, n - 1);
      EmbeddedStep(f.id, chunks, svc.embed, n - 1);
    }
  }

  /** What `process_file` writes for f: nothing for empty content, else the record with every embedded chunk's ID. */
  function Indexed(svc: Services, f: DriveFile): Option<Record<string>>
  {
    var content := svc.download(f.id, f.name);
    if content == "" then None
    else
      var chunks := Chunks(content);
      Some(Record(f.modifiedTime, IdsFor(f.id, EmbeddedIndices(chunks, svc.embed, |chunks|)), f.name))
  }

  /** Indexed and IndexingCalls for a download that gave `content`. */
  lemma IndexedUnfold(svc: Services, f: DriveFile)
    ensures var content := svc.download(f.id, f.name);
            var chunks := Chunks(content);
            if content == "" then Indexed(svc, f).None? && IndexingCalls(svc, f) == []
            else Indexed(svc, f) == Some(Record(f.modifiedTime, IdsFor(f.id, EmbeddedIndices(chunks, svc.embed, |chunks|)), f.name)) &&
                 IndexingCalls(svc, f) == UpsertCalls(svc, f, chunks, |chunks|)
  {
  }

  /** The index calls `process_file` makes for f. */
  function IndexingCalls(svc: Services, f: DriveFile): seq<IndexCall>
  {
    var content := svc.download(f.id, f.name);
    if content == "" then []
    else
      var chunks := Chunks(content);
      UpsertCalls(svc, f, chunks, |chunks|)
  }

  /**
   * The recorded vector IDs are exactly the IDs of the attempted upserts,
   * in the same order, whatever the index answered: a failed upsert
   * neither stops the loop nor drops its ID.
   */
  lemma RecordedIdsAreUpsertAttempts(svc: Services, f: DriveFile)
    requires Indexed(svc, f).Some?
    ensures var ids := Indexed(svc, f).value.vectors;
            var calls := IndexingCalls(svc, f);
            |calls| == |ids| &&
            forall k :: 0 <= k < |ids| ==> calls[k].Upsert? && calls[k].id == ids[k]
    ensures forall other: IndexCall -> bool :: Indexed(svc.(index := other), f) == Indexed(svc, f)
  {
    var chunks := Chunks(svc.download(f.id, f.name));
    UpsertCallsIds(svc, f, chunks, |chunks|);
  }

  /** `processed.get(file_id, {}).get('vectors')`, with a missing record read as no vectors. */
  function StoredVectors(p: Processed, fileId: string): seq<string>
  {
    if fileId in p then p[fileId].vectors else []
  }

  /** The verdict of `delete_vectors`: ID deletion when there are stored IDs, else or on failure the metadata filter. */
  predicate DeleteSucceeds(svc: Services, fileId: string, stored: seq<string>)
  {
    (stored != [] && svc.index(DeleteIds(stored, Namespace))) || svc.index(DeleteFilter(fileId, Namespace))
  }

  /** The index calls `delete_vectors` makes. */
  function DeleteCalls(svc: Services, fileId: string, stored: seq<string>): seq<IndexCall>
  {
    if stored != [] && svc.index(DeleteIds(stored, Namespace)) then [DeleteIds(stored, Namespace)]
    else if stored != [] then [DeleteIds(stored, Namespace), DeleteFilter(fileId, Namespace)]
    else [DeleteFilter(fileId, Namespace)]
  }

  /**
   * Deletion makes one or two requests: the ID deletion when there are
   * stored IDs, and the filter deletion exactly when there are none or the
   * ID deletion raised. Its verdict is the answer to the last request.
   */
  lemma DeleteVerdictIsLastCall(svc: Services, fileId: string, stored: seq<string>)
    ensures var calls := DeleteCalls(svc, fileId, stored);
            1 <= |calls| <= 2 &&
            DeleteSucceeds(svc, fileId, stored) == svc.index(calls[|calls| - 1]) &&
            (DeleteFilter(fileId, Namespace) in calls <==> stored == [] || !svc.index(DeleteIds(stored, Namespace))) &&
            (DeleteIds(stored, Namespace) in calls <==> stored != [])
  {
  }

  /** The stored files that the removal pass drops: gone from the listing and deleted from the index. */
  function Removed(svc: Services, p: Processed, currentIds: set<string>): set<string>
  {
    set k | k in p && k !in currentIds && DeleteSucceeds(svc, k, p[k].vectors)
  }

  /** The processed map after the removal pass. */
  function AfterRemoval(svc: Services, p: Processed, currentIds: set<string>): (r: Processed)
    ensures r.Keys <= p.Keys
    ensures forall k :: k in r ==> r[k] == p[k]
    ensures forall k :: k in p ==> (k !in r <==> k !in currentIds && DeleteSucceeds(svc, k, p[k].vectors))
  {
    p - Removed(svc, p, currentIds)
  }

  /** A listed file is (re)processed when it has no record or its modifiedTime is strictly newer. */
  predicate NeedsProcessing(snapshot: Processed, f: DriveFile)
  {
    f.id !in snapshot || StrGreater(f.modifiedTime, snapshot[f.id].modified)
  }

  /** A file whose record carries its current modifiedTime is not reprocessed. */
  lemma UnchangedNotReprocessed(snapshot: Processed, f: DriveFile)
    requires f.id in snapshot && snapshot[f.id].modified == f.modifiedTime
    ensures !NeedsProcessing(snapshot, f)
  {
    StrGreaterIrreflexive(f.modifiedTime);
  }

  /** What `process_file` writes for each file, under the given services. */
  function Outcome(svc: Services): DriveFile -> Option<Record<string>>
  {
    f => Indexed(svc, f)
  }

  /** A file that is processed is recorded with its own modifiedTime. */
  ghost predicate Stamps(outcome: DriveFile -> Option<Record<string>>)
  {
    forall f :: outcome(f).Some? ==> outcome(f).value.modified == f.modifiedTime
  }

  lemma OutcomeStamps(svc: Services)
    ensures Stamps(Outcome(svc))
  {
    forall f | Outcome(svc)(f).Some?
      ensures Outcome(svc)(f).value.modified == f.modifiedTime
    {
      assert Outcome(svc)(f) == Indexed(svc, f);
    }
  }

  /** The effect of one step of the upsert pass on the store, when processing a file writes `outcome(f)`. */
  function Apply(outcome: DriveFile -> Option<Record<string>>, snapshot: Processed, f: DriveFile, store: Processed): Processed
  {
    if NeedsProcessing(snapshot, f) && outcome(f).Some? then store[f.id := outcome(f).value]
    else store
  }

  /** The upsert pass over the listing; decisions read `snapshot`, writes go to the store. */
  function UpsertPass(outcome: DriveFile -> Option<Record<string>>, snapshot: Processed, files: seq<DriveFile>, store: Processed): Processed
  {
    if files == [] then store
    else Apply(outcome, snapshot, files[|files| - 1], UpsertPass(outcome, snapshot, files[..|files| - 1], store))
  }

  /** The index calls of one step of the upsert pass. */
  function StepCalls(svc: Services, snapshot: Processed, f: DriveFile): seq<IndexCall>
  {
    if NeedsProcessing(snapshot, f) then IndexingCalls(svc, f) else []
  }

  /** The index calls of the upsert pass. */
  function UpsertPassCalls(svc: Services, snapshot: Processed, files: seq<DriveFile>): seq<IndexCall>
  {
    if files == [] then []
    else UpsertPassCalls(svc, snapshot, files[..|files| - 1]) + StepCalls(svc, snapshot, files[|files| - 1])
  }

  /**
   * Reprocessing a file only upserts: the upsert pass sends no deletion,
   * so the vectors of chunk indices beyond a shrunk file's new chunk
   * count stay in the index.
   */
  lemma {:induction false} UpsertPassOnlyUpserts(svc: Services, snapshot: Processed, files: seq<DriveFile>)
    ensures forall c :: c in UpsertPassCalls(svc, snapshot, files) ==> c.Upsert?
  {
    if files != [] {
      var f := files[|files| - 1];
      UpsertPassOnlyUpserts(svc, snapshot, files[..|files| - 1]);
      var chunks := Chunks(svc.download(f.id, f.name));
      UpsertCallsIds(svc, f, chunks, |chunks|);
    }
  }

  /** The upsert pass over files[..i + 1] is the pass over files[..i] followed by file i. */
  lemma UpsertPassStep(svc: Services, snapshot: Processed, files: seq<DriveFile>, store: Processed, i: nat)
    requires i < |files|
    ensures UpsertPass(Outcome(svc), snapshot, files[..i + 1], store)
            == Apply(Outcome(svc), snapshot, files[i], UpsertPass(Outcome(svc), snapshot, files[..i], store))
    ensures UpsertPassCalls(svc, snapshot, files[..i + 1]) == UpsertPassCalls(svc, snapshot, files[..i]) + StepCalls(svc, snapshot, files[i])
  {
    assert files[..i + 1][..i] == files[..i];
  }

  /** One `update_files` cycle on the processed map. */
  function Cycle(svc: Services, listing: Listing, p: Processed): Processed
  {
    var files := PollDriveFolder(listing);
    var kept := AfterRemoval(svc, p, CurrentIds(files));
    UpsertPass(Outcome(svc), kept, files, kept)
  }

  /** A step for one file leaves every other key alone. */
  lemma ApplyElsewhere(outcome: DriveFile -> Option<Record<string>>, snapshot: Processed, f: DriveFile, store: Processed, key: string)
    requires f.id != key
    ensures Lookup(Apply(outcome, snapshot, f, store), key) == Lookup(store, key)
  {
  }

  /**
   * With distinct file IDs the upsert pass decides each entry on its own:
   * a listed file's entry is what its own step makes of it, and an
   * unlisted key keeps its entry.
   */
  lemma {:induction false} UpsertPassAt(outcome: DriveFile -> Option<Record<string>>, snapshot: Processed, files: seq<DriveFile>, store: Processed, key: string)
    requires DistinctIds(files)
    ensures forall i :: 0 <= i < |files| && files[i].id == key ==>
              Lookup(UpsertPass(outcome, snapshot, files, store), key) == Lookup(Apply(outcome, snapshot, files[i], store), key)
    ensures (forall i :: 0 <= i < |files| ==> files[i].id != key) ==>
              Lookup(UpsertPass(outcome, snapshot, files, store), key) == Lookup(store, key)
  {
    if files != [] {
      var prefix := files[..|files| - 1];
      var last := files[|files| - 1];
      assert DistinctIds(prefix);
      UpsertPassAt(outcome, snapshot, prefix, store, key);
      if last.id == key {
        assert forall i :: 0 <= i < |prefix| ==> prefix[i].id != key;
      } else {
        ApplyElsewhere(outcome, snapshot, last, UpsertPass(outcome, snapshot, prefix, store), key);
        assert forall i :: 0 <= i < |files| && files[i].id == key ==> i < |prefix| && prefix[i] == files[i];
      }
    }
  }

  /** Over a listing where no file has a pending change, the upsert pass sends nothing. */
  lemma {:induction false} QuietPass(svc: Services, snapshot: Processed, files: seq<DriveFile>)
    requires forall i :: 0 <= i < |files| ==> StepCalls(svc, snapshot, files[i]) == []
    ensures UpsertPassCalls(svc, snapshot, files) == []
  {
    if files != [] {
      QuietPass(svc, snapshot, files[..|files| - 1]);
    }
  }

  /**
   * Reprocessing is incremental: a second cycle over the same listing, with
   * services that answer alike, sends no upsert, since every listed file is
   * either recorded with its current modifiedTime or downloads as empty.
   */
  lemma SecondCycleReindexesNothing(svc: Services, listing: Listing, p: Processed)
    requires DistinctIds(PollDriveFolder(listing))
    ensures var files := PollDriveFolder(listing);
            var q := Cycle(svc, listing, p);
            UpsertPassCalls(svc, AfterRemoval(svc, q, CurrentIds(files)), files) == []
  {
    var files := PollDriveFolder(listing);
    var kept := AfterRemoval(svc, p, CurrentIds(files));
    var q := UpsertPass(Outcome(svc), kept, files, kept);
    OutcomeStamps(svc);
    PassesSettle(svc, Outcome(svc), files, p);
    forall i | 0 <= i < |files|
      ensures StepCalls(svc, q, files[i]) == []
    {
      var f := files[i];
      UpsertPassAt(Outcome(svc), kept, files, kept, f.id);
      IndexedUnfold(svc, f);
      assert Outcome(svc)(f) == Indexed(svc, f);
      if NeedsProcessing(kept, f) && Indexed(svc, f).Some? {
        assert Lookup(q, f.id) == Some(Indexed(svc, f).value);
        UnchangedNotReprocessed(q, f);
      } else if !NeedsProcessing(kept, f) {
        assert Lookup(q, f.id) == Lookup(kept, f.id);
      }
    }
    QuietPass(svc, q, files);
  }

  /** An unreadable listing looks like an empty folder: every stored file whose vectors can be deleted is dropped. */
  lemma ListingFailureRemovesAll(svc: Services, message: string, p: Processed)
    ensures forall k :: k in p ==> (k in Cycle(svc, ListingFailed(message), p) <==> !DeleteSucceeds(svc, k, p[k].vectors))
    ensures Cycle(svc, ListingFailed(message), p).Keys <= p.Keys
  {
    assert PollDriveFolder(ListingFailed(message)) == [];
  }

  /**
   * After one cycle with an outcome that stamps each record with its
   * file's modifiedTime, a second removal pass and upsert pass over the
   * same listing change nothing.
   */
  lemma PassesSettle(svc: Services, outcome: DriveFile -> Option<Record<string>>, files: seq<DriveFile>, p: Processed)
    requires DistinctIds(files) && Stamps(outcome)
    ensures var ids := CurrentIds(files);
            var kept := AfterRemoval(svc, p, ids);
            var q := UpsertPass(outcome, kept, files, kept);
            AfterRemoval(svc, q, ids) == q && UpsertPass(outcome, q, files, q) == q
  {
    var ids := CurrentIds(files);
    var kept := AfterRemoval(svc, p, ids);
    var q := UpsertPass(outcome, kept, files, kept);
    // The upsert pass writes listed IDs only, so unlisted entries of q are those of kept.
    forall k | k !in ids
      ensures Lookup(q, k) == Lookup(kept, k)
    {
      UpsertPassAt(outcome, kept, files, kept, k);
    }
    // Nothing in q is removed: a listed entry stays, an unlisted one already failed deletion.
    LookupExtensional(AfterRemoval(svc, q, ids), q);
    // Every listed file now has no pending change.
    forall k ensures Lookup(UpsertPass(outcome, q, files, q), k) == Lookup(q, k) {
      UpsertPassAt(outcome, q, files, q, k);
      UpsertPassAt(outcome, kept, files, kept, k);
      forall i | 0 <= i < |files| && files[i].id == k
        ensures Lookup(Apply(outcome, q, files[i], q), k) == Lookup(q, k)
      {
        var f := files[i];
        if NeedsProcessing(kept, f) && outcome(f).Some? {
          UnchangedNotReprocessed(q, f);
        } else if !NeedsProcessing(kept, f) {
          assert q[k] == kept[k];
        }
      }
    }
    LookupExtensional(UpsertPass(outcome, q, files, q), q);
  }

  /**
   * A second cycle over the same listing, with services that answer the
   * same requests the same way, leaves the processed map as the first
   * cycle left it.
   */
  lemma CycleIdempotent(svc: Services, listing: Listing, p: Processed)
    requires DistinctIds(PollDriveFolder(listing))
    ensures Cycle(svc, listing, Cycle(svc, listing, p)) == Cycle(svc, listing, p)
  {
    OutcomeStamps(svc);
    PassesSettle(svc, Outcome(svc), PollDriveFolder(listing), p);
  }

  /** The processed-files store of the Drive indexer, with the index calls it has made. */
  class DriveIndexer {
    var processed: Processed
    ghost var calls: seq<IndexCall>

    /** `load_processed_files()` */
    constructor(stored: Processed)
      ensures processed == stored && calls == []
    {
      processed := stored;
      calls := [];
    }

    /** `process_file`: download, split, embed and upsert each chunk, then overwrite the file's record. */
    method ProcessFile(svc: Services, f: DriveFile)
      modifies this
      ensures processed == if Indexed(svc, f).Some? then old(processed)[f.id := Indexed(svc, f).value] else old(processed)
      ensures calls == old(calls) + IndexingCalls(svc, f)
    {
      IndexedUnfold(svc, f);
      var content := svc.download(f.id, f.name);
      if content == "" {
        return;
      }
      var chunks := Chunker.SplitText(content, Chunker.DefaultChunkSize, Chunker.DefaultOverlap);
      var vectorIds := EmbedAndUpsert(svc, f, chunks);
      processed := processed[f.id := Record(f.modifiedTime, vectorIds, f.name)];
    }

    /** Step 3 of `process_file`: the loop over the chunks. */
    method EmbedAndUpsert(svc: Services, f: DriveFile, chunks: seq<string>) returns (vectorIds: seq<string>)
      modifies this`calls
      ensures vectorIds == IdsFor(f.id, EmbeddedIndices(chunks, svc.embed, |chunks|))
      ensures calls == old(calls) + UpsertCalls(svc, f, chunks, |chunks|)
    {
      vectorIds := [];
      for i := 0 to |chunks|
        invariant vectorIds == IdsFor(f.id, EmbeddedIndices(chunks, svc.embed, i))
        invariant calls == old(calls) + UpsertCalls(svc, f, chunks, i)
      {
        var embedding := svc.embed(chunks[i]);
        EmbeddedStep(f.id, chunks, svc.embed, i);
        if embedding.None? {
          continue;
        }
        var vectorId := VectorId(f.id, i);
        vectorIds := vectorIds + [vectorId];
        // The ID is recorded before the upsert; whether svc.index accepts it is only logged.
        var request := Upsert(vectorId, embedding.value, ChunkMetadata(f.id, f.name, i, Preview(chunks[i])), Namespace);
        calls := calls + [request];
      }
    }

    /** `delete_vectors`: stored IDs first, then the metadata filter; never touches the map. */
    method DeleteVectors(svc: Services, fileId: string) returns (ok: bool)
      modifies this`calls
      ensures processed == old(processed)
      ensures ok == DeleteSucceeds(svc, fileId, StoredVectors(processed, fileId))
      ensures calls == old(calls) + DeleteCalls(svc, fileId, StoredVectors(processed, fileId))
    {
      var stored := StoredVectors(processed, fileId);
      if stored != [] {
        var byIds := DeleteIds(stored, Namespace);
        calls := calls + [byIds];
        if svc.index(byIds) {
          return true;
        }
      }
      var byFilter := DeleteFilter(fileId, Namespace);
      calls := calls + [byFilter];
      ok := svc.index(byFilter);
    }

    /** `update_files`: the removal pass, then the upsert pass over the listing. */
    method UpdateFiles(svc: Services, listing: Listing)
      modifies this
      ensures processed == Cycle(svc, listing, old(processed))
      ensures var up := UpsertPassCalls(svc, AfterRemoval(svc, old(processed), CurrentIds(PollDriveFolder(listing))), PollDriveFolder(listing));
              old(calls) <= calls && |old(calls)| + |up| <= |calls| && calls[|calls| - |up|..] == up
    {
      var currentFiles := PollDriveFolder(listing);
      var currentIds := CurrentIds(currentFiles);
      RemoveGoneFiles(svc, currentIds);
      ghost var mid := calls;
      UpsertListedFiles(svc, currentFiles);
      assert calls[|mid|..] == calls[|calls| - (|calls| - |mid|)..];
    }

    /** Step 1 of `update_files`: drop each record whose file is gone and whose vectors were deleted. */
    method RemoveGoneFiles(svc: Services, currentIds: set<string>)
      modifies this
      ensures processed == AfterRemoval(svc, old(processed), currentIds)
      ensures old(calls) <= calls
    {
      ghost var before := processed;
      ghost var removed := Removed(svc, before, currentIds);
      var pending := processed.Keys;
      while pending != {}
        invariant pending <= before.Keys
        invariant processed == before - (removed - pending)
        invariant old(calls) <= calls
        decreases pending
      {
        var fileId :| fileId in pending;
        pending := pending - {fileId};
        if fileId !in currentIds {
          assert fileId in processed && processed[fileId] == before[fileId];
          var ok := DeleteVectors(svc, fileId);
          if ok {
            processed := processed - {fileId};
          }
        }
      }
    }

    /** Step 2 of `update_files`: (re)process each listed file that is new or newer than the map before this step. */
    method UpsertListedFiles(svc: Services, currentFiles: seq<DriveFile>)
      modifies this
      ensures processed == UpsertPass(Outcome(svc), old(processed), currentFiles, old(processed))
      ensures calls == old(calls) + UpsertPassCalls(svc, old(processed), currentFiles)
    {
      var snapshot := processed;
      ghost var trace := [];
      for i := 0 to |currentFiles|
        invariant processed == UpsertPass(Outcome(svc), snapshot, currentFiles[..i], snapshot)
        invariant trace == UpsertPassCalls(svc, snapshot, currentFiles[..i])
        invariant calls == old(calls) + trace
      {
        UpsertPassStep(svc, snapshot, currentFiles, snapshot, i);
        ghost var step := StepCalls(svc, snapshot, currentFiles[i]);
        ProcessIfChanged(svc, snapshot, currentFiles[i]);
        trace := trace + step;
      }
      assert currentFiles[..|currentFiles|] == currentFiles;
    }

    /** One turn of step 2: a new or newer file is processed again. */
    method ProcessIfChanged(svc: Services, snapshot: Processed, f: DriveFile)
      modifies this
      ensures processed == Apply(Outcome(svc), snapshot, f, old(processed))
      ensures calls == old(calls) + StepCalls(svc, snapshot, f)
    {
      var existing := Lookup(snapshot, f.id);
      if existing.None? || StrGreater(f.modifiedTime, existing.value.modified) {
        ProcessFile(svc, f);
      }
    }
  }
}
