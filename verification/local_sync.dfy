/**
 * The local-folder to ChromaDB indexer (local-rag/app.py): the ".txt"
 * listing of the documents folder, per-file indexing keyed by file name,
 * single-tier deletion by metadata filter, and the update cycle that
 * sends a deletion request for a file, ignoring its result, before
 * reindexing it.
 *
 * The file system, the SentenceTransformer embedding and the Chroma
 * collection are oracles of the request they receive (Services); the
 * documents folder is the sequence of its directory entries, in listing
 * order. The processed-files JSON file is the `processed` field of a
 * LocalIndexer; every save point of the source is a write of that field.
 */
module LocalSync {
  import opened Indexing
  import Chunker

  /** The folder the indexer watches, as joined with a file name. */
  const Folder := "documents/"
  const TxtSuffix := ".txt"

  /** An entry of `os.listdir("documents/")`: its name and whether it is a regular file. */
  datatype DirEntry = DirEntry(name: string, isFile: bool)

  /** An element of `list_local_files()`: `{path, name, modified}`. */
  datatype LocalFile = LocalFile(path: string, name: string, modified: int)

  datatype ChunkMetadata = ChunkMetadata(fileName: string, chunkIndex: nat, text: string)

  /** A request to the Chroma collection. */
  datatype CollectionCall =
    | Add(id: string, embedding: Embedding, metadata: ChunkMetadata, document: string)
    | DeleteWhere(fileName: string)

  /**
   * The external services as oracles. `read` gives the file's text, None
   * when opening or decoding raises; `mtime` is `os.path.getmtime` of a
   * path; `embed` gives None when encoding raises; `collection` says
   * whether the call returned (true) or raised (false).
   */
  datatype Services = Services(
    read: string -> Option<string>,
    mtime: string -> int,
    embed: string -> Option<Embedding>,
    collection: CollectionCall -> bool)

  type Processed = map<string, Record<int>>

  /** `s.endswith(suffix)` */
  predicate EndsWith(s: string, suffix: string)
  {
    |suffix| <= |s| && s[|s| - |suffix|..] == suffix
  }

  /** `os.path.join("documents/", name)` for a name that is not an absolute path. */
  function PathOf(name: string): string
  {
    Folder + name
  }

  /** The index just after the last '/' of the path, 0 when there is none. */
  function SlashEnd(path: string): (i: nat)
    ensures i <= |path|
  {
    if path == [] then 0
    else if path[|path| - 1] == '/' then |path|
    else SlashEnd(path[..|path| - 1])
  }

  /** `os.path.basename(path)`: everything after the last '/'. */
  function Basename(path: string): string
  {
    path[SlashEnd(path)..]
  }

  /** The basename is the suffix of the path that holds no '/' and follows a '/' or starts the path. */
  lemma {:induction false} BasenameIsLastComponent(path: string)
    ensures var i := SlashEnd(path);
            '/' !in Basename(path) && (i == 0 || path[i - 1] == '/')
  {
    if path != [] && path[|path| - 1] != '/' {
      var init := path[..|path| - 1];
      BasenameIsLastComponent(init);
      assert Basename(path) == Basename(init) + [path[|path| - 1]];
    }
  }

  /** A name without '/' after a folder prefix ending in '/' is its own basename. */
  lemma {:induction false} BasenameOfName(prefix: string, name: string)
    requires '/' !in name
    requires prefix == [] || prefix[|prefix| - 1] == '/'
    ensures SlashEnd(prefix + name) == |prefix|
    ensures Basename(prefix + name) == name
  {
    if name != [] {
      var init := name[..|name| - 1];
      assert (prefix + name)[..|prefix + name| - 1] == prefix + init;
      BasenameOfName(prefix, init);
    } else {
      assert prefix + name == prefix;
    }
  }

  /** The file a listed name is read from is keyed by that name again. */
  lemma BasenameOfPath(name: string)
    requires '/' !in name
    ensures Basename(PathOf(name)) == name
  {
    BasenameOfName(Folder, name);
  }

  /** `os.path.exists(os.path.join("documents/", name))` for any kind of entry. */
  predicate PathExists(entries: seq<DirEntry>, name: string): (r: bool)
    ensures r <==> exists e :: e in entries && e.name == name
  {
    name in Names(entries)
  }

  function Names(entries: seq<DirEntry>): set<string>
  {
    set e | e in entries :: e.name
  }

  /** The listing entry made for a directory entry. */
  function ListedFile(svc: Services, e: DirEntry): LocalFile
  {
    LocalFile(PathOf(e.name), e.name, svc.mtime(PathOf(e.name)))
  }

  predicate IsTxtFile(e: DirEntry)
  {
    e.isFile && EndsWith(e.name, TxtSuffix)
  }

  /** `list_local_files()`: the regular files ending in ".txt", in listing order. */
  function TxtFiles(svc: Services, entries: seq<DirEntry>): seq<LocalFile>
  {
    if entries == [] then []
    else
      var e := entries[|entries| - 1];
      TxtFiles(svc, entries[..|entries| - 1]) + (if IsTxtFile(e) then [ListedFile(svc, e)] else [])
  }

  /**
   * The listing is a filter: each listed file comes from a regular ".txt"
   * entry, in the same order, and every regular ".txt" entry is listed.
   */
  lemma {:induction false} TxtFilesExact(svc: Services, entries: seq<DirEntry>)
    ensures forall f :: f in TxtFiles(svc, entries) ==> exists e :: e in entries && IsTxtFile(e) && f == ListedFile(svc, e)
    ensures forall e :: e in entries && IsTxtFile(e) ==> ListedFile(svc, e) in TxtFiles(svc, entries)
    ensures |TxtFiles(svc, entries)| <= |entries|
  {
    if entries != [] {
      var init := entries[..|entries| - 1];
      var last := entries[|entries| - 1];
      TxtFilesExact(svc, init);
      assert entries == init + [last];
      assert TxtFiles(svc, entries) == TxtFiles(svc, init) + (if IsTxtFile(last) then [ListedFile(svc, last)] else []);
    }
  }

  /** `list_local_files`: the loop over the directory entries. */
  method ListLocalFiles(svc: Services, entries: seq<DirEntry>) returns (files: seq<LocalFile>)
    ensures files == TxtFiles(svc, entries)
  {
    files := [];
    for i := 0 to |entries|
      invariant files == TxtFiles(svc, entries[..i])
    {
      assert entries[..i + 1][..i] == entries[..i];
      var e := entries[i];
      var path := PathOf(e.name);
      if e.isFile && EndsWith(e.name, TxtSuffix) {
        files := files + [LocalFile(path, e.name, svc.mtime(path))];
      }
    }
    assert entries[..|entries|] == entries;
  }

  /** Directory entries have distinct names, none containing '/'. */
  predicate WellFormedFolder(entries: seq<DirEntry>)
  {
    (forall e :: e in entries ==> '/' !in e.name) &&
    (forall i, j :: 0 <= i < j < |entries| ==> entries[i].name != entries[j].name)
  }

  /** Each listed file is read from a path whose basename is its name. */
  predicate KeyedByName(files: seq<LocalFile>)
  {
    forall f :: f in files ==> Basename(f.path) == f.name
  }

  /** Processing a listed file writes a record named after the file. */
  ghost predicate NamesRecords(outcome: string -> Option<Record<int>>, files: seq<LocalFile>)
  {
    forall f :: f in files && outcome(f.path).Some? ==> outcome(f.path).value.name == f.name
  }

  predicate DistinctNames(files: seq<LocalFile>)
  {
    forall i, j :: 0 <= i < j < |files| ==> files[i].name != files[j].name
  }

  /** Every listed file of a folder of '/'-free names is read from the path its name is keyed by, with that path's mtime. */
  lemma ListedFilesKeyed(svc: Services, entries: seq<DirEntry>)
    requires forall e :: e in entries ==> '/' !in e.name
    ensures KeyedByName(TxtFiles(svc, entries))
    ensures forall f :: f in TxtFiles(svc, entries) ==> PathExists(entries, f.name) && f.modified == svc.mtime(f.path)
  {
    TxtFilesExact(svc, entries);
    forall f | f in TxtFiles(svc, entries)
      ensures Basename(f.path) == f.name && PathExists(entries, f.name) && f.modified == svc.mtime(f.path)
    {
      var e :| e in entries && IsTxtFile(e) && f == ListedFile(svc, e);
      BasenameOfPath(e.name);
    }
  }

  /** A folder whose entries have distinct names lists files with distinct names. */
  lemma {:induction false} ListingDistinct(svc: Services, entries: seq<DirEntry>)
    requires forall i, j :: 0 <= i < j < |entries| ==> entries[i].name != entries[j].name
    ensures DistinctNames(TxtFiles(svc, entries))
  {
    if entries != [] {
      var init := entries[..|entries| - 1];
      var last := entries[|entries| - 1];
      ListingDistinct(svc, init);
      TxtFilesExact(svc, init);
      var prev := TxtFiles(svc, init);
      forall k | 0 <= k < |prev|
        ensures prev[k].name != last.name
      {
        assert prev[k] in prev;
        var e :| e in init && IsTxtFile(e) && prev[k] == ListedFile(svc, e);
        var j :| 0 <= j < |init| && init[j] == e;
        assert entries[j] == e;
      }
      assert TxtFiles(svc, entries) == prev + (if IsTxtFile(last) then [ListedFile(svc, last)] else []);
    }
  }

  /** `read_local_file`: the text of the file, "" when reading raises. */
  function ReadLocalFile(svc: Services, path: string): (content: string)
    ensures svc.read(path).None? ==> content == ""
  {
    match svc.read(path)
    case None => ""
    case Some(text) => text
  }

  /** The chunks of a file's text, with the default window. */
  function Chunks(content: string): seq<string>
  {
    Chunker.Windows(content, Chunker.DefaultChunkSize, Chunker.DefaultOverlap)
  }

  /** The vector added for chunk i of the file named `name`, which embedded to e. */
  function AddOf(name: string, chunks: seq<string>, i: nat, e: Embedding): CollectionCall
    requires i < |chunks|
  {
    Add(VectorId(name, i), e, ChunkMetadata(name, i, Preview(chunks[i])), chunks[i])
  }

  /** The adds attempted for the first n chunks, in order: one per chunk that embedded. */
  function AddCalls(svc: Services, name: string, chunks: seq<string>, n: nat): seq<CollectionCall>
    requires n <= |chunks|
  {
    if n == 0 then []
    else
      var e := svc.embed(chunks[n - 1]);
      AddCalls(svc, name, chunks, n - 1) + (if e.Some? then [AddOf(name, chunks, n - 1, e.value)] else [])
  }

  /** The k-th add carries the k-th recorded vector ID and stores its whole chunk as the document. */
  lemma {:induction false} AddCallsIds(svc: Services, name: string, chunks: seq<string>, n: nat)
    requires n <= |chunks|
    ensures var calls := AddCalls(svc, name, chunks, n);
            var idx := EmbeddedIndices(chunks, svc.embed, n);
            var ids := IdsFor(name, idx);
            |calls| == |ids| == |idx| &&
            forall k :: 0 <= k < |ids| ==>
              idx[k] < |chunks| && calls[k].Add? && calls[k].id == ids[k] && calls[k].document == chunks[idx[k]]
  {
    if n > 0 {
      AddCallsIds(svc, name, chunks, n - 1);
      EmbeddedStep(name, chunks, svc.embed, n - 1);
      var prev := AddCalls(svc, name, chunks, n - 1);
      var done := EmbeddedIndices(chunks, svc.embed, n - 1);
      var e := svc.embed(chunks[n - 1]);
      if e.Some? {
        var calls := AddCalls(svc, name, chunks, n);
        var idx := done + [n - 1];
        var ids := IdsFor(name, done) + [VectorId(name, n - 1)];
        assert calls == prev + [AddOf(name, chunks, n - 1, e.value)];
        forall k | 0 <= k < |ids|
          ensures idx[k] < |chunks| && calls[k].Add? && calls[k].id == ids[k] && calls[k].document == chunks[idx[k]]
        {
          if k < |prev| {
            assert calls[k] == prev[k] && idx[k] == done[k] && ids[k] == IdsFor(name, done)[k];
          }
        }
      }
    }
  }

  /** What `process_file(path)` writes under the path's basename: nothing for empty or unreadable content. */
  function Indexed(svc: Services, path: string): Option<Record<int>>
  {
    var name := Basename(path);
    var content := ReadLocalFile(svc, path);
    if content == "" then None
    else
      var chunks := Chunks(content);
      Some(Record(svc.mtime(path), IdsFor(name, EmbeddedIndices(chunks, svc.embed, |chunks|)), name))
  }

  /** Indexed and IndexingCalls for a read that gave `content`. */
  lemma IndexedUnfold(svc: Services, path: string)
    ensures var content := ReadLocalFile(svc, path);
            var chunks := Chunks(content);
            var name := Basename(path);
            if content == "" then Indexed(svc, path).None? && IndexingCalls(svc, path) == []
            else Indexed(svc, path) == Some(Record(svc.mtime(path), IdsFor(name, EmbeddedIndices(chunks, svc.embed, |chunks|)), name)) &&
                 IndexingCalls(svc, path) == AddCalls(svc, name, chunks, |chunks|)
  {
  }

  /** The collection calls `process_file(path)` makes. */
  function IndexingCalls(svc: Services, path: string): seq<CollectionCall>
  {
    var content := ReadLocalFile(svc, path);
    if content == "" then []
    else
      var chunks := Chunks(content);
      AddCalls(svc, Basename(path), chunks, |chunks|)
  }

  /**
   * The recorded vector IDs are exactly the IDs of the attempted adds, in
   * order, whatever the collection answered; the record carries the
   * file's name and its modification time.
   */
  lemma RecordedIdsAreAddAttempts(svc: Services, path: string)
    requires Indexed(svc, path).Some?
    ensures var r := Indexed(svc, path).value;
            var calls := IndexingCalls(svc, path);
            r.name == Basename(path) && r.modified == svc.mtime(path) &&
            |calls| == |r.vectors| &&
            forall k :: 0 <= k < |calls| ==> calls[k].Add? && calls[k].id == r.vectors[k]
    ensures forall other: CollectionCall -> bool :: Indexed(svc.(collection := other), path) == Indexed(svc, path)
  {
    var chunks := Chunks(ReadLocalFile(svc, path));
    AddCallsIds(svc, Basename(path), chunks, |chunks|);
  }

  /** The stored files that the removal pass drops: missing from the folder and deleted from the collection. */
  function Removed(svc: Services, entries: seq<DirEntry>, p: Processed): set<string>
  {
    set k | k in p && !PathExists(entries, k) && svc.collection(DeleteWhere(k))
  }

  /** The processed map after the removal pass. */
  function AfterRemoval(svc: Services, entries: seq<DirEntry>, p: Processed): (r: Processed)
    ensures r.Keys <= p.Keys
    ensures forall k :: k in r ==> r[k] == p[k]
    ensures forall k :: k in p ==> (k !in r <==> !PathExists(entries, k) && svc.collection(DeleteWhere(k)))
  {
    p - Removed(svc, entries, p)
  }

  /** A listed file is reindexed when it has no record or its modification time is strictly later. */
  predicate NeedsProcessing(snapshot: Processed, f: LocalFile)
  {
    f.name !in snapshot || f.modified > snapshot[f.name].modified
  }

  /** What `process_file` writes for each path, under the given services. */
  function Outcome(svc: Services): string -> Option<Record<int>>
  {
    path => Indexed(svc, path)
  }

  /** A file that is processed is recorded with its modification time. */
  ghost predicate Stamps(outcome: string -> Option<Record<int>>, mtime: string -> int)
  {
    forall path :: outcome(path).Some? ==> outcome(path).value.modified == mtime(path)
  }

  lemma OutcomeStamps(svc: Services)
    ensures Stamps(Outcome(svc), svc.mtime)
  {
    forall path | Outcome(svc)(path).Some?
      ensures Outcome(svc)(path).value.modified == svc.mtime(path)
    {
      assert Outcome(svc)(path) == Indexed(svc, path);
    }
  }

  /**
   * The effect of one step of the upsert pass on the store, when processing
   * a path writes the record `outcome(path)` under the record's name; the
   * deletion before it does not touch the store.
   */
  function Apply(outcome: string -> Option<Record<int>>, snapshot: Processed, f: LocalFile, store: Processed): Processed
  {
    if NeedsProcessing(snapshot, f) && outcome(f.path).Some? then store[outcome(f.path).value.name := outcome(f.path).value]
    else store
  }

  /** The upsert pass over the listing; decisions read `snapshot`, writes go to the store. */
  function UpsertPass(outcome: string -> Option<Record<int>>, snapshot: Processed, files: seq<LocalFile>, store: Processed): Processed
  {
    if files == [] then store
    else Apply(outcome, snapshot, files[|files| - 1], UpsertPass(outcome, snapshot, files[..|files| - 1], store))
  }

  /** The collection calls of one step of the upsert pass: the deletion request, then the reindexing calls. */
  function StepCalls(svc: Services, snapshot: Processed, f: LocalFile): seq<CollectionCall>
  {
    if NeedsProcessing(snapshot, f) then [DeleteWhere(f.name)] + IndexingCalls(svc, f.path) else []
  }

  /** The collection calls of the upsert pass. */
  function UpsertPassCalls(svc: Services, snapshot: Processed, files: seq<LocalFile>): seq<CollectionCall>
  {
    if files == [] then []
    else UpsertPassCalls(svc, snapshot, files[..|files| - 1]) + StepCalls(svc, snapshot, files[|files| - 1])
  }

  /** The upsert pass over files[..i + 1] is the pass over files[..i] followed by file i. */
  lemma UpsertPassStep(svc: Services, snapshot: Processed, files: seq<LocalFile>, store: Processed, i: nat)
    requires i < |files|
    ensures UpsertPass(Outcome(svc), snapshot, files[..i + 1], store)
            == Apply(Outcome(svc), snapshot, files[i], UpsertPass(Outcome(svc), snapshot, files[..i], store))
    ensures UpsertPassCalls(svc, snapshot, files[..i + 1]) == UpsertPassCalls(svc, snapshot, files[..i]) + StepCalls(svc, snapshot, files[i])
  {
    assert files[..i + 1][..i] == files[..i];
  }

  /** One `update_files` cycle on the processed map. */
  function Cycle(svc: Services, entries: seq<DirEntry>, p: Processed): Processed
  {
    var files := TxtFiles(svc, entries);
    var kept := AfterRemoval(svc, entries, p);
    UpsertPass(Outcome(svc), kept, files, kept)
  }

  /**
   * The outcome of the deletion before each reindexing does not influence
   * the store: the upsert pass writes the same map whatever the collection
   * answers.
   */
  lemma {:induction false} UpsertPassIgnoresDeletion(svc: Services, snapshot: Processed, files: seq<LocalFile>, store: Processed, other: CollectionCall -> bool)
    ensures UpsertPass(Outcome(svc.(collection := other)), snapshot, files, store) == UpsertPass(Outcome(svc), snapshot, files, store)
  {
    if files != [] {
      var f := files[|files| - 1];
      var prefix := files[..|files| - 1];
      var alt := svc.(collection := other);
      UpsertPassIgnoresDeletion(svc, snapshot, prefix, store, other);
      assert Outcome(alt)(f.path) == Indexed(alt, f.path) == Indexed(svc, f.path) == Outcome(svc)(f.path);
    }
  }

  /**
   * A file that needs reindexing but reads as empty has its deletion
   * request sent, with the result ignored, and keeps its record unchanged:
   * when that deletion succeeds, the record lists IDs the collection no
   * longer holds.
   */
  lemma EmptyReadKeepsStaleRecord(svc: Services, snapshot: Processed, f: LocalFile, store: Processed)
    requires NeedsProcessing(snapshot, f)
    requires ReadLocalFile(svc, f.path) == ""
    ensures Apply(Outcome(svc), snapshot, f, store) == store
    ensures StepCalls(svc, snapshot, f) == [DeleteWhere(f.name)]
  {
    assert Outcome(svc)(f.path) == Indexed(svc, f.path) == None;
  }

  /**
   * With distinct names the upsert pass decides each entry on its own: a
   * listed file's entry is what its own step makes of it, and an unlisted
   * key keeps its entry.
   */
  lemma {:induction false} UpsertPassAt(outcome: string -> Option<Record<int>>, snapshot: Processed, files: seq<LocalFile>, store: Processed, key: string)
    requires DistinctNames(files) && NamesRecords(outcome, files)
    ensures forall i :: 0 <= i < |files| && files[i].name == key ==>
              Lookup(UpsertPass(outcome, snapshot, files, store), key) == Lookup(Apply(outcome, snapshot, files[i], store), key)
    ensures (forall i :: 0 <= i < |files| ==> files[i].name != key) ==>
              Lookup(UpsertPass(outcome, snapshot, files, store), key) == Lookup(store, key)
  {
    if files != [] {
      var prefix := files[..|files| - 1];
      var last := files[|files| - 1];
      assert DistinctNames(prefix);
      NamesRecordsPrefix(outcome, files);
      UpsertPassAt(outcome, snapshot, prefix, store, key);
      if last.name == key {
        assert forall i :: 0 <= i < |prefix| ==> prefix[i].name != key;
      } else {
        ApplyElsewhere(outcome, snapshot, last, UpsertPass(outcome, snapshot, prefix, store), key);
        assert forall i :: 0 <= i < |files| && files[i].name == key ==> i < |prefix| && prefix[i] == files[i];
      }
    }
  }

  /** NamesRecords holds for a prefix of the listing and for its last file. */
  lemma NamesRecordsPrefix(outcome: string -> Option<Record<int>>, files: seq<LocalFile>)
    requires files != [] && NamesRecords(outcome, files)
    ensures NamesRecords(outcome, files[..|files| - 1])
    ensures outcome(files[|files| - 1].path).Some? ==> outcome(files[|files| - 1].path).value.name == files[|files| - 1].name
  {
    assert forall f :: f in files[..|files| - 1] ==> f in files;
    assert files[|files| - 1] in files;
  }

  /** A step for a file whose record is named after it leaves every other key alone. */
  lemma ApplyElsewhere(outcome: string -> Option<Record<int>>, snapshot: Processed, f: LocalFile, store: Processed, key: string)
    requires outcome(f.path).Some? ==> outcome(f.path).value.name == f.name
    requires f.name != key
    ensures Lookup(Apply(outcome, snapshot, f, store), key) == Lookup(store, key)
  {
  }

  /**
   * After one cycle with an outcome that stamps each record with its
   * file's modification time, a second removal pass and upsert pass over
   * the same folder change nothing.
   */
  lemma PassesSettle(svc: Services, outcome: string -> Option<Record<int>>, entries: seq<DirEntry>, files: seq<LocalFile>, p: Processed)
    requires DistinctNames(files) && NamesRecords(outcome, files) && Stamps(outcome, svc.mtime)
    requires forall f :: f in files ==> PathExists(entries, f.name) && f.modified == svc.mtime(f.path)
    ensures var kept := AfterRemoval(svc, entries, p);
            var q := UpsertPass(outcome, kept, files, kept);
            AfterRemoval(svc, entries, q) == q && UpsertPass(outcome, q, files, q) == q
  {
    var kept := AfterRemoval(svc, entries, p);
    var q := UpsertPass(outcome, kept, files, kept);
    assert forall i :: 0 <= i < |files| ==> files[i] in files;
    // The upsert pass writes names present in the folder only, so a missing name keeps its entry of kept.
    forall k | !PathExists(entries, k)
      ensures Lookup(q, k) == Lookup(kept, k)
    {
      UpsertPassAt(outcome, kept, files, kept, k);
    }
    // Nothing in q is removed: a present name stays, a missing one already failed deletion.
    LookupExtensional(AfterRemoval(svc, entries, q), q);
    // Every listed file now has no pending change.
    forall k ensures Lookup(UpsertPass(outcome, q, files, q), k) == Lookup(q, k) {
      UpsertPassAt(outcome, q, files, q, k);
      UpsertPassAt(outcome, kept, files, kept, k);
      forall i | 0 <= i < |files| && files[i].name == k
        ensures Lookup(Apply(outcome, q, files[i], q), k) == Lookup(q, k)
      {
        var f := files[i];
        if NeedsProcessing(kept, f) && outcome(f.path).Some? {
          assert q[k].modified == svc.mtime(f.path) == f.modified;
        } else if !NeedsProcessing(kept, f) {
          assert q[k] == kept[k];
        }
      }
    }
    LookupExtensional(UpsertPass(outcome, q, files, q), q);
  }

  /**
   * A second cycle over the same folder, with services that answer the
   * same requests the same way, leaves the processed map as the first
   * cycle left it.
   */
  lemma CycleIdempotent(svc: Services, entries: seq<DirEntry>, p: Processed)
    requires WellFormedFolder(entries)
    ensures Cycle(svc, entries, Cycle(svc, entries, p)) == Cycle(svc, entries, p)
  {
    var files := TxtFiles(svc, entries);
    ListedFilesKeyed(svc, entries);
    ListingDistinct(svc, entries);
    OutcomeStamps(svc);
    OutcomeNamesRecords(svc, entries);
    PassesSettle(svc, Outcome(svc), entries, TxtFiles(svc, entries), p);
  }

  /** Processing a listed file of a folder of '/'-free names writes the record under that file's name. */
  lemma OutcomeNamesRecords(svc: Services, entries: seq<DirEntry>)
    requires KeyedByName(TxtFiles(svc, entries))
    ensures NamesRecords(Outcome(svc), TxtFiles(svc, entries))
  {
    forall f | f in TxtFiles(svc, entries) && Outcome(svc)(f.path).Some?
      ensures Outcome(svc)(f.path).value.name == f.name
    {
      assert Outcome(svc)(f.path) == Indexed(svc, f.path);
    }
  }

  /** A file's step sends nothing, or only the deletion of a file that reads as empty. */
  predicate QuietStep(svc: Services, snapshot: Processed, f: LocalFile)
  {
    StepCalls(svc, snapshot, f) == [] ||
    (ReadLocalFile(svc, f.path) == "" && StepCalls(svc, snapshot, f) == [DeleteWhere(f.name)])
  }

  /** Over a listing of quiet steps, the pass sends only deletions of listed files that read as empty. */
  lemma {:induction false} QuietPass(svc: Services, snapshot: Processed, files: seq<LocalFile>)
    requires forall i :: 0 <= i < |files| ==> QuietStep(svc, snapshot, files[i])
    ensures forall c :: c in UpsertPassCalls(svc, snapshot, files) ==>
              exists f :: f in files && ReadLocalFile(svc, f.path) == "" && c == DeleteWhere(f.name)
  {
    if files != [] {
      var prefix := files[..|files| - 1];
      var last := files[|files| - 1];
      QuietPass(svc, snapshot, prefix);
      assert QuietStep(svc, snapshot, last);
      forall c | c in UpsertPassCalls(svc, snapshot, files)
        ensures exists f :: f in files && ReadLocalFile(svc, f.path) == "" && c == DeleteWhere(f.name)
      {
        if c in UpsertPassCalls(svc, snapshot, prefix) {
          var f :| f in prefix && ReadLocalFile(svc, f.path) == "" && c == DeleteWhere(f.name);
          assert f in files;
        } else {
          assert c == DeleteWhere(last.name);
        }
      }
    }
  }

  /**
   * Reindexing is incremental: a second cycle over the same folder, with
   * services that answer alike, adds nothing; its only requests in the
   * reindex pass are deletions for listed files that read as empty, which
   * the first cycle could not record.
   */
  lemma SecondCycleReindexesNothing(svc: Services, entries: seq<DirEntry>, p: Processed)
    requires WellFormedFolder(entries)
    ensures var files := TxtFiles(svc, entries);
            var q := Cycle(svc, entries, p);
            forall c :: c in UpsertPassCalls(svc, AfterRemoval(svc, entries, q), files) ==>
              exists f :: f in files && ReadLocalFile(svc, f.path) == "" && c == DeleteWhere(f.name)
  {
    var files := TxtFiles(svc, entries);
    var kept := AfterRemoval(svc, entries, p);
    var q := UpsertPass(Outcome(svc), kept, files, kept);
    ListedFilesKeyed(svc, entries);
    ListingDistinct(svc, entries);
    OutcomeStamps(svc);
    OutcomeNamesRecords(svc, entries);
    PassesSettle(svc, Outcome(svc), entries, files, p);
    forall i | 0 <= i < |files|
      ensures QuietStep(svc, q, files[i])
    {
      var f := files[i];
      assert f in files;
      UpsertPassAt(Outcome(svc), kept, files, kept, f.name);
      IndexedUnfold(svc, f.path);
      assert Outcome(svc)(f.path) == Indexed(svc, f.path);
      if NeedsProcessing(kept, f) && Indexed(svc, f.path).Some? {
        assert Lookup(q, f.name) == Some(Indexed(svc, f.path).value);
      } else if !NeedsProcessing(kept, f) {
        assert Lookup(q, f.name) == Lookup(kept, f.name);
      }
    }
    QuietPass(svc, q, files);
  }

  lemma AppendAssoc<T>(a: seq<T>, b: seq<T>, c: seq<T>)
    ensures (a + b) + c == a + (b + c)
  {
  }

  /** The processed-files store of the local indexer, with the collection calls it has made. */
  class LocalIndexer {
    var processed: Processed
    ghost var calls: seq<CollectionCall>

    /** `load_processed_files()` */
    constructor(stored: Processed)
      ensures processed == stored && calls == []
    {
      processed := stored;
      calls := [];
    }

    /** `process_file(path)`: read, split, embed and add each chunk, then overwrite the record of the path's basename. */
    method ProcessFile(svc: Services, path: string)
      modifies this
      ensures processed == if Indexed(svc, path).Some? then old(processed)[Basename(path) := Indexed(svc, path).value] else old(processed)
      ensures calls == old(calls) + IndexingCalls(svc, path)
    {
      IndexedUnfold(svc, path);
      var fileName := Basename(path);
      var content := ReadLocalFile(svc, path);
      if content == "" {
        return;
      }
      var chunks := Chunker.SplitText(content, Chunker.DefaultChunkSize, Chunker.DefaultOverlap);
      var vectorIds := EmbedAndAdd(svc, fileName, chunks);
      processed := processed[fileName := Record(svc.mtime(path), vectorIds, fileName)];
    }

    /** Step 3 of `process_file`: the loop over the chunks. */
    method EmbedAndAdd(svc: Services, fileName: string, chunks: seq<string>) returns (vectorIds: seq<string>)
      modifies this`calls
      ensures vectorIds == IdsFor(fileName, EmbeddedIndices(chunks, svc.embed, |chunks|))
      ensures calls == old(calls) + AddCalls(svc, fileName, chunks, |chunks|)
    {
      vectorIds := [];
      for i := 0 to |chunks|
        invariant vectorIds == IdsFor(fileName, EmbeddedIndices(chunks, svc.embed, i))
        invariant calls == old(calls) + AddCalls(svc, fileName, chunks, i)
      {
        var embedding := svc.embed(chunks[i]);
        EmbeddedStep(fileName, chunks, svc.embed, i);
        if embedding.None? {
          continue;
        }
        var vectorId := VectorId(fileName, i);
        vectorIds := vectorIds + [vectorId];
        // The ID is recorded before the add; whether the collection accepts it is only logged.
        var request := Add(vectorId, embedding.value, ChunkMetadata(fileName, i, Preview(chunks[i])), chunks[i]);
        calls := calls + [request];
      }
    }

    /** `delete_vectors(name)`: deletes by the name filter only; never touches the map. */
    method DeleteVectors(svc: Services, fileName: string) returns (ok: bool)
      modifies this`calls
      ensures processed == old(processed)
      ensures ok == svc.collection(DeleteWhere(fileName))
      ensures calls == old(calls) + [DeleteWhere(fileName)]
    {
      var request := DeleteWhere(fileName);
      calls := calls + [request];
      ok := svc.collection(request);
    }

    /** `update_files`: list the folder, then the removal pass and the delete-then-reindex pass. */
    method UpdateFiles(svc: Services, entries: seq<DirEntry>)
      modifies this
      ensures processed == Cycle(svc, entries, old(processed))
      ensures var up := UpsertPassCalls(svc, AfterRemoval(svc, entries, old(processed)), TxtFiles(svc, entries));
              old(calls) <= calls && |old(calls)| + |up| <= |calls| && calls[|calls| - |up|..] == up
    {
      var currentFiles := ListLocalFiles(svc, entries);
      RemoveMissingFiles(svc, entries);
      ghost var mid := calls;
      UpsertListedFiles(svc, currentFiles);
      assert calls[|mid|..] == calls[|calls| - (|calls| - |mid|)..];
    }

    /** Step 1 of `update_files`: drop each record whose file is missing and whose vectors were deleted. */
    method RemoveMissingFiles(svc: Services, entries: seq<DirEntry>)
      modifies this
      ensures processed == AfterRemoval(svc, entries, old(processed))
      ensures old(calls) <= calls
    {
      ghost var before := processed;
      ghost var removed := Removed(svc, entries, before);
      var pending := processed.Keys;
      while pending != {}
        invariant pending <= before.Keys
        invariant processed == before - (removed - pending)
        invariant old(calls) <= calls
        decreases pending
      {
        var fileName :| fileName in pending;
        pending := pending - {fileName};
        if !PathExists(entries, fileName) {
          var ok := DeleteVectors(svc, fileName);
          if ok {
            processed := processed - {fileName};
          }
        }
      }
    }

    /** Step 2 of `update_files`: for each new or newer file, send the deletion request, ignoring its result, then reindex it. */
    method UpsertListedFiles(svc: Services, currentFiles: seq<LocalFile>)
      modifies this
      ensures processed == UpsertPass(Outcome(svc), old(processed), currentFiles, old(processed))
      ensures calls == old(calls) + UpsertPassCalls(svc, old(processed), currentFiles)
    {
      var snapshot := processed;
      ghost var trace := [];
      for i := 0 to |currentFiles|
        invariant processed == UpsertPass(Outcome(svc), snapshot, currentFiles[..i], snapshot)
        invariant trace == UpsertPassCalls(svc, snapshot, currentFiles[..i])
        invariant calls == old(calls) + trace
      {
        UpsertPassStep(svc, snapshot, currentFiles, snapshot, i);
        ghost var step := StepCalls(svc, snapshot, currentFiles[i]);
        ReindexIfChanged(svc, snapshot, currentFiles[i]);
        AppendAssoc(old(calls), trace, step);
        trace := trace + step;
      }
      assert currentFiles[..|currentFiles|] == currentFiles;
    }

    /** One turn of step 2: a new or newer file has the deletion request sent, with the result ignored, then is reindexed. */
    method ReindexIfChanged(svc: Services, snapshot: Processed, f: LocalFile)
      modifies this
      ensures processed == Apply(Outcome(svc), snapshot, f, old(processed))
      ensures calls == old(calls) + StepCalls(svc, snapshot, f)
    {
      var existing := Lookup(snapshot, f.name);
      if existing.None? || f.modified > existing.value.modified {
        var _ := DeleteVectors(svc, f.name);
        ghost var mid := calls;
        ProcessFile(svc, f.path);
        AppendAssoc(old(calls), [DeleteWhere(f.name)], calls[|mid|..]);
      }
    }
  }
}
