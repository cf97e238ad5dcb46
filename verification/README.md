# n8n-RAG document indexers and chat answerer, in Dafny

This project models the core of a small retrieval-augmented question
answering system and proves properties of that model. The system has three
parts.

- **The Google Drive indexer** (`app.py`) keeps a Pinecone index in step
  with a Drive folder. It downloads each new or changed file and splits it
  into overlapping 500-character windows. It embeds each window and upserts
  one vector for each window whose embedding succeeded, under the ID
  `"<file id>_<chunk index>"`. It records `{modified, vectors, name}` for
  the file in a processed-files map. Files that have left the folder get
  their vectors deleted by the stored IDs. The metadata filter is used
  instead when no IDs are stored or when the deletion by IDs raises.
- **The local-folder indexer** (`local-rag/app.py`) does the same for the
  `.txt` files of `documents/`, with ChromaDB as the store. Records are
  keyed by file name, and deletion uses a single metadata filter. Before
  reindexing a changed file, it sends a deletion request for the file's
  old vectors and ignores the result.
- **The chat answerer** (`chat_interface.py`) embeds a question and
  retrieves the three closest chunks from the `"default"` namespace. It
  joins their texts into a context and asks the Groq chat model to answer
  from it. An embedding that returns nothing, an empty retrieval and a
  blank context each give a fixed answer string. A failed query or chat
  call gives an error string that carries the provider's message. An
  exception raised by the embedding call itself is not caught.

The modules are:

| module | file | models |
|---|---|---|
| `Chunker` | chunker.dfy | `split_text`, which is identical in app.py:144-157 and local-rag/app.py:85-98 |
| `Indexing` | indexing.dfy | vector IDs, the 200-character preview, the IDs recorded for a file |
| `DriveSync` | drive_sync.dfy | `process_file`, `delete_vectors`, `poll_drive_folder` and `update_files` of app.py |
| `LocalSync` | local_sync.dfy | `read_local_file`, `process_file`, `delete_vectors`, `list_local_files` and `update_files` of local-rag/app.py |
| `ChatAgent` | chat_agent.dfy | `chat_agent` and `groq_chat` |

External services are oracles: functions from the request to the outcome.
This covers the Drive download and listing, the PaLM and SentenceTransformer
embeddings, the Pinecone index, the Chroma collection, the file system and
the Groq client. A `Services` or `Providers` value holds them, and every
operation receives it as a parameter.

The processed-files JSON file is the `processed` field of a `DriveIndexer`
or `LocalIndexer` object. Each save in the source is a write of that field.
Each object also keeps a ghost trace `calls` of the requests sent to the
index or collection.

`split_text` is a method with a `while` loop. It is proved equal to the
closed form `Windows`: window `k` starts at `k * (size - overlap)`. The loops
of `process_file` and `update_files` are methods whose postconditions tie
the new map and the new trace to functions. `Indexed` and `IndexingCalls`
give the effect of one file. `Cycle` gives the effect of one update. The
lemmas are stated about those functions.

The model follows the code as written. Some behaviours worth knowing:

- The vector ID of a chunk is recorded before the upsert. A failed upsert
  therefore still leaves its ID in the record (`RecordedIdsAreUpsertAttempts`).
- A Drive listing that raises is read as an empty folder. The removal pass
  then deletes every stored file whose vectors can be deleted
  (`ListingFailureRemovesAll`).
- Only the local indexer sends a deletion request for a file's vectors
  before reindexing it.
  The Drive indexer only upserts (`UpsertPassOnlyUpserts`), so a file that
  shrinks keeps the vectors of its old trailing chunks.
- In the local indexer, a changed file whose read then comes back empty
  still has its deletion request sent, and the result of that request is
  ignored. The file keeps its old record. When the deletion succeeds, the
  record lists IDs the collection no longer holds
  (`EmptyReadKeepsStaleRecord`).
- The local `delete_vectors` loads the stored record but never uses it.
  Deletion is by file-name filter alone.

## Model

| member | source | states |
|---|---|---|
| Chunker.SplitText | app.py:144-157 | The loop returns exactly the windows of the closed form: the text gives no chunk when empty and a single chunk when it fits in one window. Its precondition is a sufficient condition for the loop to terminate, and every call in the source (500, 100) meets it. |
| Chunker.EmittedIff | app.py:150-156 | Window k is emitted exactly when it starts inside the text and every earlier window ended before the end of the text. |
| Chunker.WindowShape | app.py:151-153 | Every chunk is non-empty and at most chunk_size long, and every chunk but the last is exactly chunk_size long. |
| Chunker.LastWindowReachesEnd | app.py:152-155 | With a non-negative overlap the last chunk ends at the end of the text. |
| Chunker.ConsecutiveOverlap | app.py:156 | The last `overlap` characters of chunk k are the first `overlap` characters of chunk k + 1. |
| Chunker.StitchPrefix | app.py:148-157 | The first m chunks, each but the first without its repeated overlap, spell the text up to the end of chunk m. |
| Chunker.StitchWindows | app.py:144-157 | The chunks cover the text with no gap: stitching them back gives the text. |
| Chunker.SixHundredCharacters | app.py:144 | With the defaults (500, 100), a 600-character text gives exactly the chunks [0:500] and [400:600]. |
| Indexing.Preview | app.py:200 | The metadata preview is `chunk[:200]`: a prefix of the chunk that is the whole chunk when the chunk is at most 200 characters long, and exactly its first 200 characters otherwise. |
| Indexing.NatToStringInjective | app.py:193 | Distinct chunk indices render as distinct decimal strings. |
| Indexing.VectorIdInjective | app.py:193 | `f"{key}_{i}"` determines both the key and the index, so vector IDs never collide across files or chunks. |
| Indexing.EmbeddedIndicesSpec | app.py:188-194 | The chunks that get an ID are exactly those whose embedding succeeded, in increasing order. |
| Indexing.IdsForSpec | app.py:193-194 | The recorded list holds one ID per embedded chunk, in order, and the k-th is the vector ID of the k-th embedded index. |
| Indexing.EmbeddedStep | app.py:189-194 | One more loop turn appends chunk i and its ID when chunk i embedded, and changes nothing otherwise. |
| Indexing.RecordedIdsExact | app.py:188-194 | An ID is recorded exactly when it names a chunk whose embedding succeeded, and the recorded IDs are pairwise distinct. |
| DriveSync.StrGreaterIrreflexive | app.py:302 | A modifiedTime is never newer than itself. |
| DriveSync.StrGreaterTrichotomy | app.py:302 | Python's string comparison of modifiedTime values is total: exactly one of equal, newer or older. |
| DriveSync.StrGreaterTransitive | app.py:302 | Python's string comparison of modifiedTime values is transitive. |
| DriveSync.StrGreater | app.py:302 | Python's `>` on strings: a string is greater than each of its proper prefixes, and never greater than a string it is a prefix of. |
| DriveSync.PollDriveFolder | app.py:263-276 | A listing that raises gives the empty folder, a response without `files` gives the empty folder, and otherwise the files are returned as listed. |
| DriveSync.UpsertCallsIds | app.py:188-213 | The k-th upsert sent carries the k-th recorded vector ID. |
| DriveSync.RecordedIdsAreUpsertAttempts | app.py:188-226 | The record lists exactly the IDs of the attempted upserts, in order, whatever the index answered. The record does not depend on the index's answers. |
| DriveSync.DeleteVerdictIsLastCall | app.py:241-257 | Deletion sends the ID request exactly when IDs are stored. It falls back to the filter exactly when no IDs are stored or the ID deletion raised. Its verdict is the answer to its last request. |
| DriveSync.AfterRemoval | app.py:291-297 | The removal pass drops a record exactly when its file is no longer listed and its vectors were deleted, and keeps every other record unchanged. |
| DriveSync.UnchangedNotReprocessed | app.py:301-303 | A listed file whose record carries its current modifiedTime is not processed again. |
| DriveSync.OutcomeStamps | app.py:222-226 | A processed file is recorded with its own modifiedTime. |
| DriveSync.UpsertPassOnlyUpserts | app.py:299-303 | The upsert pass sends upserts only and never sends a deletion for a file it reprocesses. |
| DriveSync.UpsertPassAt | app.py:300-303 | With distinct file IDs, a listed file's entry after the pass is what its own step writes, and an unlisted key keeps its entry. |
| DriveSync.ListingFailureRemovesAll | app.py:268-276 | A listing that raises empties the folder view: every stored record whose vectors can be deleted is removed, and nothing is added. |
| DriveSync.PassesSettle | app.py:285-303 | After one removal pass and one upsert pass, a second pair of passes over the same listing changes nothing. |
| DriveSync.CycleIdempotent | app.py:278-306 | A second `update_files` over the same listing, with services that answer alike, leaves the processed map unchanged. |
| DriveSync.SecondCycleReindexesNothing | app.py:278-306 | Reprocessing is incremental: a second `update_files` over the same listing, with services that answer alike, sends no upsert at all. |
| DriveSync.DriveIndexer.constructor | app.py:93-100 | The indexer starts from the stored processed-files map. |
| DriveSync.DriveIndexer.ProcessFile | app.py:162-227 | Overwrites the file's record with Indexed and sends IndexingCalls. Empty content changes nothing. |
| DriveSync.DriveIndexer.EmbedAndUpsert | app.py:179-218 | The chunk loop returns the IDs of the embedded chunks and sends one upsert per embedded chunk, in order. |
| DriveSync.DriveIndexer.DeleteVectors | app.py:234-257 | Returns DeleteSucceeds for the stored IDs, sends DeleteCalls, and leaves the map unchanged. |
| DriveSync.DriveIndexer.UpdateFiles | app.py:278-306 | The new map is Cycle of the old one. The trace ends with the calls of the upsert pass. |
| DriveSync.DriveIndexer.RemoveGoneFiles | app.py:291-297 | The map becomes AfterRemoval of the old map. |
| DriveSync.DriveIndexer.UpsertListedFiles | app.py:299-303 | The map becomes the upsert pass over the listing, decided against the map as it was before the pass. |
| DriveSync.DriveIndexer.ProcessIfChanged | app.py:301-303 | A file is processed only when it has no record or a newer modifiedTime. |
| LocalSync.BasenameIsLastComponent | local-rag/app.py:105 | `os.path.basename` gives the suffix after the last '/', which contains no '/'. |
| LocalSync.BasenameOfPath | local-rag/app.py:191 | A listed name joined to "documents/" has that name as its basename. |
| LocalSync.PathExists | local-rag/app.py:205-206 | `os.path.exists` of a name in `documents/`, as modelled: it holds exactly when some folder entry, of any kind, has that name. Symbolic links and the names "" and "." are not modelled (see "Left out"). |
| LocalSync.TxtFilesExact | local-rag/app.py:189-194 | A file is listed exactly when it comes from a regular-file entry whose name ends with ".txt", with its path and mtime. |
| LocalSync.ListLocalFiles | local-rag/app.py:181-194 | The listing loop returns TxtFiles of the directory entries, in listing order. |
| LocalSync.ListedFilesKeyed | local-rag/app.py:190-193 | Each listed file exists in the folder, is read from a path whose basename is its name, and carries that path's mtime. |
| LocalSync.ListingDistinct | local-rag/app.py:190-193 | Distinct directory entries give listed files with distinct names. |
| LocalSync.ReadLocalFile | local-rag/app.py:71-80 | A read that raises gives the empty string. |
| LocalSync.AddCallsIds | local-rag/app.py:120-141 | The k-th add carries the k-th recorded ID, and its document is the whole chunk. |
| LocalSync.RecordedIdsAreAddAttempts | local-rag/app.py:104-153 | The record is keyed and named by the basename and stamped with the mtime. It lists exactly the IDs of the attempted adds, whatever the collection answered. |
| LocalSync.AfterRemoval | local-rag/app.py:203-210 | A record is dropped exactly when no folder entry of that name exists and the filter deletion succeeded. |
| LocalSync.OutcomeStamps | local-rag/app.py:148-152 | A processed file is recorded with its mtime. |
| LocalSync.UpsertPassIgnoresDeletion | local-rag/app.py:216-218 | Whether the delete before reindexing succeeds does not change the resulting map. |
| LocalSync.EmptyReadKeepsStaleRecord | local-rag/app.py:214-218 | A changed file that reads as empty has exactly its deletion request `DeleteWhere(name)` sent, with the result ignored, and keeps its old record. |
| LocalSync.UpsertPassAt | local-rag/app.py:213-218 | With distinct names, a listed file's entry after the pass is what its own step writes, and any other key keeps its entry. |
| LocalSync.PassesSettle | local-rag/app.py:198-218 | After one removal pass and one upsert pass, a second pair over the same folder changes nothing. |
| LocalSync.CycleIdempotent | local-rag/app.py:196-221 | A second `update_files` over the same folder, with services that answer alike, leaves the processed map unchanged. |
| LocalSync.SecondCycleReindexesNothing | local-rag/app.py:196-221 | Reindexing is incremental: a second `update_files` over the same folder, with services that answer alike, adds nothing. Its reindex pass sends only deletions, each for a listed file that reads as empty. |
| LocalSync.LocalIndexer.constructor | local-rag/app.py:54-61 | The indexer starts from the stored processed-files map. |
| LocalSync.LocalIndexer.ProcessFile | local-rag/app.py:104-155 | Overwrites the record of the path's basename with Indexed and sends IndexingCalls. Empty content changes nothing. |
| LocalSync.LocalIndexer.EmbedAndAdd | local-rag/app.py:119-144 | The chunk loop returns the IDs of the embedded chunks and sends one add per embedded chunk, in order. |
| LocalSync.LocalIndexer.DeleteVectors | local-rag/app.py:161-175 | Sends one filter deletion by file name, returns its outcome, and leaves the map unchanged. |
| LocalSync.LocalIndexer.UpdateFiles | local-rag/app.py:196-221 | The new map is Cycle of the old one. The trace ends with the calls of the delete-then-reindex pass. |
| LocalSync.LocalIndexer.RemoveMissingFiles | local-rag/app.py:203-210 | The map becomes AfterRemoval of the old map. |
| LocalSync.LocalIndexer.UpsertListedFiles | local-rag/app.py:212-218 | The map becomes the upsert pass over the listing, decided against the map before the pass. The trace grows by each step's delete and adds. |
| LocalSync.LocalIndexer.ReindexIfChanged | local-rag/app.py:214-218 | A new or newer file has the deletion request `DeleteWhere(name)` sent, with the result ignored, and is then processed. Any other file is left alone. |
| ChatAgent.JoinBlankIff | chat_interface.py:64-66 | The joined context is whitespace-only exactly when every match text is. |
| ChatAgent.JoinLength | chat_interface.py:64 | The context holds the texts plus one separating space between each two. |
| ChatAgent.JoinPiece | chat_interface.py:64 | Each match text appears in the context at its offset, in match order, after a single space. |
| ChatAgent.QueryFor | chat_interface.py:50-55 | The retrieval request asks for the query vector's top 3 matches, with metadata, in namespace "default". |
| ChatAgent.ChatRequestFor | chat_interface.py:78-92 | The chat request has two messages. The system message is the prompt, then `"\n\nContext: "`, then the context, and the user message is the question. The model is deepseek-r1-distill-llama-70b with temperature 0.2 and 512 tokens. |
| ChatAgent.GroqChat | chat_interface.py:71-95 | Sends exactly one chat request. The answer is the first choice's content, or "Error: " followed by the provider's message when the call raises. |
| ChatAgent.AnswerWith | chat_interface.py:31-69 | The question is embedded first. An embedding failure returns "Error obtaining query embedding." with no other request. Otherwise the second request is the retrieval query. |
| ChatAgent.RetrievalFailedNoChat | chat_interface.py:44-60 | Without retrieved matches the chat model is never consulted. |
| ChatAgent.AnswerFromRetrieved | chat_interface.py:63-69 | With retrieved matches, a blank context gives the not-found answer, and any other context gives the chat model's reply. |
| ChatAgent.ChatCalledIff | chat_interface.py:59-69 | The chat model is consulted exactly when some retrieved match has a non-blank text. It then receives the question and the texts of all matches joined in order, and its reply is the answer. |
| ChatAgent.AnswerCases | chat_interface.py:44-60 | A failed embedding, a failed query and an empty retrieval each give their fixed answer, and the query error carries the provider's message. |
| ChatAgent.AnswerIgnoresUnusedChat | chat_interface.py:44-66 | When the chat model is not reached, the answer does not depend on it. |
| ChatAgent.BlankRetrievalIsNotFound | chat_interface.py:59-66 | Matches whose texts are all blank, or no matches at all, give "I cannot find the answer in the available resources." after exactly two requests. |
| ChatAgent.MatchText | chat_interface.py:64 | The text of a match is its metadata's "text" value, or "" when that key is absent. |
| ChatAgent.JoinWithSpaces | chat_interface.py:64 | `" ".join`: no pieces give "", and one piece gives itself. JoinLength and JoinPiece state the general case. |
| ChatAgent.Answer | chat_interface.py:31-69 | `chat_agent` with the HR assistant prompt: the question is embedded first, at most three requests are made, and a chat request's system message opens with that prompt. |

## Left out

- Configuration and start-up are not modelled. This covers environment variables, the missing-key exit, Pinecone index creation, the Drive credentials, the Chroma client and the SentenceTransformer model. None of these carries logic of the core.
- The JSON encoding of the processed-files file is not modelled, because the file is the `processed` field. Each load and save in the source reads or writes that field.
- The console output, progress bars, `time.sleep(0.1)` rate limiting and the interactive `wait_or_pull` and `main` loops are not modelled. They are timing and user interface.
- The byte-level download loop and UTF-8 decoding of `download_file` are an oracle. It gives the decoded text, or "" when decoding fails.
- `os.makedirs` for a missing `documents/` folder is not modelled. The folder is its list of entries.
- Modification times: `os.path.getmtime` returns a float. The model uses an `int` timestamp, and the comparison is the same strict "newer than".
- Drive timestamps: modifiedTime values are compared as Python strings, by code point. The order of RFC 3339 timestamps is not assumed.
- Chunker.SplitText: requires a positive chunk size, and an overlap below the chunk size whenever the text is longer than one window. This is a sufficient condition that every call in the source (500, 100) meets. Other parameters are not modelled. With some of them the Python loop still terminates: `split_text("abc", 0, -1)` gives `["", "", ""]`. With others, such as an overlap at least the chunk size on a long text, it does not terminate.
- Exceptions that escape the per-call handlers are not modelled. Examples are a raising `get_embedding` in `chat_agent`, a raising `getmtime`, and `process_file` failing while it saves. Drive `update_files` re-raises such an error and the local one swallows it; the model only covers runs where no such exception occurs.
- Providers are deterministic functions of their request. The idempotence lemmas assume the second cycle sees the same answers. Time-varying services are not modelled.
- Match metadata is a map from string to string. A non-string `"text"` value is not modelled.
- DriveSync.DriveIndexer.RemoveGoneFiles: visits the stored keys in an unspecified order, where the source uses dictionary insertion order. So its postcondition only says the trace grows, not in which order the deletions are sent.
- LocalSync.LocalIndexer.RemoveMissingFiles: visits the stored keys in an unspecified order, where the source uses dictionary insertion order. So its postcondition only says the trace grows, not in which order the deletions are sent.
- The contents of the vector index and the collection are not modelled. Only the requests sent to them are traced, so orphaned vectors are a property of the trace, not of a store.
- LocalSync.PathExists: symbolic links are not modelled. A folder entry counts as present, so a dangling link that `os.listdir` returns counts as an existing file. `os.path.exists` follows the link and reports it missing, so the source would delete its vectors and drop its record.
- Stored keys: a key that `os.path.join` resolves to something other than a folder entry is not modelled. This covers a key containing '/' or "..", and the keys "" and ".", which name the folder itself so that `os.path.exists` holds for them. Folder entries are plain names.
- A chat response whose first choice has `None` content is not modelled. The chat oracle returns a string or raises, and a response with no choices raises inside the `try`.
