# Medaltea RAG back end — Dafny model

This project models the decision logic of a small retrieval-augmented chat
system and proves properties of it. The system has three parts:

- **The vector-store service** (`backend/vector_db_api.py`) loads an uploaded
  `.txt`, `.md`, `.pdf` or `.csv` file and stamps every loaded document with
  `source`, `filename` and `file_type`. It commits the chunks to the
  `langchain_pg_embedding` table in batches of 1000. It also removes a
  document by source and filename, and lists the indexed documents grouped
  by (source, filename, file type).
- **The chat service** (`backend/rag_api.py`) renders the retrieved passages
  into a context block and injects it into the system prompt. It turns the
  client's `[user, bot]` history into chat messages, sends the model the
  system message, the history and the user's message, and streams the
  model's answer back.
- **The ingestion driver** (`data/ingest_documents.py`) lists the PDF files of
  a directory and fetches the names the service already holds. It uploads
  every other file, counting successes and failures.

Modules:

- `Wrappers` (`wrappers.dfy`): `Option` and `Result`.
- `TextUtil` (`text.dfy`): the Python string and path operations the code
  uses. These are `startswith`, `endswith`, ASCII `lower`, `Path.suffix`,
  `replace`, `join`, and the text order of `ORDER BY`.
- `VectorDbRecords` (`vector_db_records.dfy`): the embedding table as a
  sequence of records. It also holds the removal `WHERE` clause, and the
  `COUNT`/`GROUP BY`/`ORDER BY` of the listing as functions on that sequence.
- `VectorDbApi` (`vector_db_api.dfy`): the service's operations. The table
  is a class, `EmbeddingTable`, whose `records` field the add and delete
  operations change in place.
- `RagApi` (`rag_api.dfy`): the prompt, the history conversion and the chat
  turn.
- `IngestDocuments` (`ingest_documents.dfy`): the ingestion driver, with its
  skip-set loop and its per-file counting loop.

The outside world enters as parameters:

- The document loaders: `load`, a function from loader kind to the loaded
  documents or an exception.
- The text splitter: `split`.
- The store's answer to each batch insertion: `insert`, from batch index to
  ids or an exception.
- Whether the database can be reached: `connect`.
- The retrieval call: `search`.
- The model's reply: `answer`.
- The directory listing, the listing reply and each upload's reply in the
  driver.

## Model

| member | source | states |
|---|---|---|
| TextUtil.BaseName | backend/vector_db_api.py:42 | the name `Path` takes its suffix from is the last component that is neither empty nor "."; it holds no '/' and is never "." |
| TextUtil.TrailingComponentIgnored | backend/vector_db_api.py:42 | a trailing "/" or "/." does not change the name, so `notes.pdf/` has the suffix of `notes.pdf` |
| TextUtil.BaseNameOfName | backend/vector_db_api.py:42 | a single component that is neither empty nor "." is the name of itself and of any path ending in "/" and it |
| TextUtil.Suffix | backend/vector_db_api.py:42 | `Path.suffix` is empty or one dot followed by at least one non-dot character, with no '/' |
| TextUtil.NameSuffixOfLastDot | backend/vector_db_api.py:42 | when the last '.' of a name is neither its first nor its last character, the suffix is the name from that dot on |
| TextUtil.NoNameSuffix | backend/vector_db_api.py:42 | a name with no '.' after its first character, or one ending in '.', has the empty suffix |
| TextUtil.SuffixOfFile | backend/vector_db_api.py:42 | a file named stem + ext, with ext a dot and at least one character that is neither '.' nor '/', has suffix ext, alone or under a directory |
| TextUtil.SuffixOfLower | backend/vector_db_api.py:42 | taking the suffix and lower-casing commute |
| VectorDbApi.SupportedUploadAccepted | backend/vector_db_api.py:42-58 | an upload named stem + ext, alone or under a directory, whose ext lower-cases to a supported extension (`report.PDF`) gets that lower-cased extension and a loader |
| VectorDbApi.ExtensionIgnoresCase | backend/vector_db_api.py:42 | two paths equal up to letter case get the same extension, so every accept/reject decision ignores case |
| VectorDbApi.SelectLoader | backend/vector_db_api.py:44-58 | a loader is chosen exactly for the four supported extensions: text for .txt and .md, PDF for .pdf, CSV for .csv; anything else raises a ValueError |
| VectorDbApi.FileTypeOfSuffix | backend/vector_db_api.py:64 | `file_ext.lstrip('.')` of a suffix as `Path.suffix` yields it is the suffix without its dot |
| VectorDbApi.Stamped | backend/vector_db_api.py:60-65 | the three keys get "uploaded", the display name and the file type; the content and every other key are unchanged |
| VectorDbApi.StampedAll | backend/vector_db_api.py:60-65 | same length, document i is document i stamped, and every document carries the stamp |
| VectorDbApi.StampAll | backend/vector_db_api.py:60-65 | the in-place loop leaves each array element stamped from its old value |
| VectorDbApi.LoadDocumentFromFile | backend/vector_db_api.py:40-71 | an unsupported extension fails with ValueError("Unsupported file type: " + ext); a loader failure is re-raised unchanged; otherwise the loader's documents, in order, all stamped |
| VectorDbApi.Batches | backend/vector_db_api.py:306-307 | no batches exactly for no chunks; every batch holds 1 to 1000 chunks; their number n satisfies (n-1)*1000 < len <= n*1000 |
| VectorDbApi.BatchesConcatenate | backend/vector_db_api.py:306-307 | the batches put back together in order are the chunk list |
| VectorDbApi.BatchAt | backend/vector_db_api.py:306-307 | batch k is the slice `chunks[k*1000 : k*1000+1000]` |
| VectorDbApi.BatchCount | backend/vector_db_api.py:306 | there are ceil(len/1000) batches |
| VectorDbApi.CommittedBatches | backend/vector_db_api.py:306-312 | the number of leading batches the store accepts: all of them succeeded, and the next one, if any, failed |
| VectorDbApi.CommittedStops | backend/vector_db_api.py:306-312 | after the first failure, later batches do not change the committed count |
| VectorDbApi.FailedAt | backend/vector_db_api.py:306-312 | when batch j is the first to fail, exactly j batches are committed in all |
| VectorDbApi.CommitStep | backend/vector_db_api.py:306-312 | committing batch j appends its records after those of the earlier batches |
| VectorDbApi.EmbeddingTable.AddDocuments | backend/vector_db_api.py:311 | an accepted batch is appended to the table under the collection; a failed insertion leaves it unchanged |
| VectorDbApi.CommitBatch | backend/vector_db_api.py:306-312 | the slice handed to the store is batch j; on failure the table is unchanged and j batches are committed in all |
| VectorDbApi.AddInBatches | backend/vector_db_api.py:302-312 | the table gains exactly the records of the committed leading batches, in order; the result is the total of returned ids when all batches succeed, else the first failure's exception |
| VectorDbApi.TempPathExtension | backend/vector_db_api.py:285 | the temporary file keeps the upload's (supported) extension, so the loader sees the extension that was checked |
| VectorDbApi.StatusOf | backend/vector_db_api.py:328-335 | a ValueError becomes 400, every other exception 500 |
| VectorDbApi.ProcessingError | backend/vector_db_api.py:330-335 | a ValueError keeps its message as detail; any other exception's detail ends with its message |
| VectorDbApi.AddDocument | backend/vector_db_api.py:268-335 | 400 "No filename provided" for a missing or empty name; 400 for an unsupported extension; a load failure or an empty load is rejected with the table unchanged; otherwise the table gains the committed batches and the reply is the name, the file type and the id count, or the mapped error of the first failed batch |
| VectorDbApi.ConvertConnectionString | backend/vector_db_api.py:185-189 | a string without the `postgresql+psycopg://` prefix is returned as it is; one with it comes back starting with `postgresql://` |
| VectorDbApi.ConvertIdempotent | backend/vector_db_api.py:185-189 | converting twice is converting once |
| VectorDbRecords.MetaText | backend/vector_db_api.py:99 | `cmetadata->>key` is the text under the key, or NULL when the key is absent |
| VectorDbRecords.Kept | backend/vector_db_api.py:96-105 | no kept record matches the removal predicate; fewer records remain exactly when some record matched |
| VectorDbRecords.KeptCounts | backend/vector_db_api.py:96-105 | every unmatched record keeps its multiplicity, and every matched one is gone |
| VectorDbRecords.KeptMembership | backend/vector_db_api.py:96-105 | a record stays exactly when it does not match; a record with another filename always stays |
| VectorDbRecords.KeptAll | backend/vector_db_api.py:96-105 | removal from a table with no matching record changes nothing |
| VectorDbRecords.RemovalIdempotent | backend/vector_db_api.py:96-115 | removing twice with the same request is removing once |
| VectorDbApi.EmbeddingTable.DeleteMatching | backend/vector_db_api.py:96-107 | the table becomes the kept records, and the row count is the number deleted |
| VectorDbApi.RemoveDocumentsFromDb | backend/vector_db_api.py:84-119 | ValueError with no change when unconfigured; a database error with no change when unreachable; otherwise the matching records are deleted and the result is true exactly when one existed |
| VectorDbApi.RemoveDocument | backend/vector_db_api.py:338-366 | success with the filename exactly when something was deleted, 404 with detail "Document not found: " + filename exactly when nothing matched, 500 with the ValueError's message "PGVector connection not configured" when unconfigured, 500 when unreachable |
| VectorDbApi.RemoveTwice | backend/vector_db_api.py:338-357 | a repeated removal answers 404, and the table is as after the first |
| VectorDbRecords.ListedRecords | backend/vector_db_api.py:213-222 | the records counted are exactly those whose metadata names the collection or that belong to it |
| VectorDbRecords.ListedCounts | backend/vector_db_api.py:213-222 | each record of the collection is counted as many times as it occurs in the table, and no other record is counted |
| VectorDbRecords.KeyLessIrreflexive | backend/vector_db_api.py:238 | the row order is irreflexive |
| VectorDbRecords.KeyLessTransitive | backend/vector_db_api.py:238 | the row order is transitive |
| VectorDbRecords.KeyLessTotal | backend/vector_db_api.py:238 | the row order is total on distinct keys |
| VectorDbRecords.Insert | backend/vector_db_api.py:226-241 | counting one more record keeps the rows sorted with positive counts and adds one to its key's count only |
| VectorDbRecords.GroupRecords | backend/vector_db_api.py:226-241 | the rows are sorted with positive counts, each key's count is its number of records, and the counts sum to the number of records |
| VectorDbRecords.GroupRow | backend/vector_db_api.py:237-238 | in sorted rows a key has a row exactly when its count is positive, and that row carries the count |
| VectorDbRecords.GroupedRows | backend/vector_db_api.py:226-243 | a key has a row exactly when some record has it, and the row's count is that key's number of records |
| VectorDbRecords.GroupedRowsOrdered | backend/vector_db_api.py:237-238 | the rows are strictly ascending, so no key has two rows |
| VectorDbApi.OrElse | backend/vector_db_api.py:247-249 | `v or default`: NULL and the empty text give the default, other text is kept |
| VectorDbApi.Shape | backend/vector_db_api.py:245-251 | every reported field is non-empty, with the 'Unknown', source and 'unknown' fall-backs; the count is kept |
| VectorDbApi.ShapeRows | backend/vector_db_api.py:243-251 | one shaped entry per row in row order, and the chunk counts add up to the rows' counts |
| VectorDbApi.DecimalText | backend/vector_db_api.py:265 | `str` of a status code is a non-empty run of decimal digits without a leading zero |
| VectorDbApi.DecimalRoundTrip | backend/vector_db_api.py:265 | reading back the decimal text of a number gives the number |
| VectorDbApi.ExceptionTextParts | backend/vector_db_api.py:265 | `str` of an `HTTPException` is its status code in decimal, ": ", then its detail, and both can be read back from it |
| VectorDbApi.CaughtByCatchAll | backend/vector_db_api.py:263-265 | the catch-all handler answers 500 with `str(e)` as detail |
| VectorDbApi.CatchAll500 | backend/vector_db_api.py:263-265 | a 500 that reaches the catch-all comes back as a 500 whose detail is "500: " followed by the original detail |
| VectorDbApi.GetDocumentsInfo | backend/vector_db_api.py:197-265 | 500 with detail "500: PGVector connection not configured" when unconfigured (the exception raised inside the `try` is re-wrapped by the catch-all), 500 when unreachable; otherwise `total_chunks` is the number of collection records, one shaped entry per group, `total_documents` is their number, and their counts add up to `total_chunks` |
| RagApi.Passage | backend/rag_api.py:55 | a passage starts with "Source: " and ends with "\nContenu: " and the content |
| RagApi.PassageSource | backend/rag_api.py:55 | between the frame a passage names the `source` metadata value whenever the key is present, even when empty, and "Doc" only when it is absent |
| RagApi.Passages | backend/rag_api.py:55 | one passage per retrieved document, in order |
| RagApi.NoDocumentationIffEmpty | backend/rag_api.py:54-57 | the context block is the no-documentation sentence exactly when nothing was retrieved |
| RagApi.SinglePassage | backend/rag_api.py:55 | the context block of one document is that document's passage |
| RagApi.PassageInContext | backend/rag_api.py:55 | every passage appears verbatim in the block, in retrieval order, between blank lines |
| RagApi.ContextAppend | backend/rag_api.py:55 | one more document adds a blank line and its passage at the end of the block |
| RagApi.TailIgnoresContext | backend/rag_api.py:58-102 | the template lines after the context line do not depend on the context |
| RagApi.RenderAround | backend/rag_api.py:58-102 | the lines before the context line are fixed text ahead of the rest |
| RagApi.RenderContextLine | backend/rag_api.py:58-102 | the context line holds the context, then a line break and the later lines |
| RagApi.RenderSplit | backend/rag_api.py:58-102 | a rendering is fixed head, the context verbatim, a line break and a fixed tail |
| RagApi.HeadEnds | backend/rag_api.py:59-63 | the fixed text before the context line ends with the line just above it and a line break |
| RagApi.TailStarts | backend/rag_api.py:65-102 | the fixed text after the context line starts with the line just below it |
| RagApi.PromptHeadEnds | backend/rag_api.py:59-63 | the prompt's head ends with `<context>` and a line break |
| RagApi.PromptTailStarts | backend/rag_api.py:65 | the prompt's tail starts with `</context>` |
| RagApi.PromptStructure | backend/rag_api.py:43-102 | the system prompt is the template's lines up to the context line, the context block verbatim, a line break and the template's later lines, which do not depend on the passages; the head ends with `<context>` and a line break and the tail starts with `</context>`, so the block sits between the tags |
| RagApi.RenderInjective | backend/rag_api.py:58-102 | a rendering determines the context it was given |
| RagApi.PromptDeterminesContext | backend/rag_api.py:43-102 | two retrieval results give the same system prompt only when they give the same context block |
| RagApi.FormatHistory | backend/rag_api.py:104-114 | the loop produces, turn by turn, the turn's non-empty user message then its non-empty bot message, skipping turns with fewer than two entries |
| RagApi.HistoryAppend | backend/rag_api.py:107-113 | the messages of two histories in a row are the messages of each, in order |
| RagApi.ShortTurnIgnored | backend/rag_api.py:108 | a turn with fewer than two entries leaves no trace |
| RagApi.HistoryShape | backend/rag_api.py:104-114 | at most two messages per turn, none of them a system message, none empty |
| RagApi.CompleteHistory | backend/rag_api.py:107-113 | a history of complete turns becomes the alternation user, assistant, ... of its entries |
| RagApi.RetrievedDocs | backend/rag_api.py:146-152 | no passages exactly when the call raised, `results` is missing, an entry is malformed or the list is empty; otherwise the entries' passages in order |
| RagApi.AssembleMessages | backend/rag_api.py:155-162 | the system message first, then the history unchanged, then the user's message, and no other system message |
| RagApi.StreamChatResponse | backend/rag_api.py:138-171 | the model gets the system prompt built from the passages retrieved for the message with k = 3, the formatted history and the message, with one system message at position 0; a model error ends the stream with that error; an empty answer streams nothing, any other answer is streamed as one chunk |
| IngestDocuments.PdfFiles | data/ingest_documents.py:17 | the files considered are exactly the directory entries ending in ".pdf", each as many times as it is listed and no other entry |
| IngestDocuments.BuildSkipSet | data/ingest_documents.py:28-39 | the skip-set holds exactly the listed filenames when the listing answered 200, and is empty when it answered otherwise or raised |
| IngestDocuments.Attempted | data/ingest_documents.py:41-44 | the files posted are never more than the files |
| IngestDocuments.AttemptedMembers | data/ingest_documents.py:41-44 | a file is posted exactly when it is a file and its name is not in the skip-set |
| IngestDocuments.Successes | data/ingest_documents.py:54-56 | the success count never exceeds the uploads |
| IngestDocuments.SuccessesRange | data/ingest_documents.py:54-63 | all uploads are successes exactly when every reply was 200, none exactly when no reply was |
| IngestDocuments.UploadAll | data/ingest_documents.py:41-63 | the loop posts the non-skipped files in order; the success count is the number of 200 replies; success plus failure equals the number posted |
| IngestDocuments.Ingest | data/ingest_documents.py:7-68 | a missing directory or one without PDFs returns early with nothing posted; otherwise the run completes and reports its counts, the files posted are the non-skipped PDFs in order, a file is posted exactly when it is a PDF of the directory not in a 200 listing, and the counters add up |
| IngestDocuments.SkipSetRestricted | data/ingest_documents.py:41-44 | which files are posted depends only on the skip-set names that are also files |
| IngestDocuments.AttemptedAppend | data/ingest_documents.py:41-63 | one file's outcome does not stop the later files: the files posted from a list are those of its parts, in order |
| IngestDocuments.SuccessesAppend | data/ingest_documents.py:54-63 | the success counts of consecutive uploads add up |
| IngestDocuments.AllSkipped | data/ingest_documents.py:41-44 | when every file is in the skip-set, nothing is posted |
| IngestDocuments.RerunUploadsNothing | data/ingest_documents.py:28-44 | when the listing names every PDF of the directory, no file is posted |

## Left out

- The loaders' parsing (text encodings, PDF pages, CSV rows) is not modelled. A loader is a parameter that returns documents or raises.
- The text splitter (`_split_documents`, chunk size 1000, overlap 200) is not modelled. It is a parameter from documents to chunks.
- Embeddings, similarity search and the model call are not modelled. The store's answer to each batch, the search reply and the model's answer are inputs.
- HTTP, `async` and the thread pool are not modelled. Writing the upload to the temporary file and deleting it are not modelled either; only the temporary path's suffix is.
- Logging and `print` are not modelled.
- Service start-up (`lifespan`), `/health` and `/search` are not part of this model. Neither are `backend/config.py` and `data/ingest_products.py`.
- TextUtil.Suffix: `lower()` is modelled for ASCII letters only; Unicode case mapping is not modelled. The suffix follows the rule of Python before 3.14: a name ending in "." has no suffix. Python 3.14 gives "." for `foo.`. Path components other than the last one that is neither empty nor "." do not affect the suffix, so the rest of pathlib's parsing (for example "//" at the start) is not modelled.
- `ORDER BY` is modelled as code-point order. The database collation is not modelled.
- SQL leaves rows with equal filenames in no particular order. The model breaks such ties by source, then by file type.
- Metadata values are held as text. A non-text `source` value is not modelled; Python would render it with `str`, for example `None`.
- `StreamChatResponse`: the model's answer is a parameter rather than a function of the messages sent. Its contract states what is sent, not how the answer depends on it.
- `IngestDocuments.Ingest`: each upload's reply depends only on the file name. The service's state changes between uploads are not modelled.
- `IngestDocuments.BuildSkipSet`: a listing that raises part-way through its loop (an entry that is not an object) is treated like one that raised before the loop. Python would keep the names added so far.
- `IngestDocuments.PdfFiles`: the glob order and directories whose name ends in `.pdf` are not modelled; the directory is a list of file names.
- `RemoveDocumentsFromDb`: a database error is modelled only as the failure to connect. A failure of the `DELETE` itself is not modelled.
- The success replies' `"status": "success"` and `"message"` fields are not modelled (backend/vector_db_api.py:254, 317, 321, 349, 351). `Added`, `Removed` and `Listing` carry only the fields the client reads.
- `GetDocumentsInfo`: a database error is modelled only as the failure to connect. Failures of the two queries are not modelled.

## Behaviour of the code worth knowing

- Removal reports whether something was deleted (a boolean), not a count.
- A repeated removal answers 404.
- The retrieval step swallows every failure. It does not look at the status code: an error body has no `results` and gives no passages. One malformed entry drops all passages.
- The ingestion driver uploads only `*.pdf` files, one HTTP upload per file.
