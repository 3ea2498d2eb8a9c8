/**
 * The document-management rules of the vector-store service: loading an
 * uploaded file (extension dispatch and metadata stamping), committing chunks
 * in batches, rewriting the connection string, removing a document and
 * listing the indexed documents. The database, the loaders, the splitter and
 * the embedding calls are outside the model and enter as parameters.
 */
module VectorDbApi {
  import opened Wrappers
  import opened TextUtil
  import opened VectorDbRecords

  /** The exceptions the endpoints tell apart when they choose a status code. */
  datatype Exception =
    | ValueError(message: string)      // validation error
    | DatabaseError(message: string)   // psycopg.Error
    | OtherError(message: string)      // any other exception (loader, embedding or store failure)

  /** An `HTTPException`: status code and detail. */
  datatype HttpError = HttpError(status: int, detail: string)

  /** `str(n)` for a non-negative integer: its decimal digits, most significant first, without leading zeros. */
  function DecimalText(n: nat): (s: string)
    ensures |s| > 0 && (|s| > 1 ==> s[0] != '0')
    ensures forall i :: 0 <= i < |s| ==> '0' <= s[i] <= '9'
  {
    if n < 10 then [Digit(n)] else DecimalText(n / 10) + [Digit(n % 10)]
  }

  function Digit(d: nat): (c: char)
    requires d < 10
  {
    ['0', '1', '2', '3', '4', '5', '6', '7', '8', '9'][d]
  }

  /** The number a string of decimal digits denotes. */
  function DecimalValue(s: string): nat
    requires forall i :: 0 <= i < |s| ==> '0' <= s[i] <= '9'
  {
    if s == [] then 0 else DecimalValue(s[..|s| - 1]) * 10 + (s[|s| - 1] as int - '0' as int)
  }

  /** Reading back the decimal text of a number gives the number. */
  lemma {:induction false} DecimalRoundTrip(n: nat)
    ensures DecimalValue(DecimalText(n)) == n
  {
    var s := DecimalText(n);
    if n >= 10 {
      assert s[..|s| - 1] == DecimalText(n / 10);
      DecimalRoundTrip(n / 10);
    }
  }

  /** `str(e)` of a raised `HTTPException`: its status code in decimal, a colon and a space, then its detail. */
  function ExceptionText(e: HttpError): string
    requires e.status >= 0
  {
    DecimalText(e.status) + ": " + e.detail
  }

  /** The status code and the detail can be read back from the text of an `HTTPException`. */
  lemma ExceptionTextParts(e: HttpError)
    requires e.status >= 0
    ensures var text, k := ExceptionText(e), |ExceptionText(e)| - |e.detail| - 2;
      && 0 < k
      && (forall i :: 0 <= i < k ==> '0' <= text[i] <= '9')
      && DecimalValue(text[..k]) == e.status
      && text[k..] == ": " + e.detail
  {
    DecimalRoundTrip(e.status);
    var digits := DecimalText(e.status);
    var text := ExceptionText(e);
    assert |text| - |e.detail| - 2 == |digits|;
    assert text[..|digits|] == digits;
    assert text[|digits|..] == ": " + e.detail;
  }

  /** What the catch-all handler makes of a 500 it catches: a 500 whose detail starts with "500: ". */
  lemma CatchAll500(detail: string)
    ensures CaughtByCatchAll(HttpError(500, detail)) == HttpError(500, "500: " + detail)
  {
    assert DecimalText(5) == "5";
    assert DecimalText(50) == "50";
    assert DecimalText(500) == "500";
  }

  /** A catch-all `except Exception as e` handler: a 500 whose detail is `str(e)`. */
  function CaughtByCatchAll(e: HttpError): (h: HttpError)
    requires e.status >= 0
    ensures h.status == 500 && h.detail == ExceptionText(e)
  {
    HttpError(500, ExceptionText(e))
  }

  /** The settings the service reads: the PGVector connection string (optional) and the collection name. */
  datatype Config = Config(connectionString: Option<string>, collectionName: string)

  /** The detail of the error raised when no connection string is configured. */
  const NotConfigured := "PGVector connection not configured"

  /** `not config.connection_string_pgvector`: missing or empty. */
  predicate Unconfigured(config: Config) {
    config.connectionString == None || config.connectionString == Some("")
  }

  // ---------------------------------------------------------------------
  // Loading an uploaded file
  // ---------------------------------------------------------------------

  /** The extensions `add_document` accepts. */
  const SupportedExtensions: seq<string> := [".txt", ".md", ".pdf", ".csv"]

  /** The three document loaders. */
  datatype LoaderKind = TextLoader | PdfLoader | CsvLoader

  /** `Path(p).suffix.lower()` */
  function FileExtension(path: string): string {
    Lower(Suffix(path))
  }

  /** The extension check depends on the file name only up to letter case. */
  lemma ExtensionIgnoresCase(p: string, q: string)
    requires Lower(p) == Lower(q)
    ensures FileExtension(p) == FileExtension(q)
  {
    SuffixOfLower(p);
    SuffixOfLower(q);
  }

  /**
   * The loader dispatch: text and Markdown share the text loader, PDF and CSV
   * have their own, and any other extension raises a validation error.
   */
  function SelectLoader(ext: string): (r: Result<LoaderKind, Exception>)
    ensures r.Success? <==> ext in SupportedExtensions
    ensures r == Success(TextLoader) <==> ext == ".txt" || ext == ".md"
    ensures r == Success(PdfLoader) <==> ext == ".pdf"
    ensures r == Success(CsvLoader) <==> ext == ".csv"
    ensures r.Failure? ==> r.error.ValueError?
  {
    if ext == ".txt" || ext == ".md" then Success(TextLoader)
    else if ext == ".pdf" then Success(PdfLoader)
    else if ext == ".csv" then Success(CsvLoader)
    else Failure(ValueError("Unsupported file type: " + ext))
  }

  /** `s.lstrip('.')` */
  function LStripDots(s: string): (r: string)
    ensures r == [] || r[0] != '.'
    ensures |r| <= |s|
  {
    if |s| > 0 && s[0] == '.' then LStripDots(s[1..]) else s
  }

  /** The file type recorded for a suffix: `file_ext.lstrip('.')`. */
  function FileType(ext: string): string
  {
    LStripDots(ext)
  }

  /** For a suffix as `Path.suffix` yields it (one dot, leading), the file type is the suffix without its dot. */
  lemma FileTypeOfSuffix(ext: string)
    ensures ext != "" && ext[0] == '.' && '.' !in ext[1..] ==> FileType(ext) == ext[1..]
  {
    if ext != "" && ext[0] == '.' && '.' !in ext[1..] {
      assert FileType(ext) == LStripDots(ext[1..]);
      if |ext| > 1 {
        assert ext[1..][0] != '.';
      }
    }
  }

  /** The metadata stamped on every loaded document. */
  predicate IsStamped(d: Document, filename: string, fileType: string) {
    MetaIs(d.metadata, "source", "uploaded")
    && MetaIs(d.metadata, "filename", filename)
    && MetaIs(d.metadata, "file_type", fileType)
  }

  /**
   * `doc.metadata.update({...})`: the three keys are set, every other key and
   * the page content are left as they were.
   */
  function Stamped(d: Document, filename: string, fileType: string): (s: Document)
    ensures IsStamped(s, filename, fileType)
    ensures s.pageContent == d.pageContent
    ensures s.metadata.Keys == d.metadata.Keys + {"source", "filename", "file_type"}
    ensures forall k :: k in d.metadata && k !in {"source", "filename", "file_type"} ==> s.metadata[k] == d.metadata[k]
  {
    d.(metadata := d.metadata["source" := "uploaded"]["filename" := filename]["file_type" := fileType])
  }

  /** Every document stamped, in order. */
  function StampedAll(raw: seq<Document>, filename: string, fileType: string): (docs: seq<Document>)
    ensures |docs| == |raw|
    ensures forall i :: 0 <= i < |raw| ==> docs[i] == Stamped(raw[i], filename, fileType)
    ensures forall d :: d in docs ==> IsStamped(d, filename, fileType)
  {
    seq(|raw|, i requires 0 <= i < |raw| => Stamped(raw[i], filename, fileType))
  }

  /** The stamping loop: updates the metadata of every document in place. */
  method StampAll(docs: array<Document>, filename: string, fileType: string)
    modifies docs
    ensures forall i :: 0 <= i < docs.Length ==> docs[i] == Stamped(old(docs[i]), filename, fileType)
  {
    for i := 0 to docs.Length
      invariant forall j :: 0 <= j < i ==> docs[j] == Stamped(old(docs[j]), filename, fileType)
      invariant forall j :: i <= j < docs.Length ==> docs[j] == old(docs[j])
    {
      docs[i] := Stamped(docs[i], filename, fileType);
    }
  }

  /**
   * `_load_document_from_file`: selects the loader from the lower-cased
   * suffix of `filePath`, raising a validation error for an unsupported one;
   * runs it (`load` stands for the loaders, whose parsing is not modelled);
   * re-raises its failure; otherwise returns its documents in order, each
   * stamped with the display name `filename` and the file type.
   */
  method LoadDocumentFromFile(filePath: string, filename: string, load: LoaderKind -> Result<seq<Document>, Exception>)
    returns (r: Result<seq<Document>, Exception>)
    ensures FileExtension(filePath) !in SupportedExtensions ==> r == Failure(ValueError("Unsupported file type: " + FileExtension(filePath)))
    ensures FileExtension(filePath) in SupportedExtensions ==>
      var loaded := load(SelectLoader(FileExtension(filePath)).value);
      && (loaded.Failure? ==> r == loaded)
      && (loaded.Success? ==> r == Success(StampedAll(loaded.value, filename, FileType(FileExtension(filePath)))))
  {
    var ext := FileExtension(filePath);
    var kind := SelectLoader(ext);
    if kind.Failure? {
      return Failure(kind.error);
    }
    var loaded := load(kind.value);
    if loaded.Failure? {
      return loaded;
    }
    var raw := loaded.value;
    var docs := new Document[|raw|](i requires 0 <= i < |raw| => raw[i]);
    StampAll(docs, filename, FileType(ext));
    assert docs[..] == StampedAll(raw, filename, FileType(ext));
    r := Success(docs[..]);
  }

  // ---------------------------------------------------------------------
  // Batch commit
  // ---------------------------------------------------------------------

  const BatchSize := 1000

  /** `[chunks[i:i + 1000] for i in range(0, len(chunks), 1000)]` */
  function Batches<T>(chunks: seq<T>): (bs: seq<seq<T>>)
    ensures |chunks| == 0 <==> |bs| == 0
    ensures |chunks| > 0 ==> (|bs| - 1) * BatchSize < |chunks| <= |bs| * BatchSize
    ensures forall k :: 0 <= k < |bs| ==> 0 < |bs[k]| <= BatchSize
    decreases |chunks|
  {
    if chunks == [] then []
    else if |chunks| <= BatchSize then [chunks]
    else [chunks[..BatchSize]] + Batches(chunks[BatchSize..])
  }

  function Flatten<T>(bs: seq<seq<T>>): seq<T> {
    if bs == [] then [] else bs[0] + Flatten(bs[1..])
  }

  lemma {:induction false} FlattenAppend<T>(bs: seq<seq<T>>, b: seq<T>)
    ensures Flatten(bs + [b]) == Flatten(bs) + b
  {
    if bs != [] {
      assert (bs + [b])[1..] == bs[1..] + [b];
      FlattenAppend(bs[1..], b);
    }
  }

  /** The batches, put back together in order, are the chunk list. */
  lemma {:induction false} BatchesConcatenate<T>(chunks: seq<T>)
    ensures Flatten(Batches(chunks)) == chunks
    decreases |chunks|
  {
    if |chunks| > BatchSize {
      BatchesConcatenate(chunks[BatchSize..]);
      assert chunks == chunks[..BatchSize] + chunks[BatchSize..];
    }
  }

  /** Batch `k` is the slice that starts at `k * 1000` and holds at most 1000 chunks. */
  lemma {:induction false} BatchAt<T>(chunks: seq<T>, k: nat)
    requires k < |Batches(chunks)|
    ensures k * BatchSize < |chunks|
    ensures Batches(chunks)[k] == chunks[k * BatchSize .. Min(k * BatchSize + BatchSize, |chunks|)]
    decreases |chunks|
  {
    if k > 0 {
      BatchAt(chunks[BatchSize..], k - 1);
      assert chunks[BatchSize..][(k - 1) * BatchSize .. Min((k - 1) * BatchSize + BatchSize, |chunks| - BatchSize)]
          == chunks[k * BatchSize .. Min(k * BatchSize + BatchSize, |chunks|)];
    }
  }

  function Min(a: int, b: int): int {
    if a <= b then a else b
  }

  /** The store's answer to the insertion of batch `j`: the ids it assigned, or the exception it raised. */
  type InsertOutcomes = nat -> Result<seq<string>, Exception>

  /**
   * How many batches, from the first, the store accepts before its first
   * failure among the first `n`.
   */
  function CommittedBatches(insert: InsertOutcomes, n: nat): (m: nat)
    ensures m <= n
    ensures forall j :: 0 <= j < m ==> insert(j).Success?
    ensures m < n ==> insert(m).Failure?
  {
    if n == 0 then 0
    else
      var m := CommittedBatches(insert, n - 1);
      if m < n - 1 then m
      else if insert(n - 1).Success? then n
      else n - 1
  }

  /** `total_added` after `n` accepted batches: the number of ids returned for them. */
  function TotalIds(insert: InsertOutcomes, n: nat): nat {
    if n == 0 then 0
    else TotalIds(insert, n - 1) + (if insert(n - 1).Success? then |insert(n - 1).value| else 0)
  }

  function RecordsOf(docs: seq<Document>, collection: string): (rs: seq<Record>)
    ensures |rs| == |docs|
    ensures forall i :: 0 <= i < |docs| ==> rs[i] == Record(docs[i], collection)
  {
    seq(|docs|, i requires 0 <= i < |docs| => Record(docs[i], collection))
  }

  lemma RecordsOfAppend(a: seq<Document>, b: seq<Document>, collection: string)
    ensures RecordsOf(a + b, collection) == RecordsOf(a, collection) + RecordsOf(b, collection)
  {
  }

  /** The `langchain_pg_embedding` table, changed in place by insertion and deletion. */
  class EmbeddingTable {
    var records: seq<Record>

    constructor (records: seq<Record>)
      ensures this.records == records
    {
      this.records := records;
    }

    /**
     * `vector_store.add_documents(batch)`: when the store accepts the batch
     * (`outcome` holds the ids it assigned) the batch is committed at the end
     * of the table under `collection`; when it raises, nothing changes.
     */
    method AddDocuments(batch: seq<Document>, collection: string, outcome: Result<seq<string>, Exception>)
      returns (ids: Result<seq<string>, Exception>)
      modifies this
      ensures ids == outcome
      ensures records == old(records) + (if outcome.Success? then RecordsOf(batch, collection) else [])
    {
      ids := outcome;
      if outcome.Success? {
        records := records + RecordsOf(batch, collection);
      }
    }

    /** The removal DELETE; returns the number of deleted rows (`cur.rowcount`). */
    method DeleteMatching(source: string, filename: string, collection: string) returns (deleted: nat)
      modifies this
      ensures records == Kept(old(records), source, filename, collection)
      ensures deleted == |old(records)| - |records|
    {
      var before := records;
      records := Kept(records, source, filename, collection);
      deleted := |before| - |records|;
    }
  }

  /**
   * The batch loop of `add_document`: inserts `chunks` in consecutive batches
   * of at most 1000, strictly in order, adding up the ids returned. When batch
   * `m` raises, batches 0 to m-1 stay committed, no later batch is attempted,
   * and the exception propagates.
   */
  method AddInBatches(table: EmbeddingTable, chunks: seq<Document>, collection: string, insert: InsertOutcomes)
    returns (r: Result<nat, Exception>)
    modifies table
    ensures var bs := Batches(chunks);
            table.records == old(table.records) + CommittedRecords(bs, CommittedBatches(insert, |bs|), collection)
    ensures var n := |Batches(chunks)|;
            CommittedBatches(insert, n) == n ==> r == Success(TotalIds(insert, n))
    ensures var n := |Batches(chunks)|;
            CommittedBatches(insert, n) < n ==> r == Failure(insert(CommittedBatches(insert, n)).error)
  {
    ghost var bs := Batches(chunks);
    ghost var before := table.records;
    var total := 0;
    var i := 0;
    var j := 0;
    while i < |chunks|
      invariant 0 <= j <= |bs|
      invariant i == j * BatchSize
      invariant j < |bs| <==> i < |chunks|
      invariant CommittedBatches(insert, j) == j
      invariant table.records == before + CommittedRecords(bs, j, collection)
      invariant total == TotalIds(insert, j)
    {
      var ids := CommitBatch(table, chunks, i, j, collection, insert);
      if ids.Failure? {
        return Failure(ids.error);
      }
      total := total + |ids.value|;
      CommitStep(bs, j, collection);
      i := i + BatchSize;
      j := j + 1;
    }
    r := Success(total);
  }

  /**
   * One turn of the batch loop: the slice `chunks[i:i + 1000]` is batch `j`,
   * and handing it to the store commits it or leaves the table as it was.
   */
  method CommitBatch(table: EmbeddingTable, chunks: seq<Document>, i: nat, j: nat, collection: string, insert: InsertOutcomes)
    returns (ids: Result<seq<string>, Exception>)
    requires j < |Batches(chunks)| && i == j * BatchSize
    requires CommittedBatches(insert, j) == j
    modifies table
    ensures ids == insert(j)
    ensures ids.Failure? ==> table.records == old(table.records)
    ensures ids.Failure? ==> CommittedBatches(insert, |Batches(chunks)|) == j
    ensures ids.Success? ==> CommittedBatches(insert, j + 1) == j + 1
    ensures ids.Success? ==> table.records == old(table.records) + RecordsOf(Batches(chunks)[j], collection)
  {
    BatchAt(chunks, j);
    var batch := chunks[i..if i + BatchSize <= |chunks| then i + BatchSize else |chunks|];
    ids := table.AddDocuments(batch, collection, insert(j));
    if ids.Failure? {
      FailedAt(insert, j, |Batches(chunks)|);
    }
  }

  /** The records of the first `j` batches, as committed under `collection`. */
  function CommittedRecords(bs: seq<seq<Document>>, j: nat, collection: string): seq<Record>
    requires j <= |bs|
  {
    RecordsOf(Flatten(bs[..j]), collection)
  }

  /** When batch `j` is the first to fail, exactly `j` batches are committed in all. */
  lemma FailedAt(insert: InsertOutcomes, j: nat, n: nat)
    requires j < n
    requires CommittedBatches(insert, j) == j && insert(j).Failure?
    ensures CommittedBatches(insert, n) == j
  {
    CommittedStops(insert, j + 1, n);
  }

  /** Committing batch `j` appends its records after those of the batches before it. */
  lemma CommitStep(bs: seq<seq<Document>>, j: nat, collection: string)
    requires j < |bs|
    ensures CommittedRecords(bs, j + 1, collection) == CommittedRecords(bs, j, collection) + RecordsOf(bs[j], collection)
  {
    assert bs[..j + 1] == bs[..j] + [bs[j]];
    FlattenAppend(bs[..j], bs[j]);
    RecordsOfAppend(Flatten(bs[..j]), bs[j], collection);
  }

  /** Once a batch has failed, later batches change nothing in the count of committed ones. */
  lemma {:induction false} CommittedStops(insert: InsertOutcomes, n: nat, n': nat)
    requires n <= n'
    requires CommittedBatches(insert, n) < n
    ensures CommittedBatches(insert, n') == CommittedBatches(insert, n)
    decreases n' - n
  {
    if n < n' {
      CommittedStops(insert, n, n' - 1);
    }
  }

  /** There are ceil(n/1000) batches. */
  lemma {:induction false} BatchCount<T>(chunks: seq<T>)
    ensures |Batches(chunks)| == (|chunks| + BatchSize - 1) / BatchSize
    decreases |chunks|
  {
    if |chunks| > BatchSize {
      BatchCount(chunks[BatchSize..]);
    }
  }

  /** The temporary file the upload is written to keeps the upload's extension. */
  function TempPath(ext: string): string {
    "/tmp/upload" + ext
  }

  /** Each supported extension is one dot followed by lower-case letters. */
  lemma SupportedExtensionShape(ext: string)
    requires ext in SupportedExtensions
    ensures '/' !in ext && '.' !in ext[1..] && ext == "." + ext[1..]
    ensures Lower(ext) == ext
  {
    assert forall i :: 0 <= i < |ext| ==> !('A' <= ext[i] <= 'Z');
  }

  /**
   * An upload named `stem + ext`, alone or under a directory, whose
   * extension is supported up to letter case (`report.PDF`, `notes.md`) is
   * accepted: its extension is the lower-cased `ext`, and a loader is chosen
   * for it.
   */
  lemma SupportedUploadAccepted(dir: string, stem: string, ext: string)
    ensures |stem| > 0 && '/' !in stem && Lower(ext) in SupportedExtensions ==>
      && FileExtension(stem + ext) == Lower(ext)
      && FileExtension(dir + "/" + (stem + ext)) == Lower(ext)
      && SelectLoader(Lower(ext)).Success?
  {
    if |stem| > 0 && '/' !in stem && Lower(ext) in SupportedExtensions {
      SupportedExtensionShape(Lower(ext));
      ShapeBeforeLower(ext);
      SuffixOfFile(dir, stem, ext);
    }
  }

  /** Lower-casing moves no '.' or '/', so a lower-cased suffix shape is the shape of the original. */
  lemma ShapeBeforeLower(ext: string)
    requires '/' !in Lower(ext) && |Lower(ext)| >= 2 && Lower(ext)[0] == '.' && '.' !in Lower(ext)[1..]
    ensures '/' !in ext && |ext| >= 2 && ext[0] == '.' && '.' !in ext[1..]
  {
    var low := Lower(ext);
    assert forall j :: 0 <= j < |ext| ==> (ext[j] == '.' ==> low[j] == '.') && (ext[j] == '/' ==> low[j] == '/');
    assert forall j :: 1 <= j < |ext| ==> low[j] == low[1..][j - 1];
  }

  lemma TempPathExtension(ext: string)
    requires ext in SupportedExtensions
    ensures FileExtension(TempPath(ext)) == ext
  {
    SupportedExtensionShape(ext);
    TempPathName(ext);
    UploadNameSuffix(ext);
  }

  lemma TempPathName(ext: string)
    requires '/' !in ext
    ensures BaseName(TempPath(ext)) == "upload" + ext
  {
    RFindAppend("/tmp/upload", ext, '/');
    RFindLast("/tmp/upload", '/', 4);
  }

  lemma UploadNameSuffix(ext: string)
    requires |ext| >= 2 && ext == "." + ext[1..] && '.' !in ext[1..]
    ensures NameSuffix("upload" + ext) == ext
  {
    assert "upload" + ext == "upload." + ext[1..];
    RFindAppend("upload.", ext[1..], '.');
    RFindLast("upload.", '.', 6);
  }

  /** The status an exception becomes at an endpoint: a validation error is the client's fault, the rest a server error. */
  function StatusOf(e: Exception): (status: int)
    ensures status == 400 <==> e.ValueError?
    ensures status == 400 || status == 500
  {
    if e.ValueError? then 400 else 500
  }

  /** The success body of `add_document`. */
  datatype Added = Added(filename: string, fileType: string, chunksAdded: nat)

  /**
   * What an exception raised while a file is processed becomes at
   * `add_document`: a validation error is a 400 carrying its message, any
   * other exception a 500.
   */
  function ProcessingError(e: Exception): (h: HttpError)
    ensures h.status == StatusOf(e)
    ensures e.ValueError? ==> h.detail == e.message
    ensures !e.ValueError? ==> EndsWith(h.detail, e.message)
  {
    HttpError(StatusOf(e), if e.ValueError? then e.message else "Error processing file: " + e.message)
  }

  /** The upload names `add_document` goes on with: present, not empty, with a supported extension. */
  predicate Accepted(uploadName: Option<string>) {
    uploadName.Some? && uploadName.value != "" && FileExtension(uploadName.value) in SupportedExtensions
  }

  /** What the loader gives for an accepted upload. */
  function LoadedUpload(uploadName: Option<string>, load: LoaderKind -> Result<seq<Document>, Exception>): Result<seq<Document>, Exception>
    requires Accepted(uploadName)
  {
    load(SelectLoader(FileExtension(uploadName.value)).value)
  }

  /** The chunk list of an accepted upload whose load succeeded: the stamped documents, split. */
  function UploadChunks(uploadName: Option<string>, loaded: seq<Document>, split: seq<Document> -> seq<Document>): seq<Document>
    requires Accepted(uploadName)
  {
    split(StampedAll(loaded, uploadName.value, FileType(FileExtension(uploadName.value))))
  }

  /**
   * `add_document`: rejects an upload without a name or with an unsupported
   * extension (400), loads it through the temporary file, rejects an empty
   * load (400), splits it (`split` stands for the text splitter) and commits
   * the chunks in batches. A validation error becomes 400, any other
   * exception 500. The table changes only through committed batches.
   */
  method AddDocument(table: EmbeddingTable, collection: string, uploadName: Option<string>,
                     load: LoaderKind -> Result<seq<Document>, Exception>,
                     split: seq<Document> -> seq<Document>, insert: InsertOutcomes)
    returns (r: Result<Added, HttpError>)
    modifies table
    ensures (uploadName == None || uploadName == Some("")) ==> r == Failure(HttpError(400, "No filename provided"))
    ensures uploadName.Some? && uploadName.value != "" && !Accepted(uploadName) ==>
      r == Failure(HttpError(400, "Unsupported file type: " + FileExtension(uploadName.value) + ". Supported: .txt, .md, .pdf, .csv"))
    ensures !Accepted(uploadName) ==> table.records == old(table.records)
    ensures Accepted(uploadName) && LoadedUpload(uploadName, load).Failure? ==>
      r == Failure(ProcessingError(LoadedUpload(uploadName, load).error)) && table.records == old(table.records)
    ensures Accepted(uploadName) && LoadedUpload(uploadName, load) == Success([]) ==>
      r == Failure(HttpError(400, "File is empty or could not be read")) && table.records == old(table.records)
    ensures Accepted(uploadName) && LoadedUpload(uploadName, load).Success? && LoadedUpload(uploadName, load).value != [] ==>
      var bs := Batches(UploadChunks(uploadName, LoadedUpload(uploadName, load).value, split));
      table.records == old(table.records) + CommittedRecords(bs, CommittedBatches(insert, |bs|), collection)
    ensures Accepted(uploadName) && LoadedUpload(uploadName, load).Success? && LoadedUpload(uploadName, load).value != [] ==>
      var bs := Batches(UploadChunks(uploadName, LoadedUpload(uploadName, load).value, split));
      var m := CommittedBatches(insert, |bs|);
      && (m == |bs| ==> r == Success(Added(uploadName.value, FileType(FileExtension(uploadName.value)), TotalIds(insert, |bs|))))
      && (m < |bs| ==> r == Failure(ProcessingError(insert(m).error)))
  {
    if uploadName == None || uploadName == Some("") {
      return Failure(HttpError(400, "No filename provided"));
    }
    var name := uploadName.value;
    var ext := FileExtension(name);
    if ext !in SupportedExtensions {
      return Failure(HttpError(400, "Unsupported file type: " + ext + ". Supported: .txt, .md, .pdf, .csv"));
    }
    TempPathExtension(ext);
    var documents := LoadDocumentFromFile(TempPath(ext), name, load);
    if documents.Failure? {
      return Failure(ProcessingError(documents.error));
    }
    if documents.value == [] {
      return Failure(HttpError(400, "File is empty or could not be read"));
    }
    var chunks := split(documents.value);
    var added := AddInBatches(table, chunks, collection, insert);
    if added.Failure? {
      return Failure(ProcessingError(added.error));
    }
    r := Success(Added(name, FileType(ext), added.value));
  }

  // ---------------------------------------------------------------------
  // Connection string
  // ---------------------------------------------------------------------

  const SqlAlchemyScheme := "postgresql+psycopg://"
  const PsycopgScheme := "postgresql://"

  /**
   * `_convert_sqlalchemy_to_psycopg_connection_string`: a SQLAlchemy URL with
   * the psycopg driver becomes a plain PostgreSQL URL (every occurrence of
   * the driver scheme is replaced); any other string is returned as it is.
   */
  function ConvertConnectionString(s: string): (r: string)
    ensures !StartsWith(s, SqlAlchemyScheme) ==> r == s
    ensures StartsWith(s, SqlAlchemyScheme) ==> StartsWith(r, PsycopgScheme)
  {
    if StartsWith(s, SqlAlchemyScheme) then ReplaceAll(s, SqlAlchemyScheme, PsycopgScheme) else s
  }

  /** Converting twice is converting once: a converted URL no longer starts with the driver scheme. */
  lemma ConvertIdempotent(s: string)
    ensures ConvertConnectionString(ConvertConnectionString(s)) == ConvertConnectionString(s)
  {
    var r := ConvertConnectionString(s);
    if StartsWith(s, SqlAlchemyScheme) {
      assert r[10] == PsycopgScheme[10] != SqlAlchemyScheme[10];
    }
  }

  // ---------------------------------------------------------------------
  // Removal
  // ---------------------------------------------------------------------

  /**
   * `_remove_documents_from_db`: raises a validation error, before touching
   * the table, when no connection string is configured; raises a database
   * error when the converted connection string cannot be connected to
   * (`connect` stands for psycopg's connection); otherwise deletes the rows
   * the removal predicate selects and returns whether at least one was
   * deleted.
   */
  method RemoveDocumentsFromDb(table: EmbeddingTable, config: Config, connect: string -> bool, source: string, filename: string)
    returns (r: Result<bool, Exception>)
    modifies table
    ensures Unconfigured(config) ==> r == Failure(ValueError(NotConfigured)) && table.records == old(table.records)
    ensures !Unconfigured(config) && !connect(ConvertConnectionString(config.connectionString.value)) ==>
      r.Failure? && r.error.DatabaseError? && table.records == old(table.records)
    ensures !Unconfigured(config) && connect(ConvertConnectionString(config.connectionString.value)) ==>
      && table.records == Kept(old(table.records), source, filename, config.collectionName)
      && r == Success(exists i :: 0 <= i < |old(table.records)| && RemovalMatch(old(table.records)[i], source, filename, config.collectionName))
  {
    if Unconfigured(config) {
      return Failure(ValueError(NotConfigured));
    }
    var conninfo := ConvertConnectionString(config.connectionString.value);
    if !connect(conninfo) {
      return Failure(DatabaseError("connection failed"));
    }
    var deleted := table.DeleteMatching(source, filename, config.collectionName);
    r := Success(deleted > 0);
  }

  /** The success body of `remove_document`. */
  datatype Removed = Removed(filename: string)

  /**
   * `remove_document`: success when something was deleted, 404 when nothing
   * matched, 500 for a database error or any other exception (including the
   * missing configuration).
   */
  method RemoveDocument(table: EmbeddingTable, config: Config, connect: string -> bool, source: string, filename: string)
    returns (r: Result<Removed, HttpError>)
    modifies table
    ensures Unconfigured(config) ==> r == Failure(HttpError(500, NotConfigured)) && table.records == old(table.records)
    ensures !Unconfigured(config) && !connect(ConvertConnectionString(config.connectionString.value)) ==>
      r.Failure? && r.error.status == 500 && table.records == old(table.records)
    ensures !Unconfigured(config) && connect(ConvertConnectionString(config.connectionString.value)) ==>
      && table.records == Kept(old(table.records), source, filename, config.collectionName)
      && (r.Success? <==> exists i :: 0 <= i < |old(table.records)| && RemovalMatch(old(table.records)[i], source, filename, config.collectionName))
      && (r.Success? ==> r.value == Removed(filename))
      && (r.Failure? ==> r.error == HttpError(404, "Document not found: " + filename))
  {
    var removed := RemoveDocumentsFromDb(table, config, connect, source, filename);
    match removed
    case Success(true) => r := Success(Removed(filename));
    case Success(false) => r := Failure(HttpError(404, "Document not found: " + filename));
    case Failure(e) =>
      r := Failure(HttpError(500, if e.DatabaseError? then "Database error: " + e.message else e.message));
  }

  /**
   * A second removal with the same request, right after a first one, finds
   * nothing: it answers 404 and leaves the table as it is.
   */
  method RemoveTwice(table: EmbeddingTable, config: Config, connect: string -> bool, source: string, filename: string)
    returns (first: Result<Removed, HttpError>, second: Result<Removed, HttpError>)
    requires !Unconfigured(config) && connect(ConvertConnectionString(config.connectionString.value))
    modifies table
    ensures second.Failure? && second.error.status == 404
    ensures table.records == Kept(old(table.records), source, filename, config.collectionName)
  {
    first := RemoveDocument(table, config, connect, source, filename);
    ghost var afterFirst := table.records;
    RemovalIdempotent(old(table.records), source, filename, config.collectionName);
    assert forall i :: 0 <= i < |afterFirst| ==> !RemovalMatch(afterFirst[i], source, filename, config.collectionName);
    second := RemoveDocument(table, config, connect, source, filename);
  }

  // ---------------------------------------------------------------------
  // Listing
  // ---------------------------------------------------------------------

  /** One entry of the `documents` list. */
  datatype DocumentInfo = DocumentInfo(source: string, filename: string, fileType: string, chunksCount: nat)

  /** The listing body: `total_chunks`, `total_documents` and `documents`. */
  datatype Listing = Listing(totalChunks: nat, totalDocuments: nat, documents: seq<DocumentInfo>)

  /** Python's `value or default` on a nullable text: NULL and the empty string both give `default`. */
  function OrElse(v: Option<string>, default: string): (r: string)
    ensures v.Some? && v.value != "" ==> r == v.value
    ensures v == None || v == Some("") ==> r == default
  {
    if v.Some? && v.value != "" then v.value else default
  }

  /**
   * One result row as the endpoint reports it: a missing source becomes
   * 'Unknown', a missing filename the source (or 'Unknown' when that is
   * missing too), a missing file type 'unknown'; the count is kept.
   */
  function Shape(g: Group): (info: DocumentInfo)
    ensures info.source != "" && info.filename != "" && info.fileType != ""
    ensures info.chunksCount == g.count
    ensures info.source == OrElse(g.key.source, "Unknown")
    ensures info.filename == OrElse(g.key.filename, OrElse(g.key.source, "Unknown"))
    ensures info.fileType == OrElse(g.key.fileType, "unknown")
  {
    DocumentInfo(
      OrElse(g.key.source, "Unknown"),
      OrElse(g.key.filename, OrElse(g.key.source, "Unknown")),
      OrElse(g.key.fileType, "unknown"),
      g.count)
  }

  function SumChunks(infos: seq<DocumentInfo>): nat {
    if infos == [] then 0 else infos[0].chunksCount + SumChunks(infos[1..])
  }

  lemma {:induction false} SumChunksAppend(a: seq<DocumentInfo>, b: DocumentInfo)
    ensures SumChunks(a + [b]) == SumChunks(a) + b.chunksCount
  {
    if a != [] {
      assert (a + [b])[1..] == a[1..] + [b];
      SumChunksAppend(a[1..], b);
    }
  }

  lemma {:induction false} SumCountsPrefix(gs: seq<Group>, i: nat)
    requires i < |gs|
    ensures SumCounts(gs[..i + 1]) == SumCounts(gs[..i]) + gs[i].count
  {
    if i > 0 {
      assert gs[..i + 1][1..] == gs[1..][..i];
      assert gs[..i][1..] == gs[1..][..i - 1];
      SumCountsPrefix(gs[1..], i - 1);
    }
  }

  /** The result loop of `get_documents_info`: one shaped entry per row, in row order. */
  method ShapeRows(rows: seq<Group>) returns (infos: seq<DocumentInfo>)
    ensures |infos| == |rows|
    ensures forall i :: 0 <= i < |rows| ==> infos[i] == Shape(rows[i])
    ensures SumChunks(infos) == SumCounts(rows)
  {
    infos := [];
    var i := 0;
    while i < |rows|
      invariant 0 <= i <= |rows|
      invariant |infos| == i
      invariant forall j :: 0 <= j < i ==> infos[j] == Shape(rows[j])
      invariant SumChunks(infos) == SumCounts(rows[..i])
    {
      SumChunksAppend(infos, Shape(rows[i]));
      SumCountsPrefix(rows, i);
      infos := infos + [Shape(rows[i])];
      i := i + 1;
    }
    assert rows[..i] == rows;
  }

  /**
   * `get_documents_info`: 500 when no connection string is configured or the
   * database cannot be reached; otherwise `total_chunks` counts the records
   * of the collection, and `documents` holds one shaped entry per (source,
   * filename, file type) among them, in row order, with its record count.
   * The counts add up to `total_chunks`, and `total_documents` is the number
   * of entries.
   */
  method GetDocumentsInfo(table: EmbeddingTable, config: Config, connect: string -> bool)
    returns (r: Result<Listing, HttpError>)
    ensures Unconfigured(config) ==> r == Failure(HttpError(500, "500: " + NotConfigured))
    ensures !Unconfigured(config) && !connect(ConvertConnectionString(config.connectionString.value)) ==>
      r.Failure? && r.error.status == 500
    ensures !Unconfigured(config) && connect(ConvertConnectionString(config.connectionString.value)) ==>
      var listed := ListedRecords(table.records, config.collectionName);
      var rows := GroupRecords(listed);
      && r.Success?
      && r.value.totalChunks == |listed|
      && r.value.totalDocuments == |r.value.documents| == |rows|
      && (forall i :: 0 <= i < |rows| ==> r.value.documents[i] == Shape(rows[i]))
      && SumChunks(r.value.documents) == r.value.totalChunks
  {
    if Unconfigured(config) {
      // raised inside the `try`, and re-raised by its catch-all handler
      var raised := HttpError(500, NotConfigured);
      CatchAll500(raised.detail);
      return Failure(CaughtByCatchAll(raised));
    }
    var conninfo := ConvertConnectionString(config.connectionString.value);
    if !connect(conninfo) {
      return Failure(HttpError(500, "Database error: connection failed"));
    }
    var listed := ListedRecords(table.records, config.collectionName);
    var totalChunks := |listed|;
    var rows := GroupRecords(listed);
    var infos := ShapeRows(rows);
    r := Success(Listing(totalChunks, |infos|, infos));
  }
}
