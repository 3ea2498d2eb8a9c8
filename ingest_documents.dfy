/**
 * The command-line ingestion driver: it lists the PDF files of a directory,
 * asks the vector-database service which file names it already holds, and
 * uploads every other PDF one at a time, counting the uploads that were
 * accepted and those that were not.
 *
 * The file system and the HTTP service are inputs: the directory is the list
 * of its entry names (or nothing when it does not exist), the listing call is
 * its reply, and the upload call is a function from a file name to its
 * outcome.
 */
module IngestDocuments {
  import opened Wrappers
  import opened TextUtil

  /** One entry of the listing's `documents` array; an entry without a `filename` key yields `None`. */
  datatype ListedDoc = Named(filename: string) | Unnamed

  /** The reply to `GET /documents`. */
  datatype ListingReply =
    | ListingRaised                                   // connection error, or a body that is not JSON
    | ListingResponse(status: int, documents: seq<ListedDoc>)  // a missing `documents` key is an empty array

  /** The reply to one `POST /add_document`. */
  datatype UploadOutcome = Status(code: int) | UploadRaised

  /** What the driver reports when it returns. */
  datatype Report = NoDirectory | NoPdfFiles | Completed(success: nat, failure: nat)

  /** `Path.glob("*.pdf")`: the entries whose name ends in ".pdf", letter case included, in listing order. */
  function PdfFiles(entries: seq<string>): (files: seq<string>)
    ensures |files| <= |entries|
    ensures forall f :: f in files <==> f in entries && EndsWith(f, ".pdf")
    ensures forall f :: multiset(files)[f] == if EndsWith(f, ".pdf") then multiset(entries)[f] else 0
  {
    if entries == [] then []
    else
      var last := entries[|entries| - 1];
      var init := entries[..|entries| - 1];
      assert entries == init + [last];
      PdfFiles(init) + (if EndsWith(last, ".pdf") then [last] else [])
  }

  /** The names the service reports, when the listing answered with status 200; none otherwise. */
  predicate Listed(listing: ListingReply, name: string) {
    listing.ListingResponse? && listing.status == 200
    && exists i :: 0 <= i < |listing.documents| && listing.documents[i] == Named(name)
  }

  /** The files of `files` that are uploaded: those whose name is not in the skip-set, in order. */
  function Attempted(files: seq<string>, skip: set<string>): (r: seq<string>)
    ensures |r| <= |files|
  {
    if files == [] then []
    else
      var last := files[|files| - 1];
      var init := files[..|files| - 1];
      assert files == init + [last];
      Attempted(init, skip) + (if last in skip then [] else [last])
  }

  /** How many of the uploads of `names` were answered with status 200. */
  function Successes(names: seq<string>, upload: string -> UploadOutcome): (n: nat)
    ensures n <= |names|
  {
    if names == [] then 0
    else
      var init := names[..|names| - 1];
      Successes(init, upload) + (if upload(names[|names| - 1]) == Status(200) then 1 else 0)
  }

  /** A file is uploaded exactly when it is among the files and its name is not in the skip-set. */
  lemma {:induction false} AttemptedMembers(files: seq<string>, skip: set<string>)
    ensures forall f :: f in Attempted(files, skip) <==> f in files && f !in skip
  {
    if files != [] {
      var init := files[..|files| - 1];
      assert files == init + [files[|files| - 1]];
      AttemptedMembers(init, skip);
    }
  }

  /**
   * Every upload is counted once: all of them are successes exactly when
   * every reply was status 200, and none exactly when no reply was.
   */
  lemma {:induction false} SuccessesRange(names: seq<string>, upload: string -> UploadOutcome)
    ensures Successes(names, upload) == |names| <==> forall i :: 0 <= i < |names| ==> upload(names[i]) == Status(200)
    ensures Successes(names, upload) == 0 <==> forall i :: 0 <= i < |names| ==> upload(names[i]) != Status(200)
  {
    if names != [] {
      var init := names[..|names| - 1];
      assert forall i :: 0 <= i < |init| ==> init[i] == names[i];
      SuccessesRange(init, upload);
    }
  }

  /**
   * The skip-set: the `filename` of every listed document when the listing
   * answered with status 200, and nothing when it answered otherwise or
   * raised.
   */
  method BuildSkipSet(listing: ListingReply) returns (skip: set<string>)
    ensures forall name :: name in skip <==> Listed(listing, name)
    ensures !(listing.ListingResponse? && listing.status == 200) ==> skip == {}
  {
    skip := {};
    if listing.ListingRaised? || listing.status != 200 {
      return;
    }
    var docs := listing.documents;
    for i := 0 to |docs|
      invariant forall name :: name in skip <==> exists j :: 0 <= j < i && docs[j] == Named(name)
    {
      if docs[i].Named? {
        skip := skip + {docs[i].filename};
      }
    }
  }

  /**
   * `ingest_documents`: returns early when the directory does not exist or
   * holds no PDF file; otherwise uploads every PDF whose name is not in the
   * skip-set, in listing order, and counts status 200 as a success and any
   * other status or a raised call as a failure. `uploaded` is the sequence of
   * names posted.
   */
  method Ingest(directory: Option<seq<string>>, listing: ListingReply, upload: string -> UploadOutcome)
    returns (report: Report, uploaded: seq<string>)
    ensures directory.None? ==> report == NoDirectory && uploaded == []
    ensures directory.Some? && PdfFiles(directory.value) == [] ==> report == NoPdfFiles && uploaded == []
    ensures directory.Some? && PdfFiles(directory.value) != [] ==>
      var skip := set name | Listed(listing, name) && name in PdfFiles(directory.value);
      report.Completed? && uploaded == Attempted(PdfFiles(directory.value), skip)
    ensures report.Completed? ==>
      report.success == Successes(uploaded, upload) && report.success + report.failure == |uploaded|
    ensures forall f :: f in uploaded <==>
      directory.Some? && f in directory.value && EndsWith(f, ".pdf") && !Listed(listing, f)
  {
    if directory.None? {
      return NoDirectory, [];
    }
    var files := PdfFiles(directory.value);
    if files == [] {
      return NoPdfFiles, [];
    }
    var existing := BuildSkipSet(listing);
    var success, failure;
    success, failure, uploaded := UploadAll(files, existing, upload);
    SkipSetRestricted(files, existing, set name | Listed(listing, name) && name in files);
    AttemptedMembers(files, existing);
    report := Completed(success, failure);
  }

  /**
   * The per-file loop: each file whose name is in `skip` is passed over, each
   * other one is posted, and its outcome counted.
   */
  method UploadAll(files: seq<string>, skip: set<string>, upload: string -> UploadOutcome)
    returns (success: nat, failure: nat, uploaded: seq<string>)
    ensures uploaded == Attempted(files, skip)
    ensures success == Successes(uploaded, upload)
    ensures success + failure == |uploaded|
  {
    success, failure := 0, 0;
    uploaded := [];
    for i := 0 to |files|
      invariant uploaded == Attempted(files[..i], skip)
      invariant success == Successes(uploaded, upload)
      invariant success + failure == |uploaded|
    {
      AttemptedStep(files, i, skip);
      var name := files[i];
      if name in skip {
        continue;
      }
      SuccessesStep(uploaded, name, upload);
      uploaded := uploaded + [name];
      var outcome := upload(name);
      if outcome.Status? && outcome.code == 200 {
        success := success + 1;
      } else {
        failure := failure + 1;
      }
    }
    assert files[..|files|] == files;
  }

  lemma AttemptedStep(files: seq<string>, i: nat, skip: set<string>)
    requires i < |files|
    ensures Attempted(files[..i + 1], skip) == Attempted(files[..i], skip) + (if files[i] in skip then [] else [files[i]])
  {
    assert files[..i + 1][..i] == files[..i];
  }

  lemma SuccessesStep(names: seq<string>, name: string, upload: string -> UploadOutcome)
    ensures Successes(names + [name], upload) == Successes(names, upload) + (if upload(name) == Status(200) then 1 else 0)
  {
    assert (names + [name])[..|names|] == names;
  }

  /** Only the skip-set names that are also files matter to which files are uploaded. */
  lemma {:induction false} SkipSetRestricted(files: seq<string>, skip: set<string>, skip': set<string>)
    requires forall f :: f in files ==> (f in skip <==> f in skip')
    ensures Attempted(files, skip) == Attempted(files, skip')
  {
    if files != [] {
      var init := files[..|files| - 1];
      assert forall f :: f in init ==> f in files;
      SkipSetRestricted(init, skip, skip');
    }
  }

  /**
   * One file's failure does not stop the later files: the uploads of a list
   * are those of its first part followed by those of the rest, and the
   * successes add up.
   */
  lemma {:induction false} AttemptedAppend(a: seq<string>, b: seq<string>, skip: set<string>)
    ensures Attempted(a + b, skip) == Attempted(a, skip) + Attempted(b, skip)
    decreases |b|
  {
    if b == [] {
      assert a + b == a;
    } else {
      var init := b[..|b| - 1];
      assert (a + b)[..|a + b| - 1] == a + init;
      AttemptedAppend(a, init, skip);
    }
  }

  lemma {:induction false} SuccessesAppend(a: seq<string>, b: seq<string>, upload: string -> UploadOutcome)
    ensures Successes(a + b, upload) == Successes(a, upload) + Successes(b, upload)
    decreases |b|
  {
    if b == [] {
      assert a + b == a;
    } else {
      var init := b[..|b| - 1];
      assert (a + b)[..|a + b| - 1] == a + init;
      SuccessesAppend(a, init, upload);
    }
  }

  /**
   * A second run after a complete one uploads nothing: when the listing
   * names every PDF of the directory, no file is posted and both counters
   * stay at zero.
   */
  lemma RerunUploadsNothing(entries: seq<string>, listing: ListingReply)
    requires forall f :: f in entries && EndsWith(f, ".pdf") ==> Listed(listing, f)
    ensures Attempted(PdfFiles(entries), set name | Listed(listing, name) && name in PdfFiles(entries)) == []
  {
    AllSkipped(PdfFiles(entries), set name | Listed(listing, name) && name in PdfFiles(entries));
  }

  lemma {:induction false} AllSkipped(files: seq<string>, skip: set<string>)
    requires forall f :: f in files ==> f in skip
    ensures Attempted(files, skip) == []
  {
    if files != [] {
      var init := files[..|files| - 1];
      assert forall f :: f in init ==> f in files;
      AllSkipped(init, skip);
    }
  }
}
