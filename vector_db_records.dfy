/**
 * The `langchain_pg_embedding` table as the vector-store service sees it:
 * a sequence of records, each a document (content and JSON metadata) owned
 * by a named collection. The two SQL statements of the service become
 * stated predicates and functions over that sequence:
 *  - the DELETE of document removal becomes a filter (`Kept`);
 *  - the COUNT / GROUP BY / ORDER BY of the listing becomes `ListedRecords`
 *    and `GroupRecords`.
 */
module VectorDbRecords {
  import opened Wrappers
  import opened TextUtil

  /** A JSON metadata object whose values are text. */
  type Metadata = map<string, string>

  /** A LangChain `Document`. */
  datatype Document = Document(pageContent: string, metadata: Metadata)

  /** One row of `langchain_pg_embedding`: the chunk and the name of the collection it belongs to. */
  datatype Record = Record(document: Document, collection: string)

  /** `cmetadata->>key`: the text under `key`, or SQL NULL when the key is absent. */
  function MetaText(md: Metadata, key: string): (v: Option<string>)
    ensures v.Some? <==> key in md
    ensures v.Some? ==> v.value == md[key]
  {
    if key in md then Some(md[key]) else None
  }

  /** `cmetadata->>key = v`: false when the key is absent (a comparison with NULL is never true). */
  predicate MetaIs(md: Metadata, key: string, v: string) {
    MetaText(md, key) == Some(v)
  }

  // ---------------------------------------------------------------------
  // Removal
  // ---------------------------------------------------------------------

  /**
   * The WHERE clause of the removal DELETE: the record has the requested
   * source and filename, or it belongs to the configured collection and has
   * the requested filename (whatever its source).
   */
  predicate RemovalMatch(r: Record, source: string, filename: string, collection: string) {
    var md := r.document.metadata;
    (MetaIs(md, "source", source) && MetaIs(md, "filename", filename))
    || (r.collection == collection && MetaIs(md, "filename", filename))
  }

  /** The table after the DELETE: the records the WHERE clause does not select, in their order. */
  function Kept(rs: seq<Record>, source: string, filename: string, collection: string): (k: seq<Record>)
    ensures forall i :: 0 <= i < |k| ==> !RemovalMatch(k[i], source, filename, collection)
    ensures |k| < |rs| <==> exists i :: 0 <= i < |rs| && RemovalMatch(rs[i], source, filename, collection)
    ensures |k| <= |rs|
  {
    if rs == [] then []
    else
      var rest := Kept(rs[1..], source, filename, collection);
      assert forall i :: 0 < i < |rs| ==> rs[i] == rs[1..][i - 1];
      if RemovalMatch(rs[0], source, filename, collection) then rest else [rs[0]] + rest
  }

  /**
   * Removal deletes exactly the selected records: every record the WHERE
   * clause does not select stays, as many times as it occurred, and none of
   * the selected ones stays.
   */
  lemma {:induction false} KeptCounts(rs: seq<Record>, source: string, filename: string, collection: string)
    ensures forall r :: multiset(Kept(rs, source, filename, collection))[r]
                       == (if RemovalMatch(r, source, filename, collection) then 0 else multiset(rs)[r])
  {
    if rs != [] {
      KeptCounts(rs[1..], source, filename, collection);
      assert rs == [rs[0]] + rs[1..];
    }
  }

  /**
   * A record stays exactly when the WHERE clause does not select it; in
   * particular a record whose filename differs from the requested one always
   * stays.
   */
  lemma KeptMembership(rs: seq<Record>, source: string, filename: string, collection: string, r: Record)
    ensures r in Kept(rs, source, filename, collection) <==> r in rs && !RemovalMatch(r, source, filename, collection)
    ensures r in rs && !MetaIs(r.document.metadata, "filename", filename) ==> r in Kept(rs, source, filename, collection)
  {
    KeptCounts(rs, source, filename, collection);
    var k := Kept(rs, source, filename, collection);
    assert r in k <==> multiset(k)[r] > 0;
    assert r in rs <==> multiset(rs)[r] > 0;
  }

  /**
   * Removal is idempotent: filtering a second time changes nothing, so a
   * second DELETE with the same request finds no row.
   */
  lemma RemovalIdempotent(rs: seq<Record>, source: string, filename: string, collection: string)
    ensures Kept(Kept(rs, source, filename, collection), source, filename, collection) == Kept(rs, source, filename, collection)
  {
    KeptAll(Kept(rs, source, filename, collection), source, filename, collection);
  }

  /** Filtering a sequence none of whose records is selected returns it unchanged. */
  lemma {:induction false} KeptAll(rs: seq<Record>, source: string, filename: string, collection: string)
    requires forall i :: 0 <= i < |rs| ==> !RemovalMatch(rs[i], source, filename, collection)
    ensures Kept(rs, source, filename, collection) == rs
  {
    if rs != [] {
      KeptAll(rs[1..], source, filename, collection);
      assert rs == [rs[0]] + rs[1..];
    }
  }

  // ---------------------------------------------------------------------
  // Listing
  // ---------------------------------------------------------------------

  /**
   * The WHERE clause of both listing queries: the record's metadata names the
   * collection, or the record belongs to it.
   */
  predicate InCollection(r: Record, collection: string) {
    MetaIs(r.document.metadata, "collection_name", collection) || r.collection == collection
  }

  /** The records both listing queries range over, in table order. */
  function ListedRecords(rs: seq<Record>, collection: string): (ls: seq<Record>)
    ensures forall r :: r in ls <==> r in rs && InCollection(r, collection)
    ensures |ls| <= |rs|
  {
    if rs == [] then []
    else
      var rest := ListedRecords(rs[1..], collection);
      assert forall r :: r in rs <==> r == rs[0] || r in rs[1..];
      if InCollection(rs[0], collection) then [rs[0]] + rest else rest
  }

  /**
   * The listing keeps every record of the collection as many times as it
   * occurs in the table, and no other record.
   */
  lemma {:induction false} ListedCounts(rs: seq<Record>, collection: string)
    ensures forall r :: multiset(ListedRecords(rs, collection))[r]
                       == (if InCollection(r, collection) then multiset(rs)[r] else 0)
  {
    if rs != [] {
      ListedCounts(rs[1..], collection);
      assert rs == [rs[0]] + rs[1..];
    }
  }

  /** The GROUP BY key: the three metadata texts, each possibly NULL. */
  datatype GroupKey = GroupKey(source: Option<string>, filename: Option<string>, fileType: Option<string>)

  /** One row of the grouped query: a key and `COUNT(*)`. */
  datatype Group = Group(key: GroupKey, count: nat)

  function KeyOf(r: Record): GroupKey {
    var md := r.document.metadata;
    GroupKey(MetaText(md, "source"), MetaText(md, "filename"), MetaText(md, "file_type"))
  }

  /** Ascending order on a nullable text column; NULL sorts last, as PostgreSQL does by default for ASC. */
  predicate OptLess(a: Option<string>, b: Option<string>) {
    match (a, b)
    case (Some(x), Some(y)) => StrLess(x, y)
    case (Some(_), None) => true
    case (None, _) => false
  }

  /**
   * The row order: by filename ascending. SQL leaves rows with the same
   * filename in no particular order; the model breaks such ties by source,
   * then by file type, so that the order is total.
   */
  predicate KeyLess(a: GroupKey, b: GroupKey) {
    OptLess(a.filename, b.filename)
    || (a.filename == b.filename
        && (OptLess(a.source, b.source) || (a.source == b.source && OptLess(a.fileType, b.fileType))))
  }

  lemma OptLessIrreflexive(a: Option<string>)
    ensures !OptLess(a, a)
  {
    if a.Some? { StrLessIrreflexive(a.value); }
  }

  lemma OptLessTransitive(a: Option<string>, b: Option<string>, c: Option<string>)
    requires OptLess(a, b) && OptLess(b, c)
    ensures OptLess(a, c)
  {
    if c.Some? { StrLessTransitive(a.value, b.value, c.value); }
  }

  lemma OptLessTotal(a: Option<string>, b: Option<string>)
    requires a != b
    ensures OptLess(a, b) || OptLess(b, a)
  {
    if a.Some? && b.Some? { StrLessTotal(a.value, b.value); }
  }

  /** The row order is a strict total order. */
  lemma KeyLessIrreflexive(a: GroupKey)
    ensures !KeyLess(a, a)
  {
    OptLessIrreflexive(a.filename);
    OptLessIrreflexive(a.source);
    OptLessIrreflexive(a.fileType);
  }

  lemma KeyLessTransitive(a: GroupKey, b: GroupKey, c: GroupKey)
    requires KeyLess(a, b) && KeyLess(b, c)
    ensures KeyLess(a, c)
  {
    if OptLess(a.filename, b.filename) && OptLess(b.filename, c.filename) {
      OptLessTransitive(a.filename, b.filename, c.filename);
    } else if a.filename == b.filename == c.filename {
      if OptLess(a.source, b.source) && OptLess(b.source, c.source) {
        OptLessTransitive(a.source, b.source, c.source);
      } else if a.source == b.source == c.source {
        OptLessTransitive(a.fileType, b.fileType, c.fileType);
      }
    }
  }

  lemma KeyLessTotal(a: GroupKey, b: GroupKey)
    requires a != b
    ensures KeyLess(a, b) || KeyLess(b, a)
  {
    if a.filename != b.filename {
      OptLessTotal(a.filename, b.filename);
    } else if a.source != b.source {
      OptLessTotal(a.source, b.source);
    } else {
      OptLessTotal(a.fileType, b.fileType);
    }
  }

  /** Neighbouring rows are strictly increasing in the row order. */
  predicate Sorted(gs: seq<Group>) {
    forall i :: 0 <= i < |gs| - 1 ==> KeyLess(gs[i].key, gs[i + 1].key)
  }

  /** `COUNT(*)` of the row with key `k`, or 0 when there is no such row. */
  function GroupCount(gs: seq<Group>, k: GroupKey): nat {
    if gs == [] then 0
    else (if gs[0].key == k then gs[0].count else 0) + GroupCount(gs[1..], k)
  }

  function SumCounts(gs: seq<Group>): nat {
    if gs == [] then 0 else gs[0].count + SumCounts(gs[1..])
  }

  predicate PositiveCounts(gs: seq<Group>) {
    forall i :: 0 <= i < |gs| ==> gs[i].count > 0
  }

  /** The number of records whose group key is `k`. */
  function CountKey(rs: seq<Record>, k: GroupKey): nat {
    if rs == [] then 0 else (if KeyOf(rs[0]) == k then 1 else 0) + CountKey(rs[1..], k)
  }

  /** Counts one more record with key `key` in an ordered grouping. */
  function Insert(gs: seq<Group>, key: GroupKey): (r: seq<Group>)
    requires Sorted(gs) && PositiveCounts(gs)
    ensures Sorted(r) && PositiveCounts(r)
    ensures |r| > 0 && (r[0].key == key || (|gs| > 0 && r[0].key == gs[0].key))
    ensures forall k :: GroupCount(r, k) == GroupCount(gs, k) + (if k == key then 1 else 0)
    ensures SumCounts(r) == SumCounts(gs) + 1
  {
    if gs == [] then [Group(key, 1)]
    else if gs[0].key == key then
      [Group(key, gs[0].count + 1)] + gs[1..]
    else if KeyLess(key, gs[0].key) then
      [Group(key, 1)] + gs
    else
      KeyLessTotal(key, gs[0].key);
      var rest := Insert(gs[1..], key);
      assert ([gs[0]] + rest)[1..] == rest;
      [gs[0]] + rest
  }

  /**
   * The grouped listing query: one row per distinct key among `rs`, in the
   * row order, each with the number of records having that key.
   */
  function GroupRecords(rs: seq<Record>): (gs: seq<Group>)
    ensures Sorted(gs) && PositiveCounts(gs)
    ensures forall k :: GroupCount(gs, k) == CountKey(rs, k)
    ensures SumCounts(gs) == |rs|
  {
    if rs == [] then [] else Insert(GroupRecords(rs[1..]), KeyOf(rs[0]))
  }

  /** In a sorted grouping a row's key is larger than every earlier row's key. */
  lemma {:induction false} SortedIsStrict(gs: seq<Group>, i: int, j: int)
    requires Sorted(gs)
    requires 0 <= i < j < |gs|
    ensures KeyLess(gs[i].key, gs[j].key)
    decreases j - i
  {
    if j > i + 1 {
      SortedIsStrict(gs, i + 1, j);
      KeyLessTransitive(gs[i].key, gs[i + 1].key, gs[j].key);
    }
  }

  /** Some row of `gs` has key `k`. */
  predicate HasRow(gs: seq<Group>, k: GroupKey) {
    exists i :: 0 <= i < |gs| && gs[i].key == k
  }

  /**
   * In a sorted grouping with positive counts each key has at most one row,
   * the row with key `k` carries `GroupCount(gs, k)`, and there is a row for
   * `k` exactly when that count is positive.
   */
  lemma {:induction false} GroupRow(gs: seq<Group>, k: GroupKey)
    requires Sorted(gs) && PositiveCounts(gs)
    ensures HasRow(gs, k) <==> GroupCount(gs, k) > 0
    ensures forall i :: 0 <= i < |gs| && gs[i].key == k ==> gs[i].count == GroupCount(gs, k)
  {
    if gs != [] {
      GroupRow(gs[1..], k);
      assert forall i :: 0 < i < |gs| ==> gs[i] == gs[1..][i - 1];
      assert HasRow(gs[1..], k) ==> HasRow(gs, k);
      if gs[0].key == k {
        forall i | 0 < i < |gs|
          ensures gs[i].key != k
        {
          SortedIsStrict(gs, 0, i);
          KeyLessIrreflexive(k);
        }
        assert GroupCount(gs[1..], k) == 0;
      }
    }
  }

  /**
   * What the grouped rows say about the records they group: there is a row
   * for a key exactly when some record has it, and that row's count is the
   * number of records with that key.
   */
  lemma GroupedRows(rs: seq<Record>, k: GroupKey)
    ensures HasRow(GroupRecords(rs), k) <==> CountKey(rs, k) > 0
    ensures var rows := GroupRecords(rs);
      forall i :: 0 <= i < |rows| && rows[i].key == k ==> rows[i].count == CountKey(rs, k)
  {
    var rows := GroupRecords(rs);
    assert GroupCount(rows, k) == CountKey(rs, k);
    GroupRow(rows, k);
  }

  /** The grouped rows come in strictly ascending order, so no key has two rows. */
  lemma GroupedRowsOrdered(rs: seq<Record>)
    ensures var rows := GroupRecords(rs);
      forall i, j :: 0 <= i < j < |rows| ==> KeyLess(rows[i].key, rows[j].key)
  {
    var rows := GroupRecords(rs);
    forall i, j | 0 <= i < j < |rows|
      ensures KeyLess(rows[i].key, rows[j].key)
    {
      SortedIsStrict(rows, i, j);
    }
  }
}
