/**
 * The in-memory record store shared by both services: a map from id to record
 * plus the ids in insertion order, which is the iteration order of the Python
 * dict and of the JavaScript Map. Overwriting an existing key keeps its place;
 * deleting a key removes it from the order.
 */
module DataStore {
  import opened Wrappers
  import opened Json
  import opened Records
  import Slicing
  import Text

  datatype Store = Store(records: map<string, DataRecord>, order: seq<string>)

  /** The store as constructed at start-up. */
  const Empty := Store(map[], [])

  ghost predicate Distinct(ks: seq<string>) {
    forall i, j | 0 <= i < j < |ks| :: ks[i] != ks[j]
  }

  /**
   * The store's invariant: the order lists every key exactly once, every
   * record sits under its own id and has a well-formed shape, and a processed
   * record carries the success result.
   */
  ghost predicate Valid(s: Store) {
    && Distinct(s.order)
    && (forall k :: k in s.order <==> k in s.records)
    && (forall k | k in s.records :: s.records[k].id == k && WellFormed(s.records[k]))
    && (forall k | k in s.records && s.records[k].processed ::
          s.records[k].processingResult == Some(SuccessResult))
  }

  /** The records stored under `ks`, in that order. */
  function RecordsAt(records: map<string, DataRecord>, ks: seq<string>): (vs: seq<DataRecord>)
    requires forall k | k in ks :: k in records
    ensures |vs| == |ks|
    ensures forall i | 0 <= i < |ks| :: vs[i] == records[ks[i]]
  {
    seq(|ks|, i requires 0 <= i < |ks| => records[ks[i]])
  }

  /** The stored records in insertion order (`list(store.values())`). */
  function Values(s: Store): seq<DataRecord>
    requires Valid(s)
  {
    RecordsAt(s.records, s.order)
  }

  /** The message of the error raised when an id is unknown. */
  function NotFoundMessage(id: string): string {
    "Record with id " + id + " not found"
  }

  lemma NotFoundMessageSaysNotFound(id: string)
    ensures Text.Contains(NotFoundMessage(id), "not found")
  {
    assert NotFoundMessage(id) == ("Record with id " + id + " ") + "not found" + "";
    Text.ContainsInfix("Record with id " + id + " ", "not found", "");
  }

  /** The error processing raises for an unknown id: a `ValueError` in Python, an `Error` in TypeScript. */
  datatype LookupError = LookupError(message: string)

  /** Reads the record stored under `id`; None plays the part of Python's None and JavaScript's null. */
  function Get(s: Store, id: string): (r: Option<DataRecord>)
    requires Valid(s)
    ensures r.Some? <==> id in s.records
    ensures r.Some? ==> r.value == s.records[id] && r.value.id == id && WellFormed(r.value)
  {
    if id in s.records then Some(s.records[id]) else None
  }

  /**
   * Stores a new unprocessed record under the fresh id `id`, stamped `now`.
   * Exactly one key is added, it goes to the end of the order, and every
   * existing record is left as it was.
   */
  function Ingest(s: Store, id: string, now: Timestamp, data: Json, metadata: Option<Json>): (r: (Store, DataRecord))
    requires Valid(s) && id !in s.records
    ensures Valid(r.0)
    ensures r.1.id == id && r.1.timestamp == now && r.1.data == data && r.1.metadata == metadata
    ensures !r.1.processed && r.1.processingTimestamp.None? && r.1.processingResult.None?
    ensures Get(r.0, id) == Some(r.1)
    ensures r.0.records.Keys == s.records.Keys + {id}
    ensures forall k | k in s.records :: r.0.records[k] == s.records[k]
    ensures Values(r.0) == Values(s) + [r.1]
  {
    var rec := NewRecord(id, now, data, metadata);
    (Store(s.records[id := rec], s.order + [id]), rec)
  }

  /**
   * Processes the record under `id`. An unknown id is an error and changes
   * nothing; a processed record is returned as it is and changes nothing; an
   * unprocessed one is replaced, in its place, by its processed copy.
   */
  function Process(s: Store, id: string, now: Timestamp): (r: (Store, Result<DataRecord, LookupError>))
    requires Valid(s)
    ensures Valid(r.0)
    ensures r.1.Err? <==> id !in s.records
    ensures r.1.Err? ==> r.0 == s && r.1.error == LookupError(NotFoundMessage(id))
    ensures id in s.records && s.records[id].processed ==> r == (s, Ok(s.records[id]))
    ensures r.1.Ok? ==> IsProcessedData(r.1.value) && Get(r.0, id) == Some(r.1.value)
    ensures r.1.Ok? ==>
              var prior := s.records[id];
              && r.1.value.id == id && r.1.value.timestamp == prior.timestamp
              && r.1.value.data == prior.data && r.1.value.metadata == prior.metadata
    ensures id in s.records && !s.records[id].processed ==>
              && r.1.value.processingTimestamp == Some(now)
              && r.1.value.processingResult == Some(SuccessResult)
    ensures r.0.order == s.order && r.0.records.Keys == s.records.Keys
    ensures forall k | k in s.records && k != id :: r.0.records[k] == s.records[k]
  {
    if id !in s.records then
      (s, Err(LookupError(NotFoundMessage(id))))
    else
      var rec := s.records[id];
      if rec.processed then (s, Ok(rec))
      else
        var p := MarkProcessed(rec, now);
        (Store(s.records[id := p], s.order), Ok(p))
  }

  /**
   * `page` is a window on the store: at most `limit` records, taken consecutively
   * in insertion order starting at position `offset`.
   */
  predicate IsWindow(s: Store, page: seq<DataRecord>, limit: int, offset: int) {
    && 0 <= offset
    && |page| <= limit
    && |page| == (if offset >= |s.order| then 0 else if offset + limit <= |s.order| then limit else |s.order| - offset)
    && (page != [] ==> offset + |page| <= |s.order|)
    && forall i | 0 <= i < |page| ::
         offset + i < |s.order| && s.order[offset + i] in s.records && page[i] == s.records[s.order[offset + i]]
  }

  /**
   * `page` is the slice of the records in insertion order between `start` and
   * `end` once both bounds are normalised: a negative bound counts back from
   * the end, and each is clamped into the order's length.
   */
  predicate IsSlice(s: Store, page: seq<DataRecord>, start: int, end: int) {
    var lo := Slicing.ClampIndex(start, |s.order|);
    var hi := Slicing.ClampIndex(end, |s.order|);
    && |page| == (if lo < hi then hi - lo else 0)
    && forall i | 0 <= i < |page| ::
         lo + i < |s.order| && s.order[lo + i] in s.records && page[i] == s.records[s.order[lo + i]]
  }

  /**
   * One page of records in insertion order: `values[offset:offset + limit]`.
   * For a non-negative offset and limit it is the window of at most `limit`
   * records starting at position `offset`, empty once `offset` reaches the size.
   */
  function List(s: Store, limit: int, offset: int): (r: seq<DataRecord>)
    requires Valid(s)
    ensures |r| <= |s.order|
    ensures 0 <= offset && 0 <= limit ==> IsWindow(s, r, limit, offset)
    ensures IsSlice(s, r, offset, offset + limit)
  {
    SliceOfValues(s, offset, offset + limit);
    if 0 <= offset && 0 <= limit then WindowOfValues(s, limit, offset); Slicing.Slice(Values(s), offset, offset + limit)
    else Slicing.Slice(Values(s), offset, offset + limit)
  }

  /** For non-negative bounds, slicing the values in insertion order gives the window at `offset`. */
  lemma WindowOfValues(s: Store, limit: int, offset: int)
    requires Valid(s) && 0 <= offset && 0 <= limit
    ensures IsWindow(s, Slicing.Slice(Values(s), offset, offset + limit), limit, offset)
  {
    var vs := Values(s);
    assert |vs| == |s.order| && forall j | 0 <= j < |vs| :: vs[j] == s.records[s.order[j]];
  }

  /** Slicing the values in insertion order gives the slice of the order, record by record. */
  lemma SliceOfValues(s: Store, start: int, end: int)
    requires Valid(s)
    ensures IsSlice(s, Slicing.Slice(Values(s), start, end), start, end)
  {
    var vs := Values(s);
    assert |vs| == |s.order| && forall j | 0 <= j < |vs| :: vs[j] == s.records[s.order[j]];
  }

  /** The order with `id` taken out, the others keeping their relative order. */
  function Without(ks: seq<string>, id: string): (r: seq<string>)
    ensures forall k :: k in r <==> k in ks && k != id
    ensures Distinct(ks) ==> Distinct(r)
    ensures id !in ks ==> r == ks
  {
    if ks == [] then []
    else if ks[0] == id then Without(ks[1..], id)
    else
      var rest := Without(ks[1..], id);
      assert Distinct(ks) ==> ks[0] !in ks[1..];
      [ks[0]] + rest
  }

  /**
   * In an order without repeats, taking `id` out splices it out of its one
   * position: what precedes and what follows it stay where they were.
   */
  lemma {:induction false} WithoutSplicesOut(ks: seq<string>, id: string, i: int)
    requires Distinct(ks) && 0 <= i < |ks| && ks[i] == id
    ensures Without(ks, id) == ks[..i] + ks[i + 1..]
    decreases |ks|
  {
    DistinctHead(ks);
    var tail := ks[1..];
    WithoutStep(ks, id);
    if i == 0 {
      assert ks[..0] + ks[1..] == tail;
    } else {
      WithoutSplicesOut(tail, id, i - 1);
      SpliceAfterHead(ks, i);
    }
  }

  /** One step of `Without`: the head is dropped when it is `id` and kept otherwise. */
  lemma WithoutStep(ks: seq<string>, id: string)
    requires |ks| > 0
    ensures ks[0] == id ==> Without(ks, id) == Without(ks[1..], id)
    ensures ks[0] != id ==> Without(ks, id) == [ks[0]] + Without(ks[1..], id)
  {
  }

  /** Cutting out a position after the head is cutting it out of the tail. */
  lemma SpliceAfterHead(ks: seq<string>, i: int)
    requires 1 <= i < |ks|
    ensures ks[..i] + ks[i + 1..] == [ks[0]] + (ks[1..][..i - 1] + ks[1..][i..])
  {
    assert ks[..i] == [ks[0]] + ks[1..][..i - 1];
    assert ks[i + 1..] == ks[1..][i..];
  }

  /** In a list without repeats the head occurs only once and the tail has no repeats either. */
  lemma DistinctHead(ks: seq<string>)
    requires |ks| > 0
    ensures Distinct(ks) ==> ks[0] !in ks[1..] && Distinct(ks[1..])
    ensures Distinct(ks) ==> forall i | 0 < i < |ks| :: ks[i] != ks[0]
  {
  }

  /**
   * Removes the record under `id`. The result says whether it was there;
   * afterwards it is gone and every other record is untouched.
   */
  function Delete(s: Store, id: string): (r: (Store, bool))
    requires Valid(s)
    ensures Valid(r.0)
    ensures r.1 <==> id in s.records
    ensures Get(r.0, id).None?
    ensures r.0.records.Keys == s.records.Keys - {id}
    ensures forall k | k in r.0.records :: r.0.records[k] == s.records[k]
    ensures !r.1 ==> r.0 == s
    ensures forall i | 0 <= i < |s.order| && s.order[i] == id :: r.0.order == s.order[..i] + s.order[i + 1..]
  {
    if id in s.records then
      assert forall i | 0 <= i < |s.order| && s.order[i] == id :: Without(s.order, id) == s.order[..i] + s.order[i + 1..] by {
        forall i | 0 <= i < |s.order| && s.order[i] == id {
          WithoutSplicesOut(s.order, id, i);
        }
      }
      (Store(s.records - {id}, Without(s.order, id)), true)
    else (s, false)
  }

  /** The aggregate counts reported alongside a listing. */
  datatype Stats = Stats(total: int, processed: int, unprocessed: int)

  /** How many of `vs` are processed (`sum(1 for r in vs if r.processed)`). */
  function CountProcessed(vs: seq<DataRecord>): (n: nat)
    ensures n <= |vs|
  {
    if vs == [] then 0
    else CountProcessed(vs[..|vs| - 1]) + (if vs[|vs| - 1].processed then 1 else 0)
  }

  ghost function ProcessedKeys(records: map<string, DataRecord>): set<string> {
    set k | k in records && records[k].processed
  }

  ghost function UnprocessedKeys(records: map<string, DataRecord>): set<string> {
    set k | k in records && !records[k].processed
  }

  /** A duplicate-free sequence has as many elements as its set of elements. */
  lemma {:induction false} DistinctCardinality(ks: seq<string>)
    requires Distinct(ks)
    ensures |set k | k in ks| == |ks|
  {
    if ks != [] {
      var init := ks[..|ks| - 1];
      var last := ks[|ks| - 1];
      DistinctCardinality(init);
      assert (set k | k in ks) == (set k | k in init) + {last};
      assert last !in init;
    }
  }

  /** Counting along a duplicate-free key sequence counts the set of processed keys. */
  lemma {:induction false} CountProcessedAt(records: map<string, DataRecord>, ks: seq<string>)
    requires Distinct(ks)
    requires forall k | k in ks :: k in records
    ensures CountProcessed(RecordsAt(records, ks)) == |set k | k in ks && records[k].processed|
    decreases |ks|
  {
    if ks != [] {
      var init := ks[..|ks| - 1];
      var last := ks[|ks| - 1];
      var vs := RecordsAt(records, ks);
      assert vs[..|vs| - 1] == RecordsAt(records, init);
      DistinctWithoutLast(ks);
      CountProcessedAt(records, init);
      ProcessedAmongStep(records, ks);
    }
  }

  /** Dropping the last key keeps the keys distinct, and the last key occurs only once. */
  lemma DistinctWithoutLast(ks: seq<string>)
    requires Distinct(ks) && ks != []
    ensures Distinct(ks[..|ks| - 1]) && ks[|ks| - 1] !in ks[..|ks| - 1]
  {
  }

  /** The processed keys of `ks` are those of all but its last key, plus the last key when it is processed. */
  lemma ProcessedAmongStep(records: map<string, DataRecord>, ks: seq<string>)
    requires ks != [] && forall k | k in ks :: k in records
    ensures var init := ks[..|ks| - 1];
            var last := ks[|ks| - 1];
            (set k | k in ks && records[k].processed)
              == (set k | k in init && records[k].processed) + (if records[last].processed then {last} else {})
  {
    assert forall k :: k in ks <==> k in ks[..|ks| - 1] || k == ks[|ks| - 1];
  }

  /** The number of stored records is the length of the order. */
  lemma SizeIsOrderLength(s: Store)
    requires Valid(s)
    ensures |s.records| == |s.order|
  {
    DistinctCardinality(s.order);
    assert s.records.Keys == set k | k in s.order;
  }

  /**
   * Counts computed fresh from the current contents: `total` is the number of
   * records, `processed` the number of processed ones, `unprocessed` the rest.
   */
  function GetStats(s: Store): (st: Stats)
    requires Valid(s)
    ensures st.total == |s.records|
    ensures st.processed == |ProcessedKeys(s.records)|
    ensures st.unprocessed == |UnprocessedKeys(s.records)|
    ensures st.processed + st.unprocessed == st.total && st.unprocessed >= 0
  {
    var all := Values(s);
    var processed := CountProcessed(all);
    SizeIsOrderLength(s);
    CountProcessedAt(s.records, s.order);
    assert (set k | k in s.order && s.records[k].processed) == ProcessedKeys(s.records);
    assert s.records.Keys == ProcessedKeys(s.records) + UnprocessedKeys(s.records);
    assert ProcessedKeys(s.records) !! UnprocessedKeys(s.records);
    Stats(|all|, processed, |all| - processed)
  }
}
