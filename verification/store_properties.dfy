/**
 * Properties relating several store operations: idempotent processing, stable
 * ordering, monotone `processed`, and how each mutation moves the counts.
 */
module StoreProperties {
  import opened Wrappers
  import opened Json
  import opened Records
  import opened DataStore

  /** A second processing call returns the first call's record and leaves the store as the first call left it. */
  lemma ProcessIdempotent(s: Store, id: string, first: Timestamp, second: Timestamp)
    requires Valid(s)
    ensures var (s1, r1) := Process(s, id, first);
            Process(s1, id, second) == (s1, r1)
  {
  }

  /** Processing replaces a record in its place: every page lists the same ids, in the same order, before and after. */
  lemma ProcessNeverReorders(s: Store, id: string, now: Timestamp, limit: int, offset: int)
    requires Valid(s)
    ensures var s1 := Process(s, id, now).0;
            && |List(s1, limit, offset)| == |List(s, limit, offset)|
            && forall i | 0 <= i < |List(s, limit, offset)| :: List(s1, limit, offset)[i].id == List(s, limit, offset)[i].id
  {
    ProcessKeepsIds(s, id, now);
  }

  /** After processing, the records in insertion order carry the same ids as before. */
  lemma ProcessKeepsIds(s: Store, id: string, now: Timestamp)
    requires Valid(s)
    ensures var s1 := Process(s, id, now).0;
            && |Values(s1)| == |Values(s)|
            && forall i | 0 <= i < |Values(s)| :: Values(s1)[i].id == Values(s)[i].id
  {
    var s1 := Process(s, id, now).0;
    assert forall i | 0 <= i < |s.order| :: Values(s1)[i].id == s.order[i] == Values(s)[i].id;
  }

  /** Once processed, a record stays processed, with its processing time and result unchanged, whatever is processed next. */
  lemma ProcessedStaysProcessed(s: Store, id: string, now: Timestamp, k: string)
    requires Valid(s)
    requires k in s.records && s.records[k].processed
    ensures var s1 := Process(s, id, now).0;
            k in s1.records && s1.records[k] == s.records[k]
  {
  }

  /** Inserting a fresh unprocessed record adds its key to the unprocessed keys only. */
  lemma InsertUnprocessedKeys(records: map<string, DataRecord>, id: string, rec: DataRecord)
    requires id !in records && !rec.processed
    ensures ProcessedKeys(records[id := rec]) == ProcessedKeys(records)
    ensures UnprocessedKeys(records[id := rec]) == UnprocessedKeys(records) + {id}
    ensures id !in UnprocessedKeys(records)
    ensures |records[id := rec]| == |records| + 1
  {
  }

  /** Marking an unprocessed record processed moves its key from the unprocessed keys to the processed keys. */
  lemma MarkProcessedKeys(records: map<string, DataRecord>, id: string, rec: DataRecord)
    requires id in records && !records[id].processed && rec.processed
    ensures ProcessedKeys(records[id := rec]) == ProcessedKeys(records) + {id}
    ensures UnprocessedKeys(records) == UnprocessedKeys(records[id := rec]) + {id}
    ensures id !in ProcessedKeys(records) && id !in UnprocessedKeys(records[id := rec])
  {
  }

  /** Removing a key removes it from whichever key set held it. */
  lemma RemoveKeys(records: map<string, DataRecord>, id: string)
    requires id in records
    ensures ProcessedKeys(records - {id}) == ProcessedKeys(records) - {id}
    ensures |records - {id}| == |records| - 1
  {
  }

  /** Ingesting adds the new id to the unprocessed ids and leaves the processed ids alone. */
  lemma IngestIds(s: Store, id: string, now: Timestamp, data: Json, metadata: Option<Json>)
    requires Valid(s) && id !in s.records
    ensures var s1 := Ingest(s, id, now, data, metadata).0;
            && ProcessedKeys(s1.records) == ProcessedKeys(s.records)
            && UnprocessedKeys(s1.records) == UnprocessedKeys(s.records) + {id}
            && id !in UnprocessedKeys(s.records)
            && |s1.records| == |s.records| + 1
  {
    var (s1, rec) := Ingest(s, id, now, data, metadata);
    InsertUnprocessedKeys(s.records, id, rec);
  }

  /** Ingesting adds one unprocessed record: total and unprocessed grow by one, processed stays. */
  lemma StatsAfterIngest(s: Store, id: string, now: Timestamp, data: Json, metadata: Option<Json>)
    requires Valid(s) && id !in s.records
    ensures var before := GetStats(s);
            GetStats(Ingest(s, id, now, data, metadata).0)
              == Stats(before.total + 1, before.processed, before.unprocessed + 1)
  {
    var s1 := Ingest(s, id, now, data, metadata).0;
    IngestIds(s, id, now, data, metadata);
  }

  /** Processing an unprocessed record moves one count from unprocessed to processed; otherwise the counts stay. */
  lemma {:induction false} StatsAfterProcess(s: Store, id: string, now: Timestamp)
    requires Valid(s)
    ensures var before := GetStats(s);
            var after := GetStats(Process(s, id, now).0);
            if id in s.records && !s.records[id].processed
            then after == Stats(before.total, before.processed + 1, before.unprocessed - 1)
            else after == before
  {
    var (s1, r) := Process(s, id, now);
    if id in s.records && !s.records[id].processed {
      assert s1.records == s.records[id := r.value];
      MarkProcessedKeys(s.records, id, r.value);
    }
  }

  /** Deleting a present record lowers the total by one, and the processed count by one exactly when that record was processed. */
  lemma {:induction false} StatsAfterDelete(s: Store, id: string)
    requires Valid(s)
    ensures var before := GetStats(s);
            var after := GetStats(Delete(s, id).0);
            if id in s.records then
              && after.total == before.total - 1
              && after.processed == before.processed - (if s.records[id].processed then 1 else 0)
            else after == before
  {
    var s1 := Delete(s, id).0;
    if id in s.records {
      assert s1.records == s.records - {id};
      RemoveKeys(s.records, id);
    }
  }

  /** Two ingests and one processing step give total 2, processed 1, unprocessed 1. */
  lemma StatsScenario(a: string, b: string, t1: Timestamp, t2: Timestamp, t3: Timestamp, d1: Json, d2: Json)
    requires a != b
    ensures var s1 := Ingest(Empty, a, t1, d1, None).0;
            var s2 := Ingest(s1, b, t2, d2, None).0;
            var s3 := Process(s2, a, t3).0;
            GetStats(s3) == Stats(2, 1, 1)
  {
    var s1 := Ingest(Empty, a, t1, d1, None).0;
    var s2 := Ingest(s1, b, t2, d2, None).0;
    assert GetStats(Empty) == Stats(0, 0, 0) by {
      assert ProcessedKeys(Empty.records) == {} && UnprocessedKeys(Empty.records) == {};
    }
    StatsAfterIngest(Empty, a, t1, d1, None);
    assert s1.records.Keys == {a} && !s1.records[a].processed;
    StatsAfterIngest(s1, b, t2, d2, None);
    assert GetStats(s2) == Stats(2, 0, 2);
    assert a in s2.records && !s2.records[a].processed;
    StatsAfterProcess(s2, a, t3);
  }

  /** With five records stored, a page of limit 2 at offset 1 holds the second and third records. */
  lemma PaginationScenario(s: Store)
    requires Valid(s) && |s.order| == 5
    ensures List(s, 2, 1) == [Values(s)[1], Values(s)[2]]
  {
  }

  /** Deleting a just-ingested record succeeds, hides it from `Get`, and a second delete reports false. */
  lemma DeleteScenario(s: Store, id: string, now: Timestamp, data: Json)
    requires Valid(s) && id !in s.records
    ensures var s1 := Ingest(s, id, now, data, None).0;
            var (s2, deleted) := Delete(s1, id);
            && deleted
            && Get(s2, id).None?
            && Delete(s2, id) == (s2, false)
            && GetStats(s2).total == GetStats(s1).total - 1
  {
    StatsAfterDelete(Ingest(s, id, now, data, None).0, id);
  }
}
