/** Snapshots of local files (`file_records`) and their batched maintenance. */
module FileRecords {
  import opened Wrappers
  import opened Sequences

  type Time = int

  datatype FileRecord = FileRecord(
    id: nat,
    watchFolderId: nat,
    localPath: string,
    relativePath: string,
    remoteName: string,
    remotePath: string,
    fileSize: int,
    modTime: Time,
    fingerprint: string,
    lastSeenAt: Option<Time>,
    missingAt: Option<Time>,
    uploadedAt: Option<Time>,
    updatedAt: Time
  )

  type Rows = map<nat, FileRecord>

  /** The columns the scanner owns, copied from `rec` into `row`. */
  function Overwrite(row: FileRecord, rec: FileRecord): FileRecord {
    row.(watchFolderId := rec.watchFolderId, relativePath := rec.relativePath, remoteName := rec.remoteName,
         remotePath := rec.remotePath, fileSize := rec.fileSize, modTime := rec.modTime,
         fingerprint := rec.fingerprint, lastSeenAt := rec.lastSeenAt)
  }

  /** `UpdateSnapshot` on the row it addresses: `missing_at` becomes NULL. */
  function UpdatedRow(row: FileRecord, rec: FileRecord, clear: bool, now: Time): FileRecord {
    Overwrite(row, rec).(missingAt := None, uploadedAt := if clear then None else row.uploadedAt, updatedAt := now)
  }

  /** `UpdateSnapshot`: no row is created when the identifier is unknown. */
  function UpdateSnapshot(rows: Rows, rec: FileRecord, clear: bool, now: Time): Rows {
    if rec.id in rows then rows[rec.id := UpdatedRow(rows[rec.id], rec, clear, now)] else rows
  }

  /** `INSERT ... ON DUPLICATE KEY UPDATE`: `missing_at` is copied from the record. */
  function Upsert(rows: Rows, rec: FileRecord): Rows {
    if rec.id in rows then
      rows[rec.id := Overwrite(rows[rec.id], rec).(missingAt := rec.missingAt, updatedAt := rec.updatedAt)]
    else rows[rec.id := rec]
  }

  function UpsertAll(rows: Rows, recs: seq<FileRecord>): Rows
    decreases |recs|
  {
    if recs == [] then rows else UpsertAll(Upsert(rows, recs[0]), recs[1..])
  }

  function ClearUploaded(rows: Rows, ids: set<nat>): Rows {
    map id | id in rows :: if id in ids then rows[id].(uploadedAt := None) else rows[id]
  }

  function Ids(recs: seq<FileRecord>): set<nat> {
    set r | r in recs :: r.id
  }

  function Stamp(recs: seq<FileRecord>, now: Time): seq<FileRecord> {
    seq(|recs|, i requires 0 <= i < |recs| => recs[i].(updatedAt := now))
  }

  /** One transaction of the batched form: clear the marks, then upsert every record. */
  function BatchTransaction(rows: Rows, batch: seq<FileRecord>, clear: set<nat>, now: Time): Rows {
    UpsertAll(ClearUploaded(rows, Ids(batch) * clear), Stamp(batch, now))
  }

  /** The batches of the loop: consecutive runs of `size` records, the last one possibly shorter. */
  function Chunks(recs: seq<FileRecord>, size: nat): seq<seq<FileRecord>>
    requires size > 0
    decreases |recs|
  {
    if recs == [] then []
    else if |recs| <= size then [recs]
    else [recs[..size]] + Chunks(recs[size..], size)
  }

  lemma {:induction false} ChunksFlatten(recs: seq<FileRecord>, size: nat)
    requires size > 0
    ensures Flatten(Chunks(recs, size)) == recs
    decreases |recs|
  {
    if |recs| > size {
      ChunksFlatten(recs[size..], size);
      FlattenCons(recs[..size], Chunks(recs[size..], size));
    } else if recs != [] {
      assert [recs][..0] == [];
    }
  }

  function Flatten(chunks: seq<seq<FileRecord>>): seq<FileRecord> {
    if chunks == [] then [] else Flatten(chunks[..|chunks| - 1]) + chunks[|chunks| - 1]
  }

  lemma {:induction false} FlattenCons(first: seq<FileRecord>, rest: seq<seq<FileRecord>>)
    ensures Flatten([first] + rest) == first + Flatten(rest)
    decreases |rest|
  {
    var all := [first] + rest;
    if rest == [] {
      assert all[..0] == [];
    } else {
      assert all[..|all| - 1] == [first] + rest[..|rest| - 1];
      FlattenCons(first, rest[..|rest| - 1]);
    }
  }

  /** Every batch but the last is full: a failure of batch `k` leaves exactly the first `k * size` records written. */
  lemma {:induction false} BatchesAreFull(recs: seq<FileRecord>, size: nat, k: nat)
    requires size > 0 && k <= |Chunks(recs, size)|
    ensures k < |Chunks(recs, size)| ==> k * size < |recs| && Flatten(Chunks(recs, size)[..k]) == recs[..k * size]
    ensures k == |Chunks(recs, size)| ==> |recs| <= k * size
    decreases |recs|
  {
    var chunks := Chunks(recs, size);
    if k == 0 {
      assert chunks[..0] == [];
    } else if |recs| > size {
      var rest := chunks[1..];
      BatchesAreFull(recs[size..], size, k - 1);
      OneMore(k, size);
      if k < |chunks| {
        assert chunks[..k] == [chunks[0]] + rest[..k - 1];
        FlattenCons(chunks[0], rest[..k - 1]);
        assert recs[..k * size] == recs[..size] + recs[size..][..(k - 1) * size];
      }
    } else {
      OneMore(k, size);
    }
  }

  lemma OneMore(k: nat, size: nat)
    requires k > 0
    ensures k * size == (k - 1) * size + size && 0 <= (k - 1) * size
  {}

  /** The batched form: one transaction per batch; batch number `i` commits at `clock(i)`. */
  function RunBatches(rows: Rows, chunks: seq<seq<FileRecord>>, clear: set<nat>, clock: nat -> Time): Rows {
    if chunks == [] then rows
    else
      var n := |chunks| - 1;
      BatchTransaction(RunBatches(rows, chunks[..n], clear, clock), chunks[n], clear, clock(n))
  }

  /** The one-row form applied to each record in turn. */
  function AfterSingles(rows: Rows, recs: seq<FileRecord>, clear: set<nat>, now: Time): Rows
    decreases |recs|
  {
    if recs == [] then rows
    else AfterSingles(UpdateSnapshot(rows, recs[0], recs[0].id in clear, now), recs[1..], clear, now)
  }

  ghost predicate Distinct(recs: seq<FileRecord>) {
    forall i, j | 0 <= i < j < |recs| :: recs[i].id != recs[j].id
  }

  ghost predicate Existing(rows: Rows, recs: seq<FileRecord>) {
    Ids(recs) <= rows.Keys
  }

  lemma IdsSplit(recs: seq<FileRecord>, n: nat)
    requires n <= |recs|
    ensures Ids(recs) == Ids(recs[..n]) + Ids(recs[n..])
  {
    assert recs == recs[..n] + recs[n..];
    assert forall r :: r in recs <==> r in recs[..n] || r in recs[n..];
  }

  /** Equal on every column but `missing_at` and the `updated_at` time stamp. */
  ghost predicate SameButMissing(a: Rows, b: Rows) {
    && a.Keys == b.Keys
    && forall id | id in a :: a[id].(missingAt := None, updatedAt := 0) == b[id].(missingAt := None, updatedAt := 0)
  }

  // ---- the meaning of each form, one row at a time

  /** The record addressed to row `id`. */
  function Find(recs: seq<FileRecord>, id: nat): (found: Option<FileRecord>)
    ensures found.Some? ==> found.value in recs && found.value.id == id
    ensures found.None? <==> id !in Ids(recs)
  {
    if recs == [] then None
    else
      assert forall r :: r in recs <==> r == recs[0] || r in recs[1..];
      if recs[0].id == id then Some(recs[0]) else Find(recs[1..], id)
  }

  /** What a batched update does to a row (time stamp aside): `missing_at` comes from the record. */
  function Batched(row: FileRecord, found: Option<FileRecord>, clear: set<nat>): FileRecord {
    if found.None? then row.(updatedAt := 0)
    else UpdatedRow(row, found.value, row.id in clear, 0).(missingAt := found.value.missingAt)
  }

  lemma {:induction false} UpsertAllKeys(rows: Rows, recs: seq<FileRecord>)
    requires Existing(rows, recs)
    ensures UpsertAll(rows, recs).Keys == rows.Keys
    decreases |recs|
  {
    if recs != [] {
      IdsSplit(recs, 1);
      assert recs[..1] == [recs[0]] && recs[0] in recs[..1];
      UpsertAllKeys(Upsert(rows, recs[0]), recs[1..]);
    }
  }

  lemma {:induction false} UpsertAllRow(rows: Rows, recs: seq<FileRecord>, id: nat)
    requires id in rows && Distinct(recs)
    ensures id in UpsertAll(rows, recs)
    ensures UpsertAll(rows, recs)[id] ==
      match Find(recs, id)
      case None => rows[id]
      case Some(rec) => Overwrite(rows[id], rec).(missingAt := rec.missingAt, updatedAt := rec.updatedAt)
    decreases |recs|
  {
    if recs != [] {
      UpsertAllRow(Upsert(rows, recs[0]), recs[1..], id);
      HeadIsNew(recs);
    }
  }

  lemma HeadIsNew(recs: seq<FileRecord>)
    requires recs != [] && Distinct(recs)
    ensures recs[0].id !in Ids(recs[1..]) && Distinct(recs[1..])
  {
    forall i | 0 <= i < |recs| - 1 ensures recs[1..][i].id != recs[0].id {
      assert recs[1..][i] == recs[i + 1];
    }
  }

  lemma {:induction false} AfterSinglesRow(rows: Rows, recs: seq<FileRecord>, clear: set<nat>, now: Time, id: nat)
    requires id in rows && rows[id].id == id && Distinct(recs)
    ensures AfterSingles(rows, recs, clear, now).Keys == rows.Keys
    ensures AfterSingles(rows, recs, clear, now)[id] ==
      match Find(recs, id)
      case None => rows[id]
      case Some(rec) => UpdatedRow(rows[id], rec, id in clear, now)
    decreases |recs|
  {
    if recs != [] {
      AfterSinglesRow(UpdateSnapshot(rows, recs[0], recs[0].id in clear, now), recs[1..], clear, now, id);
      HeadIsNew(recs);
    }
  }

  lemma {:induction false} StampFind(recs: seq<FileRecord>, now: Time, id: nat)
    ensures Find(Stamp(recs, now), id) ==
      match Find(recs, id) case None => None case Some(rec) => Some(rec.(updatedAt := now))
  {
    if recs != [] {
      assert Stamp(recs, now)[1..] == Stamp(recs[1..], now);
      StampFind(recs[1..], now, id);
    }
  }

  lemma BatchTransactionRow(rows: Rows, batch: seq<FileRecord>, clear: set<nat>, now: Time, id: nat)
    requires id in rows && rows[id].id == id && Distinct(batch)
    ensures var after := BatchTransaction(rows, batch, clear, now);
      && id in after && after[id].id == id
      && after[id].(updatedAt := 0) == Batched(rows[id], Find(batch, id), clear)
  {
    var cleared := ClearUploaded(rows, Ids(batch) * clear);
    var stamped := Stamp(batch, now);
    assert Distinct(stamped) by {
      assert forall i | 0 <= i < |stamped| :: stamped[i].id == batch[i].id;
    }
    UpsertAllRow(cleared, stamped, id);
    StampFind(batch, now, id);
  }

  lemma {:induction false} FindConcat(a: seq<FileRecord>, b: seq<FileRecord>, id: nat)
    requires Distinct(a + b)
    ensures Find(a + b, id) == if Find(a, id).Some? then Find(a, id) else Find(b, id)
    ensures Find(a, id).None? || Find(b, id).None?
    ensures Distinct(a) && Distinct(b)
    decreases |a|
  {
    DistinctParts(a, b);
    if a == [] {
      assert a + b == b;
    } else {
      assert (a + b)[0] == a[0] && (a + b)[1..] == a[1..] + b;
      HeadIsNew(a + b);
      FindConcat(a[1..], b, id);
      if a[0].id == id {
        FoundIsThere(a[1..] + b, id);
      }
    }
  }

  lemma FoundIsThere(recs: seq<FileRecord>, id: nat)
    requires id !in Ids(recs)
    ensures Find(recs, id).None?
  {}

  lemma DistinctParts(a: seq<FileRecord>, b: seq<FileRecord>)
    requires Distinct(a + b)
    ensures Distinct(a) && Distinct(b)
  {
    forall i, j | 0 <= i < j < |a| ensures a[i].id != a[j].id {
      assert (a + b)[i] == a[i] && (a + b)[j] == a[j];
    }
    forall i, j | 0 <= i < j < |b| ensures b[i].id != b[j].id {
      assert (a + b)[|a| + i] == b[i] && (a + b)[|a| + j] == b[j];
    }
  }

  lemma BatchedThen(
      row: FileRecord, mid: FileRecord, after: FileRecord, f: Option<FileRecord>, g: Option<FileRecord>,
      clear: set<nat>)
    requires mid.id == row.id && (f.None? || g.None?)
    requires mid.(updatedAt := 0) == Batched(row, f, clear) && after.(updatedAt := 0) == Batched(mid, g, clear)
    ensures after.(updatedAt := 0) == Batched(row, if f.Some? then f else g, clear)
  {}

  /**
   * The transactions that committed rewrote exactly their own records, each by its one-row meaning
   * except for `missing_at`; every other row is untouched.
   */
  lemma {:induction false} CommittedRow(
      rows: Rows, chunks: seq<seq<FileRecord>>, clear: set<nat>, clock: nat -> Time, id: nat)
    requires id in rows && rows[id].id == id && Distinct(Flatten(chunks))
    ensures var after := RunBatches(rows, chunks, clear, clock);
      && id in after && after[id].id == id
      && after[id].(updatedAt := 0) == Batched(rows[id], Find(Flatten(chunks), id), clear)
  {
    if chunks != [] {
      var n := |chunks| - 1;
      var init := chunks[..n];
      FindConcat(Flatten(init), chunks[n], id);
      CommittedRow(rows, init, clear, clock, id);
      var mid := RunBatches(rows, init, clear, clock);
      BatchTransactionRow(mid, chunks[n], clear, clock(n), id);
      BatchedThen(rows[id], mid[id], RunBatches(rows, chunks, clear, clock)[id], Find(Flatten(init), id),
        Find(chunks[n], id), clear);
    }
  }

  lemma StampIds(recs: seq<FileRecord>, now: Time)
    ensures Ids(Stamp(recs, now)) == Ids(recs)
  {
    forall id ensures id in Ids(Stamp(recs, now)) <==> id in Ids(recs) {
      StampFind(recs, now, id);
    }
  }

  lemma BatchTransactionKeys(rows: Rows, batch: seq<FileRecord>, clear: set<nat>, now: Time)
    requires Existing(rows, batch)
    ensures BatchTransaction(rows, batch, clear, now).Keys == rows.Keys
  {
    var stamped := Stamp(batch, now);
    StampIds(batch, now);
    UpsertAllKeys(ClearUploaded(rows, Ids(batch) * clear), stamped);
  }

  lemma {:induction false} RunBatchesKeys(rows: Rows, chunks: seq<seq<FileRecord>>, clear: set<nat>, clock: nat -> Time)
    requires Existing(rows, Flatten(chunks))
    ensures RunBatches(rows, chunks, clear, clock).Keys == rows.Keys
  {
    if chunks != [] {
      var n := |chunks| - 1;
      var flat := Flatten(chunks);
      assert flat[..|Flatten(chunks[..n])|] == Flatten(chunks[..n]) && flat[|Flatten(chunks[..n])|..] == chunks[n];
      IdsSplit(flat, |Flatten(chunks[..n])|);
      RunBatchesKeys(rows, chunks[..n], clear, clock);
      BatchTransactionKeys(RunBatches(rows, chunks[..n], clear, clock), chunks[n], clear, clock(n));
    }
  }

  ghost predicate Keyed(rows: Rows) {
    forall id | id in rows :: rows[id].id == id
  }

  /** The batched update refines the one-row form for every batch size, on every column except `missing_at`. */
  lemma BatchesRefineSingles(
      rows: Rows, recs: seq<FileRecord>, clear: set<nat>, size: nat, clock: nat -> Time, now: Time)
    requires size > 0 && Keyed(rows) && Existing(rows, recs) && Distinct(recs)
    ensures SameButMissing(RunBatches(rows, Chunks(recs, size), clear, clock), AfterSingles(rows, recs, clear, now))
  {
    var a, b := RunBatches(rows, Chunks(recs, size), clear, clock), AfterSingles(rows, recs, clear, now);
    ChunksFlatten(recs, size);
    RunBatchesKeys(rows, Chunks(recs, size), clear, clock);
    SinglesKeys(rows, recs, clear, now);
    forall id | id in a ensures a[id].(missingAt := None, updatedAt := 0) == b[id].(missingAt := None, updatedAt := 0) {
      BothForms(rows, recs, clear, size, clock, now, id);
      assert a[id].(missingAt := None, updatedAt := 0) == a[id].(updatedAt := 0).(missingAt := None);
    }
  }

  lemma {:induction false} SinglesKeys(rows: Rows, recs: seq<FileRecord>, clear: set<nat>, now: Time)
    ensures AfterSingles(rows, recs, clear, now).Keys == rows.Keys
    decreases |recs|
  {
    if recs != [] {
      SinglesKeys(UpdateSnapshot(rows, recs[0], recs[0].id in clear, now), recs[1..], clear, now);
    }
  }

  lemma BothForms(rows: Rows, recs: seq<FileRecord>, clear: set<nat>, size: nat, clock: nat -> Time, now: Time, id: nat)
    requires size > 0 && id in rows && rows[id].id == id && Distinct(recs)
    ensures var a, b := RunBatches(rows, Chunks(recs, size), clear, clock), AfterSingles(rows, recs, clear, now);
      && id in a && a[id].(updatedAt := 0) == Batched(rows[id], Find(recs, id), clear)
      && id in b && b[id] ==
        match Find(recs, id) case None => rows[id] case Some(rec) => UpdatedRow(rows[id], rec, id in clear, now)
  {
    ChunksFlatten(recs, size);
    CommittedRow(rows, Chunks(recs, size), clear, clock, id);
    AfterSinglesRow(rows, recs, clear, now, id);
  }

  /** On an addressed row `missing_at` agrees with the one-row form exactly when the record carries none. */
  lemma MissingAgreesExactlyWhen(
      rows: Rows, recs: seq<FileRecord>, clear: set<nat>, size: nat, clock: nat -> Time, now: Time, rec: FileRecord)
    requires size > 0 && Keyed(rows) && Existing(rows, recs) && Distinct(recs) && rec in recs
    ensures var a, b := RunBatches(rows, Chunks(recs, size), clear, clock), AfterSingles(rows, recs, clear, now);
      && rec.id in a && rec.id in b
      && (a[rec.id].missingAt == b[rec.id].missingAt <==> rec.missingAt.None?)
  {
    assert rec.id in Ids(recs);
    BothForms(rows, recs, clear, size, clock, now, rec.id);
    assert Find(recs, rec.id) == Some(rec) by {
      var found := Find(recs, rec.id).value;
      var i, j :| 0 <= i < |recs| && 0 <= j < |recs| && recs[i] == rec && recs[j] == found;
    }
    var a := RunBatches(rows, Chunks(recs, size), clear, clock);
    assert a[rec.id].(updatedAt := 0).missingAt == a[rec.id].missingAt;
  }

  // ---- the repository

  class FileRecordRepository {
    var rows: Rows
    var nextId: nat

    constructor ()
      ensures rows == map[] && nextId == 1
    {
      rows, nextId := map[], 1;
    }

    /** `failAt` is the batch whose transaction the database rejects, if any. */
    method UpdateSnapshots(
        records: seq<FileRecord>, clearUploadedIDs: set<nat>, batchSize: int, clock: nat -> Time, failAt: Option<nat>)
      returns (ok: bool)
      modifies this`rows
      ensures var chunks := Chunks(records, if batchSize <= 0 then 500 else batchSize);
        && (ok <==> failAt.None? || failAt.value >= |chunks|)
        && rows == RunBatches(old(rows), if ok then chunks else chunks[..failAt.value], clearUploadedIDs, clock)
    {
      var size: nat := if batchSize <= 0 then 500 else batchSize;
      ghost var chunks := Chunks(records, size);
      var start, batches: nat := 0, 0;
      Whole(records);
      Whole(chunks);
      while start < |records|
        invariant start <= |records| && batches <= |chunks|
        invariant chunks[batches..] == Chunks(records[start..], size)
        invariant rows == RunBatches(old(rows), chunks[..batches], clearUploadedIDs, clock)
        invariant failAt.Some? ==> batches <= failAt.value
        decreases |records| - start
      {
        var end := if start + size > |records| then |records| else start + size;
        FirstChunk(records, start, end, size, chunks, batches);
        if failAt == Some(batches) {
          return false;
        }
        CommitBatch(records[start..end], clearUploadedIDs, clock(batches));
        NextTransaction(old(rows), chunks, batches, clearUploadedIDs, clock);
        batches := batches + 1;
        start := end;
      }
      NoMoreChunks(records, start, size, chunks, batches);
      return true;
    }

    /** One transaction: clear the marks of the batch, then upsert its records. */
    method CommitBatch(batch: seq<FileRecord>, clearSet: set<nat>, now: Time)
      modifies this`rows
      ensures rows == BatchTransaction(old(rows), batch, clearSet, now)
    {
      var stamped, clearBatch := PrepareBatch(batch, now, clearSet);
      rows := ClearUploaded(rows, clearBatch);
      rows := UpsertAll(rows, stamped);
    }

    /** The inner loop: stamp every record of the batch and collect the marks to clear. */
    method PrepareBatch(
        batch: seq<FileRecord>, now: Time, clearSet: set<nat>)
      returns (stamped: seq<FileRecord>, clearBatch: set<nat>)
      ensures stamped == Stamp(batch, now)
      ensures clearBatch == Ids(batch) * clearSet
    {
      stamped, clearBatch := [], {};
      for i := 0 to |batch|
        invariant stamped == Stamp(batch[..i], now)
        invariant clearBatch == Ids(batch[..i]) * clearSet
      {
        assert batch[..i + 1] == batch[..i] + [batch[i]];
        assert forall r :: r in batch[..i + 1] <==> r in batch[..i] || r == batch[i];
        stamped := stamped + [batch[i].(updatedAt := now)];
        if batch[i].id in clearSet {
          clearBatch := clearBatch + {batch[i].id};
        }
      }
      assert batch[..|batch|] == batch;
    }

    /** `MarkMissing`: batch by batch; a row that is already missing keeps its time stamp. */
    method MarkMissing(ids: seq<nat>, at: Time, batchSize: int)
      modifies this`rows
      ensures rows == MarkedMissing(old(rows), Elements(ids), at)
      ensures rows.Keys == old(rows).Keys
      ensures forall id | id in rows ::
        rows[id] == (
          if id in ids && old(rows)[id].missingAt.None? then old(rows)[id].(missingAt := Some(at)) else old(rows)[id])
    {
      var size: nat := if batchSize <= 0 then 500 else batchSize;
      var start := 0;
      while start < |ids|
        invariant start <= |ids|
        invariant MarkedMissing(rows, Elements(ids[start..]), at) == MarkedMissing(old(rows), Elements(ids), at)
        decreases |ids| - start
      {
        var end := if start + size > |ids| then |ids| else start + size;
        assert ids[start..] == ids[start..end] + ids[end..];
        assert Elements(ids[start..]) == Elements(ids[start..end]) + Elements(ids[end..]);
        MarkedTwice(rows, Elements(ids[start..end]), Elements(ids[end..]), at);
        rows := MarkedMissing(rows, Elements(ids[start..end]), at);
        start := end;
      }
      assert MarkedMissing(rows, {}, at) == rows;
    }

    /** `CreateSnapshots`: a record whose local path is already stored is skipped. */
    method CreateSnapshots(records: seq<FileRecord>)
      modifies this`rows, this`nextId
      ensures Store(rows, nextId) == InsertAll(Store(old(rows), old(nextId)), records)
    {
      for i := 0 to |records|
        invariant Store(rows, nextId) == InsertAll(Store(old(rows), old(nextId)), records[..i])
      {
        if !HasPath(rows, records[i].localPath) {
          rows := rows[nextId := records[i].(id := nextId)];
          nextId := nextId + 1;
        }
        assert records[..i + 1][..i] == records[..i];
      }
      assert records[..|records|] == records;
    }
  }

  // ---- inserting what is absent

  /** The table and its auto-increment counter. */
  datatype Store = Store(rows: Rows, nextId: nat)

  predicate HasPath(rows: Rows, path: string) {
    exists id | id in rows :: rows[id].localPath == path
  }

  function InsertAbsent(store: Store, rec: FileRecord): Store {
    if HasPath(store.rows, rec.localPath) then store
    else Store(store.rows[store.nextId := rec.(id := store.nextId)], store.nextId + 1)
  }

  function InsertAll(store: Store, recs: seq<FileRecord>): Store {
    if recs == [] then store else InsertAbsent(InsertAll(store, recs[..|recs| - 1]), recs[|recs| - 1])
  }

  /** The table as the database keeps it: rows carry their identifiers, the counter is ahead, local paths are unique. */
  ghost predicate WellFormed(store: Store) {
    && store.nextId > 0
    && (forall id | id in store.rows :: 0 < id < store.nextId && store.rows[id].id == id)
    && UniquePaths(store.rows)
  }

  ghost predicate UniquePaths(rows: Rows) {
    forall a, b | a in rows && b in rows && rows[a].localPath == rows[b].localPath :: a == b
  }

  ghost predicate IsInsertOf(row: FileRecord, recs: seq<FileRecord>) {
    exists r | r in recs :: row == r.(id := row.id)
  }

  /**
   * Old rows keep their contents; every new row is a record whose path was absent; every path is present afterwards.
   */
  lemma {:induction false} InsertAllEffect(store: Store, recs: seq<FileRecord>)
    requires WellFormed(store)
    ensures var after := InsertAll(store, recs);
      && WellFormed(after) && store.rows.Keys <= after.rows.Keys
      && (forall id | id in store.rows :: after.rows[id] == store.rows[id])
      && (forall id | id in after.rows && id !in store.rows ::
        IsInsertOf(after.rows[id], recs) && !HasPath(store.rows, after.rows[id].localPath))
      && (forall r | r in recs :: HasPath(after.rows, r.localPath))
  {
    if recs != [] {
      var n := |recs| - 1;
      InsertAllEffect(store, recs[..n]);
      assert recs == recs[..n] + [recs[n]];
      InsertAbsentEffect(store, InsertAll(store, recs[..n]), recs[..n], recs[n]);
    }
  }

  lemma InsertAbsentEffect(first: Store, mid: Store, recs: seq<FileRecord>, rec: FileRecord)
    requires WellFormed(mid) && first.rows.Keys <= mid.rows.Keys
    requires forall id | id in first.rows :: mid.rows[id] == first.rows[id]
    requires forall id | id in mid.rows && id !in first.rows ::
      IsInsertOf(mid.rows[id], recs) && !HasPath(first.rows, mid.rows[id].localPath)
    ensures var after := InsertAbsent(mid, rec);
      && WellFormed(after) && first.rows.Keys <= after.rows.Keys
      && (forall id | id in first.rows :: after.rows[id] == first.rows[id])
      && (forall id | id in after.rows && id !in first.rows ::
            IsInsertOf(after.rows[id], recs + [rec]) && !HasPath(first.rows, after.rows[id].localPath))
      && HasPath(after.rows, rec.localPath)
      && (forall path :: HasPath(mid.rows, path) ==> HasPath(after.rows, path))
  {
    var after := InsertAbsent(mid, rec);
    assert forall id | id in mid.rows :: id in after.rows && after.rows[id] == mid.rows[id];
    forall id | id in mid.rows && id !in first.rows ensures IsInsertOf(mid.rows[id], recs + [rec]) {
      var r :| r in recs && mid.rows[id] == r.(id := mid.rows[id].id);
      assert r in recs + [rec];
    }
    if !HasPath(mid.rows, rec.localPath) {
      var row := after.rows[mid.nextId];
      assert rec in recs + [rec] && row == rec.(id := row.id);
      assert forall id | id in first.rows :: mid.rows[id].localPath == first.rows[id].localPath;
    }
  }

  function Elements(ids: seq<nat>): set<nat> {
    set id | id in ids
  }

  function MarkedMissing(rows: Rows, ids: set<nat>, at: Time): Rows {
    map id | id in rows :: if id in ids && rows[id].missingAt.None? then rows[id].(missingAt := Some(at)) else rows[id]
  }

  lemma NextTransaction(rows: Rows, chunks: seq<seq<FileRecord>>, n: nat, clear: set<nat>, clock: nat -> Time)
    requires n < |chunks|
    ensures RunBatches(rows, chunks[..n + 1], clear, clock)
         == BatchTransaction(RunBatches(rows, chunks[..n], clear, clock), chunks[n], clear, clock(n))
  {
    assert chunks[..n + 1][..n] == chunks[..n];
  }

  /** The batch at the loop's position is the next chunk. */
  lemma FirstChunk(recs: seq<FileRecord>, start: nat, end: nat, size: nat, chunks: seq<seq<FileRecord>>, batches: nat)
    requires size > 0 && start < |recs| && end == if start + size > |recs| then |recs| else start + size
    requires batches <= |chunks| && chunks[batches..] == Chunks(recs[start..], size)
    ensures batches < |chunks| && chunks[batches] == recs[start..end]
    ensures chunks[batches + 1..] == Chunks(recs[end..], size)
  {
    var rest := recs[start..];
    assert chunks[batches] == chunks[batches..][0];
    assert chunks[batches + 1..] == chunks[batches..][1..];
    if |rest| > size {
      assert rest[size..] == recs[end..] && rest[..size] == recs[start..end];
    } else {
      assert rest == recs[start..end];
    }
  }

  lemma NoMoreChunks(recs: seq<FileRecord>, start: nat, size: nat, chunks: seq<seq<FileRecord>>, batches: nat)
    requires size > 0 && start == |recs| && batches <= |chunks| && chunks[batches..] == Chunks(recs[start..], size)
    ensures batches == |chunks| && chunks[..batches] == chunks
  {
    assert |chunks[batches..]| == |chunks| - batches;
  }

  lemma MarkedTwice(rows: Rows, a: set<nat>, b: set<nat>, at: Time)
    ensures MarkedMissing(MarkedMissing(rows, a, at), b, at) == MarkedMissing(rows, a + b, at)
  {}
}
