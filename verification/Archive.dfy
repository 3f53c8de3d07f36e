/** What callers believe the store to be: one map from id to entry and full bodies. The two-tier store refines it. */
module Archives {
  import opened Types
  import opened RowCodec
  import opened BodyBuffers
  import opened Memory
  import opened Database
  import opened StoreSpec

  /** An entry with every byte ever captured on either side. */
  datatype Record = Record(entry: Entry, req: Bytes, resp: Bytes, archived: bool) {
    function BytesOf(side: Side): Bytes {
      if side == Request then req else resp
    }
  }

  /** The records, and the finished ids from newest to oldest. */
  datatype Archive = Archive(records: map<string, Record>, history: seq<string>)

  // --- Observations ---

  function BodyView(cfg: Config, id: string, side: Side, w: Bytes): Body {
    Body(w[..Min(|w|, cfg.maxInline)], if |w| > cfg.maxInline then BlobName(id, side) else "", |w|, |w| > cfg.maxInline)
  }

  function Present(cfg: Config, id: string, r: Record): Entry {
    r.entry.(request := BodyView(cfg, id, Request, r.req), response := BodyView(cfg, id, Response, r.resp))
  }

  function Lookup(cfg: Config, a: Archive, id: string): Result<Entry> {
    if id !in a.records then Err(NotFound)
    else if a.records[id].archived then Ok(Normalise(Present(cfg, id, a.records[id])))
    else Ok(Present(cfg, id, a.records[id]))
  }

  function Payload(a: Archive, id: string, side: Side): Result<(Bytes, int)> {
    if id !in a.records then Err(NotFound)
    else Ok((a.records[id].BytesOf(side), |a.records[id].BytesOf(side)|))
  }

  // --- Operations on the single map ---

  predicate IsPending(a: Archive, id: string) { id in a.records && !a.records[id].archived }

  function HistoryStarts(records: map<string, Record>, h: seq<string>): (starts: seq<int>)
    ensures |starts| == |h|
  {
    seq(|h|, i requires 0 <= i < |h| => if h[i] in records then UnixMilli(records[h[i]].entry.startedAt) else 0)
  }

  function Archived(a: Archive, id: string, fn: Edit, now: int): Archive
    requires id in a.records
  {
    var r := a.records[id];
    var e := Settled(r.entry, fn, now);
    var k := InsertPos(HistoryStarts(a.records, a.history), UnixMilli(e.startedAt));
    Archive(a.records[id := r.(entry := e, archived := true)], InsertAt(a.history, k, id))
  }

  function Evict(cfg: Config, a: Archive): Archive {
    var k := Min(cfg.maxEntries, |a.history|);
    Archive(a.records - Elements(a.history[k..]), a.history[..k])
  }

  function ArchiveFinalize(cfg: Config, a: Archive, id: string, fn: Edit, now: int): Archive {
    if !IsPending(a, id) then a else Evict(cfg, Archived(a, id, fn, now))
  }

  function ArchiveFinalizeAll(cfg: Config, a: Archive, ids: seq<string>, fn: Edit, now: int): Archive
    decreases |ids|
  {
    if ids == [] then a
    else ArchiveFinalizeAll(cfg, ArchiveFinalize(cfg, a, ids[0], fn, now), ids[1..], fn, now)
  }

  function ArchiveStep(cfg: Config, a: Archive, op: Op): Archive {
    match op
    case OpPut(e, newId, now) =>
      a.(records := a.records[AssignedId(e, newId) := Record(Registered(e, newId, now), [], [], false)])
    case OpSetRequestBody(id, body) =>
      if !IsPending(a, id) then a
      else a.(records := a.records[id := a.records[id].(req := a.records[id].req + body)])
    case OpAppendResponse(id, chunk, _, _) =>
      if !IsPending(a, id) then a
      else a.(records := a.records[id := a.records[id].(resp := a.records[id].resp + chunk)])
    case OpUpdate(id, fn, _) =>
      if !IsPending(a, id) then a
      else a.(records := a.records[id := a.records[id].(entry := fn(a.records[id].entry).(id := a.records[id].entry.id))])
    case OpFinalize(id, fn, now) => ArchiveFinalize(cfg, a, id, fn, now)
    case OpClear(_) => Archive((map id | id in a.records && !a.records[id].archived :: a.records[id]), [])
    case OpSweep(order, _, message, now) => ArchiveFinalizeAll(cfg, a, order, TimeoutEdit(message), now)
  }

  function ArchiveRun(cfg: Config, a: Archive, ops: seq<Op>): Archive
    decreases |ops|
  {
    if ops == [] then a else ArchiveRun(cfg, ArchiveStep(cfg, a, ops[0]), ops[1..])
  }

  // --- The refinement relation ---

  predicate FileOk(cfg: Config, files: Disk, name: string, w: Bytes) {
    if |w| > cfg.maxInline then name in files && files[name] == w else name !in files
  }

  /** A file name that belongs to one of the ids. */
  predicate Owned(name: string, ids: set<string>) {
    && OwnerOf(name) in ids
    && (name == BlobName(OwnerOf(name), Request) || name == BlobName(OwnerOf(name), Response))
  }

  /** Each record's oversized sides, and nothing else, are on disk, in full. */
  ghost predicate FilesMatch(cfg: Config, files: Disk, records: map<string, Record>) {
    && "" !in records
    && (forall id, side :: id in records ==> FileOk(cfg, files, BlobName(id, side), records[id].BytesOf(side)))
    && (forall n :: n in files ==> Owned(n, records.Keys))
  }

  predicate BufOk(cfg: Config, b: Buf, id: string, side: Side, w: Bytes) {
    Writable(b) && StateOf(b) == BodyView(cfg, id, side, w)
  }

  predicate LiveOk(cfg: Config, l: Live, id: string, r: Record) {
    && !r.archived
    && r.entry == l.entry
    && BufOk(cfg, l.req, id, Request, r.req)
    && BufOk(cfg, l.resp, id, Response, r.resp)
  }

  ghost predicate MemMatch(cfg: Config, mem: map<string, Live>, records: map<string, Record>) {
    forall id :: id in mem ==> id in records && LiveOk(cfg, mem[id], id, records[id])
  }

  predicate RowOk(cfg: Config, r: Row, records: map<string, Record>) {
    && r.id in records
    && records[r.id].archived
    && r == Encode(Present(cfg, r.id, records[r.id]))
  }

  ghost predicate TableMatch(cfg: Config, table: seq<Row>, records: map<string, Record>) {
    forall i :: 0 <= i < |table| ==> RowOk(cfg, table[i], records)
  }

  /** The two-tier state s stands for the single map a. */
  ghost predicate Represents(cfg: Config, s: State, a: Archive) {
    && a.history == RowIds(s.table)
    && a.records.Keys == s.mem.Keys + Elements(a.history)
    && MemMatch(cfg, s.mem, a.records)
    && TableMatch(cfg, s.table, a.records)
    && FilesMatch(cfg, s.files, a.records)
  }

  // --- Which tier holds an entry never shows ---

  lemma BodyViewMatches(cfg: Config, id: string, side: Side, w: Bytes)
    ensures PathMatchesFlag(BodyView(cfg, id, side, w))
    ensures |w| > cfg.maxInline <==> BodyView(cfg, id, side, w).path != ""
  {
    assert |BlobName(id, side)| > 0;
  }

  /** The records are exactly the ids in memory or in the table, and the pending ones are those in memory. */
  lemma KnownIds(cfg: Config, s: State, a: Archive, id: string)
    requires Represents(cfg, s, a)
    ensures id in a.records <==> id in s.mem || FindRow(s.table, id).Some?
    ensures id in s.mem <==> IsPending(a, id)
  {
    var r := FindRow(s.table, id);
    if id in RowIds(s.table) {
      var i :| 0 <= i < |s.table| && RowIds(s.table)[i] == id;
      assert s.table[i].id == id && RowOk(cfg, s.table[i], a.records);
    }
    if r.Some? {
      var i :| 0 <= i < |s.table| && s.table[i] == r.value;
      assert RowIds(s.table)[i] == id;
    }
  }

  lemma GetAgrees(cfg: Config, s: State, a: Archive, id: string)
    requires Represents(cfg, s, a)
    ensures Get(s, id) == Lookup(cfg, a, id)
  {
    KnownIds(cfg, s, a, id);
    if id in s.mem {
      assert LiveOk(cfg, s.mem[id], id, a.records[id]);
    } else if id in a.records {
      var r := FindRow(s.table, id).value;
      var i :| 0 <= i < |s.table| && s.table[i] == r;
      assert RowOk(cfg, s.table[i], a.records);
      var e := Present(cfg, id, a.records[id]);
      BodyViewMatches(cfg, id, Request, a.records[id].req);
      BodyViewMatches(cfg, id, Response, a.records[id].resp);
      RowRoundTrip(e);
    }
  }

  /** Reading through a looked-up entry and the files gives the record's bytes. */
  lemma LookupReads(cfg: Config, a: Archive, files: Disk, id: string, side: Side)
    requires FilesMatch(cfg, files, a.records) && id in a.records
    ensures var b := Lookup(cfg, a, id).value.BodyOf(side);
            var w := a.records[id].BytesOf(side);
            && b.size == |w|
            && (b.path != "" <==> |w| > cfg.maxInline)
            && (if b.path != "" then b.path in files && files[b.path] == w else b.bytes == w)
            && b.spilled == (|w| > cfg.maxInline)
  {
    var w := a.records[id].BytesOf(side);
    BodyViewMatches(cfg, id, side, w);
    assert FileOk(cfg, files, BlobName(id, side), w);
    assert |w| <= cfg.maxInline ==> w[..Min(|w|, cfg.maxInline)] == w;
  }

  /** Get and Body answer as the single map does. */
  lemma ObservationsAgree(cfg: Config, s: State, a: Archive, id: string, side: Side)
    requires Represents(cfg, s, a)
    ensures Get(s, id) == Lookup(cfg, a, id)
    ensures ReadBody(s, id, side) == Payload(a, id, side)
  {
    GetAgrees(cfg, s, a, id);
    if id in a.records {
      LookupReads(cfg, a, s.files, id, side);
    }
  }

  // --- Each step simulates ---

  lemma FilesAfterWrite(cfg: Config, files: Disk, files': Disk, records: map<string, Record>,
                        id: string, side: Side, r: Record)
    requires FilesMatch(cfg, files, records) && id in records
    requires files' - {BlobName(id, side)} == files - {BlobName(id, side)}
    requires FileOk(cfg, files', BlobName(id, side), r.BytesOf(side))
    requires forall other :: other != side ==> r.BytesOf(other) == records[id].BytesOf(other)
    ensures FilesMatch(cfg, files', records[id := r])
  {
    var name := BlobName(id, side);
    var records' := records[id := r];
    forall n | n != name
      ensures n in files' <==> n in files
      ensures n in files ==> files'[n] == files[n]
    {
      assert n in files' <==> n in files' - {name};
      assert n in files <==> n in files - {name};
      assert n in files ==> (files' - {name})[n] == (files - {name})[n];
    }
    forall other, otherSide | other in records'
      ensures FileOk(cfg, files', BlobName(other, otherSide), records'[other].BytesOf(otherSide))
    {
      BlobNamesDiffer(id, side, other, otherSide);
      assert FileOk(cfg, files, BlobName(other, otherSide), records[other].BytesOf(otherSide));
    }
    OwnerOfBlobName(id, side);
    assert Owned(name, records'.Keys);
    assert records'.Keys == records.Keys;
  }

  lemma WriteSimulates(cfg: Config, s: State, a: Archive, id: string, side: Side, p: Bytes)
    requires Represents(cfg, s, a) && id in s.mem
    ensures var w := a.records[id].BytesOf(side);
            var b := if side == Request then s.mem[id].req else s.mem[id].resp;
            var (b', files') := BufWrite(b, s.files, BlobName(id, side), cfg.maxInline, p);
            && BufOk(cfg, b', id, side, w + p)
            && FileOk(cfg, files', BlobName(id, side), w + p)
            && files' - {BlobName(id, side)} == s.files - {BlobName(id, side)}
  {
    var w := a.records[id].BytesOf(side);
    var b := if side == Request then s.mem[id].req else s.mem[id].resp;
    var name := BlobName(id, side);
    assert FileOk(cfg, s.files, name, w);
    assert BufOk(cfg, b, id, side, w);
    WriteHolds(b, s.files, name, cfg.maxInline, w, p);
  }

  /** Changing a pending record leaves every row's record alone. */
  lemma TableUnaffected(cfg: Config, table: seq<Row>, records: map<string, Record>, id: string, r: Record)
    requires TableMatch(cfg, table, records) && (id in records ==> !records[id].archived)
    ensures TableMatch(cfg, table, records[id := r])
  {
    forall i | 0 <= i < |table|
      ensures RowOk(cfg, table[i], records[id := r])
    {
      assert RowOk(cfg, table[i], records);
    }
  }

  /** Replacing or adding one pending entry, its record and its files keeps the relation. */
  lemma PendingChange(cfg: Config, s: State, a: Archive, id: string, l: Live, r: Record, files: Disk, events: seq<Event>)
    requires Represents(cfg, s, a)
    requires id in s.mem || id !in a.records
    requires LiveOk(cfg, l, id, r)
    requires FilesMatch(cfg, files, a.records[id := r])
    ensures Represents(cfg, State(s.mem[id := l], s.table, files, events), a.(records := a.records[id := r]))
  {
    TableUnaffected(cfg, s.table, a.records, id, r);
    MemAfterChange(cfg, s.mem, a.records, id, l, r);
    assert a.records[id := r].Keys == s.mem[id := l].Keys + Elements(a.history);
  }

  lemma MemAfterChange(cfg: Config, mem: map<string, Live>, records: map<string, Record>, id: string, l: Live, r: Record)
    requires MemMatch(cfg, mem, records) && LiveOk(cfg, l, id, r)
    ensures MemMatch(cfg, mem[id := l], records[id := r])
  {
  }

  lemma SetRequestBodySimulates(cfg: Config, s: State, a: Archive, id: string, body: Bytes)
    requires Represents(cfg, s, a)
    ensures Represents(cfg, SetRequestBody(cfg, s, id, body), ArchiveStep(cfg, a, OpSetRequestBody(id, body)))
  {
    KnownIds(cfg, s, a, id);
    if id in s.mem {
      WriteSimulates(cfg, s, a, id, Request, body);
      var s' := SetRequestBody(cfg, s, id, body);
      var r := a.records[id].(req := a.records[id].req + body);
      FilesAfterWrite(cfg, s.files, s'.files, a.records, id, Request, r);
      PendingChange(cfg, s, a, id, s'.mem[id], r, s'.files, s'.events);
    }
  }

  lemma AppendResponseSimulates(cfg: Config, s: State, a: Archive, id: string, chunk: Bytes, emit: bool, now: int)
    requires Represents(cfg, s, a)
    ensures Represents(cfg, AppendResponse(cfg, s, id, chunk, emit, now),
                       ArchiveStep(cfg, a, OpAppendResponse(id, chunk, emit, now)))
  {
    KnownIds(cfg, s, a, id);
    if id in s.mem {
      WriteSimulates(cfg, s, a, id, Response, chunk);
      var s' := AppendResponse(cfg, s, id, chunk, emit, now);
      var r := a.records[id].(resp := a.records[id].resp + chunk);
      FilesAfterWrite(cfg, s.files, s'.files, a.records, id, Response, r);
      PendingChange(cfg, s, a, id, s'.mem[id], r, s'.files, s'.events);
    }
  }

  /** Replacing the metadata of a record touches no file. */
  lemma FilesIgnoreMetadata(cfg: Config, files: Disk, records: map<string, Record>, id: string, r: Record)
    requires FilesMatch(cfg, files, records) && id in records
    requires r.req == records[id].req && r.resp == records[id].resp
    ensures FilesMatch(cfg, files, records[id := r])
  {
    var records' := records[id := r];
    assert records'.Keys == records.Keys;
    forall other, side | other in records'
      ensures FileOk(cfg, files, BlobName(other, side), records'[other].BytesOf(side))
    {
      assert FileOk(cfg, files, BlobName(other, side), records[other].BytesOf(side));
    }
  }

  lemma UpdateSimulates(cfg: Config, s: State, a: Archive, id: string, fn: Edit, now: int)
    requires Represents(cfg, s, a)
    ensures Represents(cfg, Update(s, id, fn, now), ArchiveStep(cfg, a, OpUpdate(id, fn, now)))
  {
    KnownIds(cfg, s, a, id);
    if id in s.mem {
      var s' := Update(s, id, fn, now);
      assert LiveOk(cfg, s.mem[id], id, a.records[id]);
      var r := a.records[id].(entry := fn(a.records[id].entry).(id := a.records[id].entry.id));
      FilesIgnoreMetadata(cfg, s.files, a.records, id, r);
      PendingChange(cfg, s, a, id, s'.mem[id], r, s.files, s'.events);
    }
  }

  /** A new id owns no file yet. */
  lemma FilesAfterPut(cfg: Config, files: Disk, records: map<string, Record>, id: string, r: Record)
    requires FilesMatch(cfg, files, records) && id !in records && id != "" && r.req == r.resp == []
    ensures FilesMatch(cfg, files, records[id := r])
  {
    var records' := records[id := r];
    forall other, side | other in records'
      ensures FileOk(cfg, files, BlobName(other, side), records'[other].BytesOf(side))
    {
      OwnerOfBlobName(other, side);
      if other != id {
        assert FileOk(cfg, files, BlobName(other, side), records[other].BytesOf(side));
      }
    }
  }

  lemma PutSimulates(cfg: Config, s: State, a: Archive, e: Entry, newId: string, now: int)
    requires Represents(cfg, s, a) && Enabled(s, OpPut(e, newId, now))
    ensures Represents(cfg, Put(s, e, newId, now), ArchiveStep(cfg, a, OpPut(e, newId, now)))
  {
    var id := AssignedId(e, newId);
    var s' := Put(s, e, newId, now);
    var r := Record(Registered(e, newId, now), [], [], false);
    FilesAfterPut(cfg, s.files, a.records, id, r);
    PendingChange(cfg, s, a, id, s'.mem[id], r, s.files, s'.events);
  }

  lemma HistoryStartsMatch(cfg: Config, s: State, a: Archive)
    requires Represents(cfg, s, a)
    ensures HistoryStarts(a.records, a.history) == Starts(s.table)
  {
    forall i | 0 <= i < |s.table|
      ensures HistoryStarts(a.records, a.history)[i] == s.table[i].startedAt
    {
      assert RowOk(cfg, s.table[i], a.records);
    }
  }

  lemma SnapshotIsPresent(cfg: Config, s: State, a: Archive, id: string, fn: Edit, now: int)
    requires Represents(cfg, s, a) && id in s.mem
    ensures Snapshot(Finished(s.mem[id], fn, now)) == Present(cfg, id, Archived(a, id, fn, now).records[id])
  {
    assert BufOk(cfg, s.mem[id].req, id, Request, a.records[id].req);
    assert BufOk(cfg, s.mem[id].resp, id, Response, a.records[id].resp);
  }

  lemma MoveSimulates(cfg: Config, s: State, a: Archive, id: string, fn: Edit, now: int)
    requires Inv(s) && Represents(cfg, s, a) && id in s.mem
    ensures Represents(cfg, MoveToTable(s, id, fn, now), Archived(a, id, fn, now))
  {
    var r := Archived(a, id, fn, now).records[id];
    assert LiveOk(cfg, s.mem[id], id, a.records[id]);
    var e := Present(cfg, id, r);
    SnapshotIsPresent(cfg, s, a, id, fn, now);
    HistoryStartsMatch(cfg, s, a);
    MoveShape(s, id, fn, now, e);
    RecordMoves(cfg, s, a, id, Encode(e), r, InsertPos(Starts(s.table), UnixMilli(e.startedAt)),
                s.events + [Updated(id, e)]);
  }

  lemma MoveShape(s: State, id: string, fn: Edit, now: int, e: Entry)
    requires Inv(s) && id in s.mem && e == Snapshot(Finished(s.mem[id], fn, now))
    ensures e.id == id
    ensures MoveToTable(s, id, fn, now) ==
            State(s.mem - {id}, InsertAt(s.table, InsertPos(Starts(s.table), UnixMilli(e.startedAt)), Encode(e)),
                  s.files, s.events + [Updated(id, e)])
  {
    InsertKeepsOrder(s.table, Encode(e));
  }

  /** An entry leaves memory for position k of the table. */
  lemma RecordMoves(cfg: Config, s: State, a: Archive, id: string, row: Row, r: Record, k: nat, events: seq<Event>)
    requires Represents(cfg, s, a) && id in s.mem && k <= |s.table|
    requires row.id == id && r.archived && row == Encode(Present(cfg, id, r))
    requires r.req == a.records[id].req && r.resp == a.records[id].resp
    ensures Represents(cfg, State(s.mem - {id}, InsertAt(s.table, k, row), s.files, events),
                       Archive(a.records[id := r], InsertAt(a.history, k, id)))
  {
    InsertColumns(s.table, k, row);
    FilesIgnoreMetadata(cfg, s.files, a.records, id, r);
    assert LiveOk(cfg, s.mem[id], id, a.records[id]);
    TableUnaffected(cfg, s.table, a.records, id, r);
    var table := InsertAt(s.table, k, row);
    forall i | 0 <= i < |table|
      ensures RowOk(cfg, table[i], a.records[id := r])
    {
      assert i == k || table[i] == s.table[if i < k then i else i - 1];
    }
    InsertElements(a.history, k, id);
    assert a.records[id := r].Keys == (s.mem - {id}).Keys + Elements(InsertAt(a.history, k, id));
  }

  lemma InsertElements<T>(s: seq<T>, k: nat, x: T)
    requires k <= |s|
    ensures Elements(InsertAt(s, k, x)) == Elements(s) + {x}
  {
    var r := InsertAt(s, k, x);
    assert s == s[..k] + s[k..];
  }

  lemma TrimSimulates(cfg: Config, s: State, a: Archive)
    requires Inv(s) && Represents(cfg, s, a)
    ensures Represents(cfg, Trim(cfg, s), Evict(cfg, a))
  {
    var s', a' := Trim(cfg, s), Evict(cfg, a);
    var k := Min(cfg.maxEntries, |s.table|);
    assert RowIds(s.table[..k]) == a.history[..k];
    assert Victims(cfg, s) == a.history[k..];
    KeysSplit(s, a, k);
    forall i | 0 <= i < k
      ensures RowOk(cfg, s'.table[i], a'.records)
    {
      assert RowOk(cfg, s.table[i], a.records);
      assert a.history[i] in a.history[..k];
    }
    FilesAfterEviction(cfg, s.files, a.records, a.history[k..]);
  }

  /** The kept ids and the evicted ones are disjoint, and neither is in memory. */
  lemma KeysSplit(s: State, a: Archive, k: nat)
    requires NoDup(a.history) && k <= |a.history|
    requires a.records.Keys == s.mem.Keys + Elements(a.history) && s.mem.Keys !! Elements(a.history)
    ensures Elements(a.history[..k]) !! Elements(a.history[k..])
    ensures a.records.Keys - Elements(a.history[k..]) == s.mem.Keys + Elements(a.history[..k])
  {
    var h := a.history;
    assert h == h[..k] + h[k..];
    assert Elements(h) == Elements(h[..k]) + Elements(h[k..]);
    assert forall i, j :: 0 <= i < k && 0 <= j < |h| - k ==> h[..k][i] != h[k..][j];
  }

  lemma BlobListed(ids: seq<string>, id: string, side: Side)
    ensures id in ids ==> BlobName(id, side) in BlobsOf(ids)
  {
    if id in ids {
      var i: nat :| i < |ids| && ids[i] == id;
    }
  }

  lemma FilesAfterEviction(cfg: Config, files: Disk, records: map<string, Record>, victims: seq<string>)
    requires FilesMatch(cfg, files, records)
    requires forall i :: 0 <= i < |victims| ==> victims[i] != ""
    ensures FilesMatch(cfg, files - BlobsOf(victims), records - Elements(victims))
  {
    var files', records' := files - BlobsOf(victims), records - Elements(victims);
    forall id, side | id in records'
      ensures FileOk(cfg, files', BlobName(id, side), records'[id].BytesOf(side))
    {
      assert FileOk(cfg, files, BlobName(id, side), records[id].BytesOf(side));
      if BlobName(id, side) in BlobsOf(victims) {
        var i: nat, other: Side :| i < |victims| && BlobName(victims[i], other) == BlobName(id, side);
        BlobNamesDiffer(id, side, victims[i], other);
        assert false;
      }
    }
    forall n | n in files'
      ensures Owned(n, records'.Keys)
    {
      assert Owned(n, records.Keys);
      var side := if n == BlobName(OwnerOf(n), Request) then Request else Response;
      BlobListed(victims, OwnerOf(n), side);
    }
  }

  lemma FinalizeSimulates(cfg: Config, s: State, a: Archive, id: string, fn: Edit, now: int)
    requires Inv(s) && Represents(cfg, s, a)
    ensures Represents(cfg, Finalize(cfg, s, id, fn, now), ArchiveFinalize(cfg, a, id, fn, now))
  {
    KnownIds(cfg, s, a, id);
    if id in s.mem {
      MoveSimulates(cfg, s, a, id, fn, now);
      MoveKeepsInv(s, id, fn, now);
      TrimSimulates(cfg, MoveToTable(s, id, fn, now), Archived(a, id, fn, now));
    }
  }

  lemma {:induction false} FinalizeAllSimulates(cfg: Config, s: State, a: Archive, ids: seq<string>, fn: Edit, now: int)
    requires Inv(s) && Represents(cfg, s, a)
    ensures Represents(cfg, FinalizeAll(cfg, s, ids, fn, now), ArchiveFinalizeAll(cfg, a, ids, fn, now))
    decreases |ids|
  {
    if ids != [] {
      FinalizeSimulates(cfg, s, a, ids[0], fn, now);
      FinalizeKeepsInv(cfg, s, ids[0], fn, now);
      FinalizeAllSimulates(cfg, Finalize(cfg, s, ids[0], fn, now), ArchiveFinalize(cfg, a, ids[0], fn, now),
                           ids[1..], fn, now);
    }
  }

  // --- Clear, and the bodies still being captured ---

  /** What a caller of Clear would have to check: no body still in flight has its own file. */
  ghost predicate NoPendingSpill(s: State) {
    forall id :: id in s.mem ==> s.mem[id].req.path == "" && s.mem[id].resp.path == ""
  }

  lemma ClearedIds(cfg: Config, s: State, a: Archive, order: seq<string>)
    requires Represents(cfg, s, a)
    ensures ArchiveStep(cfg, a, OpClear(order)).records.Keys == s.mem.Keys
  {
    forall id
      ensures id in ArchiveStep(cfg, a, OpClear(order)).records <==> id in s.mem
    {
      KnownIds(cfg, s, a, id);
    }
  }

  lemma PathsOfPending(cfg: Config, s: State, a: Archive, id: string)
    requires Represents(cfg, s, a) && id in s.mem
    ensures s.mem[id].req.path == "" <==> FileOk(cfg, map[], BlobName(id, Request), a.records[id].req)
    ensures s.mem[id].resp.path == "" <==> FileOk(cfg, map[], BlobName(id, Response), a.records[id].resp)
  {
    assert LiveOk(cfg, s.mem[id], id, a.records[id]);
    BodyViewMatches(cfg, id, Request, a.records[id].req);
    BodyViewMatches(cfg, id, Response, a.records[id].resp);
  }

  lemma PendingKept(cfg: Config, s: State, a: Archive, order: seq<string>, id: string)
    requires Represents(cfg, s, a) && id in s.mem
    ensures var records' := ArchiveStep(cfg, a, OpClear(order)).records;
            id in records' && records'[id] == a.records[id]
  {
    KnownIds(cfg, s, a, id);
  }

  lemma FilesGoneMeansInline(cfg: Config, s: State, a: Archive, order: seq<string>)
    requires Represents(cfg, s, a)
    requires FilesMatch(cfg, map[], ArchiveStep(cfg, a, OpClear(order)).records)
    ensures NoPendingSpill(s)
  {
    var records' := ArchiveStep(cfg, a, OpClear(order)).records;
    forall id | id in s.mem
      ensures s.mem[id].req.path == "" && s.mem[id].resp.path == ""
    {
      PendingKept(cfg, s, a, order, id);
      PathsOfPending(cfg, s, a, id);
      assert FileOk(cfg, map[], BlobName(id, Request), records'[id].BytesOf(Request));
      assert FileOk(cfg, map[], BlobName(id, Response), records'[id].BytesOf(Response));
    }
  }

  lemma InlineNeedsNoFiles(cfg: Config, s: State, a: Archive, order: seq<string>)
    requires Represents(cfg, s, a) && NoPendingSpill(s)
    ensures FilesMatch(cfg, map[], ArchiveStep(cfg, a, OpClear(order)).records)
  {
    var records' := ArchiveStep(cfg, a, OpClear(order)).records;
    ClearedIds(cfg, s, a, order);
    forall id, side | id in records'
      ensures FileOk(cfg, map[], BlobName(id, side), records'[id].BytesOf(side))
    {
      PathsOfPending(cfg, s, a, id);
    }
  }

  /** Apart from the files, Clear always acts as on the single map. */
  lemma ClearedMemory(cfg: Config, s: State, a: Archive, order: seq<string>)
    requires Represents(cfg, s, a)
    ensures MemMatch(cfg, s.mem, ArchiveStep(cfg, a, OpClear(order)).records)
  {
    forall id | id in s.mem
      ensures id in ArchiveStep(cfg, a, OpClear(order)).records
      ensures LiveOk(cfg, s.mem[id], id, ArchiveStep(cfg, a, OpClear(order)).records[id])
    {
      PendingKept(cfg, s, a, order, id);
      assert LiveOk(cfg, s.mem[id], id, a.records[id]);
    }
  }

  lemma OnlyFilesMatter(cfg: Config, s: State, a: Archive, order: seq<string>)
    requires Represents(cfg, s, a)
    ensures Represents(cfg, Clear(s, order), ArchiveStep(cfg, a, OpClear(order))) <==>
            FilesMatch(cfg, map[], ArchiveStep(cfg, a, OpClear(order)).records)
  {
    ClearedIds(cfg, s, a, order);
    ClearedMemory(cfg, s, a, order);
    assert RowIds(Clear(s, order).table) == [];
  }

  /** Clear empties the whole blob directory, so it is exact if and only if no pending body has spilled. */
  lemma ClearExact(cfg: Config, s: State, a: Archive, order: seq<string>)
    requires Represents(cfg, s, a)
    ensures Represents(cfg, Clear(s, order), ArchiveStep(cfg, a, OpClear(order))) <==> NoPendingSpill(s)
  {
    OnlyFilesMatter(cfg, s, a, order);
    if NoPendingSpill(s) {
      InlineNeedsNoFiles(cfg, s, a, order);
    } else if FilesMatch(cfg, map[], ArchiveStep(cfg, a, OpClear(order)).records) {
      FilesGoneMeansInline(cfg, s, a, order);
    }
  }

  /** After such a Clear the raw body of the pending entry can no longer be read. */
  lemma ClearLosesPendingBody(cfg: Config, s: State, a: Archive, order: seq<string>, id: string, side: Side)
    requires Represents(cfg, s, a) && id in s.mem
    ensures ReadBody(Clear(s, order), id, side) == Err(FileMissing) <==> |a.records[id].BytesOf(side)| > cfg.maxInline
    ensures ReadBody(s, id, side) == Ok((a.records[id].BytesOf(side), |a.records[id].BytesOf(side)|))
  {
    ObservationsAgree(cfg, s, a, id, side);
    assert BufOk(cfg, s.mem[id].req, id, Request, a.records[id].req);
    assert BufOk(cfg, s.mem[id].resp, id, Response, a.records[id].resp);
    BodyViewMatches(cfg, id, side, a.records[id].BytesOf(side));
  }

  // --- Restart ---

  function Survivors(a: Archive): Archive {
    Archive((map id | id in a.records && a.records[id].archived :: a.records[id]), a.history)
  }

  lemma SurvivorIds(cfg: Config, s: State, a: Archive)
    requires Represents(cfg, s, a)
    ensures Survivors(a).records.Keys == Elements(a.history)
  {
    forall id
      ensures id in Survivors(a).records <==> id in a.history
    {
      KnownIds(cfg, s, a, id);
      if id in a.history {
        var i :| 0 <= i < |s.table| && RowIds(s.table)[i] == id;
        assert RowOk(cfg, s.table[i], a.records);
      } else if id in a.records {
        assert LiveOk(cfg, s.mem[id], id, a.records[id]);
      }
    }
  }

  lemma FilesAfterReopen(cfg: Config, files: Disk, a: Archive)
    requires FilesMatch(cfg, files, a.records)
    requires Survivors(a).records.Keys == Elements(a.history)
    ensures FilesMatch(cfg, (map n | n in files && OwnerOf(n) in a.history :: files[n]), Survivors(a).records)
  {
    var files', records' := (map n | n in files && OwnerOf(n) in a.history :: files[n]), Survivors(a).records;
    forall id, side | id in records'
      ensures FileOk(cfg, files', BlobName(id, side), records'[id].BytesOf(side))
    {
      assert FileOk(cfg, files, BlobName(id, side), a.records[id].BytesOf(side));
      OwnerOfBlobName(id, side);
    }
    forall n | n in files'
      ensures Owned(n, records'.Keys)
    {
      assert Owned(n, a.records.Keys);
    }
  }

  /** Opening the store on what a stopped process left keeps every finished entry with its bodies, and nothing else. */
  lemma ReopenKeepsHistory(cfg: Config, s: State, a: Archive)
    requires Represents(cfg, s, a)
    ensures Represents(cfg, Reopen(s.table, s.files), Survivors(a))
  {
    SurvivorIds(cfg, s, a);
    FilesAfterReopen(cfg, s.files, a);
    forall i | 0 <= i < |s.table|
      ensures RowOk(cfg, s.table[i], Survivors(a).records)
    {
      assert RowOk(cfg, s.table[i], a.records);
    }
  }

  // --- Runs ---

  /** Every operation is enabled, and history is cleared only while no pending body has spilled. */
  ghost predicate GoodRun(cfg: Config, s: State, ops: seq<Op>)
    decreases |ops|
  {
    ops == [] ||
    (&& Enabled(s, ops[0])
     && (ops[0].OpClear? ==> NoPendingSpill(s))
     && GoodRun(cfg, Step(cfg, s, ops[0]), ops[1..]))
  }

  lemma StepSimulates(cfg: Config, s: State, a: Archive, op: Op)
    requires Inv(s) && Represents(cfg, s, a) && Enabled(s, op) && (op.OpClear? ==> NoPendingSpill(s))
    ensures Represents(cfg, Step(cfg, s, op), ArchiveStep(cfg, a, op))
  {
    match op
    case OpPut(e, newId, now) => PutSimulates(cfg, s, a, e, newId, now);
    case OpSetRequestBody(id, body) => SetRequestBodySimulates(cfg, s, a, id, body);
    case OpAppendResponse(id, chunk, emit, now) => AppendResponseSimulates(cfg, s, a, id, chunk, emit, now);
    case OpUpdate(id, fn, now) => UpdateSimulates(cfg, s, a, id, fn, now);
    case OpFinalize(id, fn, now) => FinalizeSimulates(cfg, s, a, id, fn, now);
    case OpClear(order) => ClearExact(cfg, s, a, order);
    case OpSweep(order, _, message, now) => FinalizeAllSimulates(cfg, s, a, order, TimeoutEdit(message), now);
  }

  lemma {:induction false} RunSimulates(cfg: Config, s: State, a: Archive, ops: seq<Op>)
    requires Inv(s) && Represents(cfg, s, a) && GoodRun(cfg, s, ops)
    ensures Represents(cfg, Run(cfg, s, ops), ArchiveRun(cfg, a, ops))
    decreases |ops|
  {
    if ops != [] {
      StepSimulates(cfg, s, a, ops[0]);
      StepKeepsInv(cfg, s, ops[0]);
      RunSimulates(cfg, Step(cfg, s, ops[0]), ArchiveStep(cfg, a, ops[0]), ops[1..]);
    }
  }

  lemma {:induction false} RunKeepsInv(cfg: Config, s: State, ops: seq<Op>)
    requires Inv(s) && GoodRun(cfg, s, ops)
    ensures Inv(Run(cfg, s, ops))
    decreases |ops|
  {
    if ops != [] {
      StepKeepsInv(cfg, s, ops[0]);
      RunKeepsInv(cfg, Step(cfg, s, ops[0]), ops[1..]);
    }
  }

  const EMPTY_STATE := State(map[], [], map[], [])
  const EMPTY_ARCHIVE := Archive(map[], [])

  /** Over every run from an empty store, Get and Body answer exactly as the single map. */
  lemma StoreRefinesArchive(cfg: Config, ops: seq<Op>, id: string, side: Side)
    requires GoodRun(cfg, EMPTY_STATE, ops)
    ensures var s := Run(cfg, EMPTY_STATE, ops);
            var a := ArchiveRun(cfg, EMPTY_ARCHIVE, ops);
            Get(s, id) == Lookup(cfg, a, id) && ReadBody(s, id, side) == Payload(a, id, side)
  {
    assert Represents(cfg, EMPTY_STATE, EMPTY_ARCHIVE);
    RunSimulates(cfg, EMPTY_STATE, EMPTY_ARCHIVE, ops);
    ObservationsAgree(cfg, Run(cfg, EMPTY_STATE, ops), ArchiveRun(cfg, EMPTY_ARCHIVE, ops), id, side);
  }

  lemma FilesAreSpilledSides(cfg: Config, s: State, a: Archive, id: string, side: Side)
    requires Represents(cfg, s, a)
    ensures BlobName(id, side) in s.files <== Get(s, id).Ok? && Get(s, id).value.BodyOf(side).spilled
    ensures id != "" ==>
              (BlobName(id, side) in s.files <==> Get(s, id).Ok? && Get(s, id).value.BodyOf(side).spilled)
  {
    GetAgrees(cfg, s, a, id);
    OwnerOfBlobName(id, side);
    if BlobName(id, side) in s.files {
      assert Owned(BlobName(id, side), a.records.Keys);
    }
    if id in a.records {
      LookupReads(cfg, a, s.files, id, side);
      assert FileOk(cfg, s.files, BlobName(id, side), a.records[id].BytesOf(side));
    }
  }

  /** The blob directory holds exactly the spilled sides of the ids in memory or in the table. */
  lemma FileOwnership(cfg: Config, ops: seq<Op>, name: string)
    requires GoodRun(cfg, EMPTY_STATE, ops)
    ensures var s := Run(cfg, EMPTY_STATE, ops);
            name in s.files <==>
            exists id, side :: name == BlobName(id, side) && Get(s, id).Ok? && Get(s, id).value.BodyOf(side).spilled
  {
    var s := Run(cfg, EMPTY_STATE, ops);
    var a := ArchiveRun(cfg, EMPTY_ARCHIVE, ops);
    RunSimulates(cfg, EMPTY_STATE, EMPTY_ARCHIVE, ops);
    if name in s.files {
      assert Owned(name, a.records.Keys);
      var side := if name == BlobName(OwnerOf(name), Request) then Request else Response;
      FilesAreSpilledSides(cfg, s, a, OwnerOf(name), side);
    }
    if id, side :| name == BlobName(id, side) && Get(s, id).Ok? && Get(s, id).value.BodyOf(side).spilled {
      FilesAreSpilledSides(cfg, s, a, id, side);
    }
  }
}
