/** The store as a value, with each method of the source as one atomic step. */
module StoreSpec {
  import opened Types
  import opened RowCodec
  import opened BodyBuffers
  import opened Memory
  import opened Database

  /** The limits a Store runs with. */
  datatype Config = Config(maxInline: nat, maxEntries: nat)

  /** Options as given by the caller; non-positive limits fall back to the defaults. */
  function Effective(maxInlineBodySize: int, maxEntries: int): (cfg: Config)
    ensures cfg.maxInline > 0 && cfg.maxEntries > 0
    ensures maxInlineBodySize > 0 ==> cfg.maxInline == maxInlineBodySize
    ensures maxEntries > 0 ==> cfg.maxEntries == maxEntries
  {
    Config(if maxInlineBodySize <= 0 then 1048576 else maxInlineBodySize,
           if maxEntries <= 0 then 1000 else maxEntries)
  }

  /** Memory, table rows in index order (newest first, ties in insertion order), blob files, events published so far. */
  datatype State = State(mem: map<string, Live>, table: seq<Row>, files: Disk, events: seq<Event>)

  // --- Files ---

  /** Both body files of every listed entry. */
  function BlobsOf(ids: seq<string>): set<string> {
    set i: nat, side: Side | i < |ids| :: BlobName(ids[i], side)
  }

  // --- Methods ---

  function AssignedId(e: Entry, newId: string): string {
    if e.id == "" then newId else e.id
  }

  function Registered(e: Entry, newId: string, now: int): Entry {
    e.(id := AssignedId(e, newId),
       startedAt := if e.startedAt == ZERO_TIME then now else e.startedAt,
       status := if e.status == Unset then Pending else e.status)
  }

  function Put(s: State, e: Entry, newId: string, now: int): State {
    var live := Live(Registered(e, newId, now), EMPTY_BUF, EMPTY_BUF, now);
    s.(mem := s.mem[live.entry.id := live],
       events := s.events + [Created(live.entry.id, Snapshot(live))])
  }

  function SetRequestBody(cfg: Config, s: State, id: string, body: Bytes): State {
    if id !in s.mem then s
    else
      var w := RequestWritten(s.mem[id], s.files, id, cfg.maxInline, body);
      s.(mem := s.mem[id := w.0], files := w.1)
  }

  function AppendResponse(cfg: Config, s: State, id: string, chunk: Bytes, emitDelta: bool, now: int): State {
    if id !in s.mem then s
    else
      var w := ResponseWritten(s.mem[id], s.files, id, cfg.maxInline, chunk, now);
      s.(mem := s.mem[id := w.0],
         files := w.1,
         events := if emitDelta && chunk != [] then s.events + [Delta(id, chunk)] else s.events)
  }

  function Update(s: State, id: string, fn: Edit, now: int): State {
    if id !in s.mem then s
    else
      var live := Edited(s.mem[id], fn, now);
      s.(mem := s.mem[id := live], events := s.events + [Updated(id, Snapshot(live))])
  }

  /** Finalize up to the retention pass: the row is written and the memory copy dropped. */
  function MoveToTable(s: State, id: string, fn: Edit, now: int): State
    requires id in s.mem
  {
    var e := Snapshot(Finished(s.mem[id], fn, now));
    s.(mem := s.mem - {id}, table := InsertRow(s.table, Encode(e)), events := s.events + [Updated(id, e)])
  }

  function Victims(cfg: Config, s: State): seq<string> {
    Overflow(s.table, cfg.maxEntries)
  }

  function DeletedEvents(ids: seq<string>): seq<Event> {
    seq(|ids|, i requires 0 <= i < |ids| => Deleted(ids[i]))
  }

  /** The retention pass: rows beyond the cap go, with their files. */
  function Trim(cfg: Config, s: State): State {
    var victims := Victims(cfg, s);
    s.(table := Kept(s.table, cfg.maxEntries),
       files := s.files - BlobsOf(victims),
       events := s.events + DeletedEvents(victims))
  }

  function Finalize(cfg: Config, s: State, id: string, fn: Edit, now: int): State {
    if id !in s.mem then s else Trim(cfg, MoveToTable(s, id, fn, now))
  }

  function Get(s: State, id: string): Result<Entry> {
    if id in s.mem then Ok(Snapshot(s.mem[id]))
    else match FindRow(s.table, id)
      case Some(r) => Ok(Decode(r))
      case None => Err(NotFound)
  }

  /** The payload and its announced size. */
  function ReadBody(s: State, id: string, side: Side): Result<(Bytes, int)> {
    match Get(s, id)
    case Err(error) => Err(error)
    case Ok(e) =>
      var b := e.BodyOf(side);
      if b.path != "" then
        if b.path in s.files then Ok((s.files[b.path], b.size)) else Err(FileMissing)
      else Ok((b.bytes, b.size))
  }

  /** `order` is the order in which the purged ids happened to be iterated. */
  function Clear(s: State, order: seq<string>): State {
    s.(table := [], files := map[], events := s.events + DeletedEvents(order))
  }

  function StaleIds(s: State, timeout: int, now: int): set<string> {
    set id | id in s.mem && s.mem[id].lastSeen < now - timeout
  }

  /** The edit a sweep applies: status error, with a message unless one is there. */
  function TimeoutEdit(message: string): Edit {
    (e: Entry) => e.(status := Error, error := if e.error == "" then message else e.error)
  }

  function FinalizeAll(cfg: Config, s: State, ids: seq<string>, fn: Edit, now: int): State
    decreases |ids|
  {
    if ids == [] then s
    else FinalizeAll(cfg, Finalize(cfg, s, ids[0], fn, now), ids[1..], fn, now)
  }

  /** `order` is the order in which the stale ids happened to be iterated. */
  function Sweep(cfg: Config, s: State, order: seq<string>, message: string, now: int): State {
    FinalizeAll(cfg, s, order, TimeoutEdit(message), now)
  }

  /** Start-up on what an earlier process left behind: files whose owner has no row are dropped. */
  function Reopen(table: seq<Row>, files: Disk): State {
    State(map[], table, (map n | n in files && OwnerOf(n) in RowIds(table) :: files[n]), [])
  }

  // --- Runs ---

  datatype Op =
    | OpPut(e: Entry, newId: string, now: int)
    | OpSetRequestBody(id: string, body: Bytes)
    | OpAppendResponse(id: string, chunk: Bytes, emitDelta: bool, now: int)
    | OpUpdate(id: string, fn: Edit, now: int)
    | OpFinalize(id: string, fn: Edit, now: int)
    | OpClear(order: seq<string>)
    | OpSweep(order: seq<string>, timeout: int, message: string, now: int)

  function Step(cfg: Config, s: State, op: Op): State {
    match op
    case OpPut(e, newId, now) => Put(s, e, newId, now)
    case OpSetRequestBody(id, body) => SetRequestBody(cfg, s, id, body)
    case OpAppendResponse(id, chunk, emit, now) => AppendResponse(cfg, s, id, chunk, emit, now)
    case OpUpdate(id, fn, now) => Update(s, id, fn, now)
    case OpFinalize(id, fn, now) => Finalize(cfg, s, id, fn, now)
    case OpClear(order) => Clear(s, order)
    case OpSweep(order, _, message, now) => Sweep(cfg, s, order, message, now)
  }

  /** Ids registered by Put are new, and iteration orders list what they iterate over. */
  predicate Enabled(s: State, op: Op) {
    match op
    case OpPut(e, newId, _) =>
      var id := AssignedId(e, newId);
      id != "" && id !in s.mem && id !in RowIds(s.table)
    case OpClear(order) => Enumerates(order, Elements(RowIds(s.table)))
    case OpSweep(order, timeout, _, now) => Enumerates(order, StaleIds(s, timeout, now))
    case _ => true
  }

  function Run(cfg: Config, s: State, ops: seq<Op>): State
    decreases |ops|
  {
    if ops == [] then s else Run(cfg, Step(cfg, s, ops[0]), ops[1..])
  }

  lemma {:induction false} RunAppend(cfg: Config, s: State, a: seq<Op>, b: seq<Op>)
    ensures Run(cfg, s, a + b) == Run(cfg, Run(cfg, s, a), b)
    decreases |a|
  {
    if a == [] {
      assert a + b == b;
    } else {
      assert (a + b)[0] == a[0] && (a + b)[1..] == a[1..] + b;
      RunAppend(cfg, Step(cfg, s, a[0]), a[1..], b);
    }
  }

  lemma RunOne(cfg: Config, s: State, op: Op)
    ensures Run(cfg, s, [op]) == Step(cfg, s, op)
  {
    assert Run(cfg, s, [op]) == Run(cfg, Step(cfg, s, op), []);
  }

  // --- Registering and finishing ---

  /** After Put the entry is there under its id, with empty bodies; only an absent id, start or status is filled in. */
  lemma PutRegisters(s: State, e: Entry, newId: string, now: int)
    requires Enabled(s, OpPut(e, newId, now))
    ensures var id, s' := AssignedId(e, newId), Put(s, e, newId, now);
            && id != "" && (e.id != "" ==> id == e.id)
            && Get(s', id).Ok?
            && var r := Get(s', id).value;
            && r.id == id && r.request == NO_BODY && r.response == NO_BODY
            && r.status == (if e.status == Unset then Pending else e.status)
            && (e.startedAt != ZERO_TIME ==> r.startedAt == e.startedAt)
            && (e.startedAt == ZERO_TIME ==> r.startedAt == now)
            && r.(id := e.id, status := e.status, startedAt := e.startedAt, request := e.request, response := e.response) == e
            && forall other :: other != id ==> Get(s', other) == Get(s, other)
  {
  }

  /** After an Update, Get gives what the caller's edit made of the entry, the id held fixed; the bodies, the other
      entries and the table are as before, and the edited entry is what the event carries. */
  lemma UpdateEdits(s: State, id: string, fn: Edit, now: int)
    requires id in s.mem
    ensures var s', d := Update(s, id, fn, now), fn(s.mem[id].entry);
            && Get(s', id).Ok?
            && var r := Get(s', id).value;
            && r.id == s.mem[id].entry.id
            && r.(id := d.id, request := d.request, response := d.response) == d
            && r.request == Get(s, id).value.request && r.response == Get(s, id).value.response
            && s'.events == s.events + [Updated(id, r)]
            && forall other :: other != id ==> Get(s', other) == Get(s, other)
  {
  }

  /** After a Finalize, an entry still known is what the caller's edit made of it: with a status, an end and a total
      where it left them open, and in the precision of the table. */
  lemma FinalizeEdits(cfg: Config, s: State, id: string, fn: Edit, now: int)
    requires Inv(s) && id in s.mem && Get(Finalize(cfg, s, id, fn, now), id).Ok?
    ensures var r, d := Get(Finalize(cfg, s, id, fn, now), id).value, fn(s.mem[id].entry);
            && r.id == id && r.statusCode == d.statusCode && r.error == d.error && r.responseFormat == d.responseFormat
            && r.about == d.about.(requestHeaders := NormalHeaders(d.about.requestHeaders))
            && r.responseHeaders == NormalHeaders(d.responseHeaders)
            && r.status == (if d.status == Pending then Done else d.status)
            && r.startedAt == FloorToMilli(d.startedAt)
            && r.finishedAt == Some(FloorToMilli(if d.finishedAt.Some? then d.finishedAt.value else now))
            && r.times.(totalMs := d.times.totalMs) == d.times
            && (d.times.totalMs.Some? ==> r.times == d.times)
  {
    FinalizedIsRead(cfg, s, id, fn, now);
    ReadBack(Snapshot(Finished(s.mem[id], fn, now)));
  }

  lemma FinalizedIsRead(cfg: Config, s: State, id: string, fn: Edit, now: int)
    requires Inv(s) && id in s.mem && Get(Finalize(cfg, s, id, fn, now), id).Ok?
    ensures Get(Finalize(cfg, s, id, fn, now), id).value == Decode(Encode(Snapshot(Finished(s.mem[id], fn, now))))
  {
    var k, r := MovedTable(s, id, fn, now);
    var u := InsertAt(s.table, k, r);
    FinalizedTable(cfg, s, id, fn, now);
    FindKept(u, Min(cfg.maxEntries, |u|), id);
    assert Kept(u, cfg.maxEntries) == u[..Min(cfg.maxEntries, |u|)];
  }

  lemma FinalizedTable(cfg: Config, s: State, id: string, fn: Edit, now: int)
    requires id in s.mem
    ensures var s' := Finalize(cfg, s, id, fn, now);
            s'.mem == s.mem - {id} && s'.table == Kept(MoveToTable(s, id, fn, now).table, cfg.maxEntries)
  {
  }

  /** Apart from its bodies, what the table makes of an entry. */
  lemma ReadBack(e: Entry)
    ensures var r := Decode(Encode(e));
            && r.id == e.id && r.status == e.status && r.statusCode == e.statusCode && r.error == e.error
            && r.responseFormat == e.responseFormat && r.times == e.times
            && r.about == e.about.(requestHeaders := NormalHeaders(e.about.requestHeaders))
            && r.responseHeaders == NormalHeaders(e.responseHeaders)
            && r.startedAt == FloorToMilli(e.startedAt)
            && r.finishedAt == (if e.finishedAt.Some? then Some(FloorToMilli(e.finishedAt.value)) else None)
  {
    MilliRoundTrip(e.startedAt);
    if e.finishedAt.Some? {
      MilliRoundTrip(e.finishedAt.value);
    }
  }

  /** An operation on one entry in flight. */
  predicate OnEntry(op: Op, id: string) {
    match op
    case OpSetRequestBody(x, _) => x == id
    case OpAppendResponse(x, _, _, _) => x == id
    case OpUpdate(x, _, _) => x == id
    case OpFinalize(x, _, _) => x == id
    case _ => false
  }

  /** The first Finalize wins: whatever is then tried on the entry changes nothing. */
  lemma FirstFinalizeWins(cfg: Config, s: State, id: string, fn: Edit, now: int, op: Op)
    requires OnEntry(op, id)
    ensures Step(cfg, Finalize(cfg, s, id, fn, now), op) == Finalize(cfg, s, id, fn, now)
  {
    assert id !in Finalize(cfg, s, id, fn, now).mem;
  }

  // --- What every step keeps ---

  /** Memory and table never share an id, the table is keyed by id and newest first. */
  ghost predicate Inv(s: State) {
    && (forall id :: id in s.mem ==> id != "" && s.mem[id].entry.id == id)
    && (forall i :: 0 <= i < |s.table| ==> s.table[i].id != "" && s.table[i].id !in s.mem)
    && NoDup(RowIds(s.table))
    && Descending(Starts(s.table))
  }

  /** Where the row of a finished entry goes. */
  lemma MovedTable(s: State, id: string, fn: Edit, now: int) returns (k: nat, r: Row)
    requires Inv(s) && id in s.mem
    ensures r == Encode(Snapshot(Finished(s.mem[id], fn, now))) && r.id == id
    ensures k == InsertPos(Starts(s.table), r.startedAt) && k <= |s.table|
    ensures MoveToTable(s, id, fn, now).table == InsertAt(s.table, k, r) && NoDup(RowIds(InsertAt(s.table, k, r)))
    ensures id !in RowIds(s.table) && Elements(RowIds(InsertAt(s.table, k, r))) == Elements(RowIds(s.table)) + {id}
    ensures FindRow(InsertAt(s.table, k, r), id) == Some(r)
  {
    r := Encode(Snapshot(Finished(s.mem[id], fn, now)));
    assert forall i :: 0 <= i < |s.table| ==> RowIds(s.table)[i] != id;
    InsertKeepsOrder(s.table, r);
    k := InsertPos(Starts(s.table), r.startedAt);
    assert InsertAt(s.table, k, r)[k] == r;
    FindUnique(InsertAt(s.table, k, r), k);
  }

  lemma MoveKeepsInv(s: State, id: string, fn: Edit, now: int)
    requires Inv(s) && id in s.mem
    ensures Inv(MoveToTable(s, id, fn, now))
    ensures Elements(RowIds(MoveToTable(s, id, fn, now).table)) == Elements(RowIds(s.table)) + {id}
  {
    var r := Encode(Snapshot(Finished(s.mem[id], fn, now)));
    InsertKeepsOrder(s.table, r);
    var u := MoveToTable(s, id, fn, now).table;
    forall i | 0 <= i < |u|
      ensures u[i].id != "" && u[i].id !in s.mem - {id}
    {
      assert RowIds(u)[i] in Elements(RowIds(u));
    }
  }

  lemma {:induction false} SweepEmptiesMemory(cfg: Config, s: State, ids: seq<string>, fn: Edit, now: int)
    ensures FinalizeAll(cfg, s, ids, fn, now).mem == s.mem - Elements(ids)
    decreases |ids|
  {
    if ids == [] {
      assert s.mem - Elements(ids) == s.mem;
    } else {
      SweepEmptiesMemory(cfg, Finalize(cfg, s, ids[0], fn, now), ids[1..], fn, now);
      assert ids == [ids[0]] + ids[1..];
      assert Elements(ids) == {ids[0]} + Elements(ids[1..]);
      assert s.mem - {ids[0]} - Elements(ids[1..]) == s.mem - Elements(ids);
    }
  }

  lemma TrimKeepsInv(cfg: Config, s: State)
    requires Inv(s)
    ensures Inv(Trim(cfg, s)) && |Trim(cfg, s).table| <= cfg.maxEntries
  {
    var k := Min(cfg.maxEntries, |s.table|);
    var t := s.table[..k];
    assert forall i :: 0 <= i < k ==> RowIds(t)[i] == RowIds(s.table)[i] && Starts(t)[i] == Starts(s.table)[i];
  }

  lemma FinalizeKeepsInv(cfg: Config, s: State, id: string, fn: Edit, now: int)
    requires Inv(s)
    ensures Inv(Finalize(cfg, s, id, fn, now))
    ensures id in s.mem ==> |Finalize(cfg, s, id, fn, now).table| <= cfg.maxEntries
  {
    if id in s.mem {
      MoveKeepsInv(s, id, fn, now);
      TrimKeepsInv(cfg, MoveToTable(s, id, fn, now));
    }
  }

  lemma {:induction false} FinalizeAllKeepsInv(cfg: Config, s: State, ids: seq<string>, fn: Edit, now: int)
    requires Inv(s)
    ensures Inv(FinalizeAll(cfg, s, ids, fn, now))
    decreases |ids|
  {
    if ids != [] {
      FinalizeKeepsInv(cfg, s, ids[0], fn, now);
      FinalizeAllKeepsInv(cfg, Finalize(cfg, s, ids[0], fn, now), ids[1..], fn, now);
    }
  }

  lemma StepKeepsInv(cfg: Config, s: State, op: Op)
    requires Inv(s) && Enabled(s, op)
    ensures Inv(Step(cfg, s, op))
  {
    match op
    case OpPut(e, newId, now) =>
      assert forall i :: 0 <= i < |s.table| ==> RowIds(s.table)[i] != AssignedId(e, newId);
    case OpFinalize(id, fn, now) => FinalizeKeepsInv(cfg, s, id, fn, now);
    case OpSweep(order, _, message, now) => FinalizeAllKeepsInv(cfg, s, order, TimeoutEdit(message), now);
    case _ =>
  }

  /** No purged row is newer than a kept one, and the cap holds after every retention pass. */
  lemma TrimDropsOldest(cfg: Config, s: State, kept: Row, purged: Row)
    requires Inv(s)
    requires kept in Trim(cfg, s).table
    requires purged in s.table && purged !in Trim(cfg, s).table
    ensures purged.startedAt <= kept.startedAt
    ensures purged.id in Victims(cfg, s) && kept.id !in Victims(cfg, s)
    ensures |Trim(cfg, s).table| == cfg.maxEntries
  {
    var k := Min(cfg.maxEntries, |s.table|);
    var i :| 0 <= i < k && s.table[i] == kept;
    var j :| 0 <= j < |s.table| && s.table[j] == purged;
    assert forall m :: 0 <= m < k ==> s.table[m] in s.table[..k];
    assert Starts(s.table)[i] >= Starts(s.table)[j];
    VictimsAreBeyond(cfg, s, i);
    VictimsAreBeyond(cfg, s, j);
  }

  /** Exactly the rows beyond the cap are victims. */
  lemma VictimsAreBeyond(cfg: Config, s: State, i: nat)
    requires NoDup(RowIds(s.table)) && i < |s.table|
    ensures s.table[i].id in Victims(cfg, s) <==> i >= Min(cfg.maxEntries, |s.table|)
  {
    var k := Min(cfg.maxEntries, |s.table|);
    var ids := RowIds(s.table);
    assert forall m :: 0 <= m < |s.table| - k ==> Victims(cfg, s)[m] == ids[k + m];
    if i >= k {
      assert Victims(cfg, s)[i - k] == ids[i];
    }
  }
}
