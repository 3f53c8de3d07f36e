/** The store as the source writes it: live entries, a table, a blob directory and a broker. */
module Stores {
  import opened Types
  import opened RowCodec
  import opened BodyBuffers
  import opened Memory
  import opened Database
  import opened Brokers
  import opened StoreSpec
  import Listing

  lemma BlobsOfNext(ids: seq<string>, i: nat)
    requires i < |ids|
    ensures BlobsOf(ids[..i + 1]) == BlobsOf(ids[..i]) + {BlobName(ids[i], Request), BlobName(ids[i], Response)}
  {
    forall n | n in BlobsOf(ids[..i + 1])
      ensures n in BlobsOf(ids[..i]) + {BlobName(ids[i], Request), BlobName(ids[i], Response)}
    {
      var j: nat, side: Side :| j < i + 1 && n == BlobName(ids[..i + 1][j], side);
      if j < i {
        assert n == BlobName(ids[..i][j], side);
      }
    }
    forall n | n in BlobsOf(ids[..i])
      ensures n in BlobsOf(ids[..i + 1])
    {
      var j: nat, side: Side :| j < i && n == BlobName(ids[..i][j], side);
      assert n == BlobName(ids[..i + 1][j], side);
    }
    assert ids[..i + 1][i] == ids[i];
  }

  lemma RemoveUpdated<K, V>(m: map<K, V>, k: K, v: V)
    ensures m[k := v] - {k} == m - {k}
  {
  }

  class Store {
    const cfg: Config
    const dir: BlobDir
    const broker: Broker
    const mem: MemStore
    const db: SqlDB

    ghost function Footprint(): set<object>
      reads this, mem, broker
    {
      {this, dir, broker, mem, db} + mem.Lives + mem.Buffers + broker.handedOut
    }

    twostate predicate SameObjects()
      reads mem, broker
    {
      mem.Lives == old(mem.Lives) && mem.Buffers == old(mem.Buffers) && broker.handedOut == old(broker.handedOut)
    }

    ghost function State(): StoreSpec.State
      reads this, mem, db, dir, broker
    {
      StoreSpec.State(mem.View, db.rows, dir.files, broker.log)
    }

    ghost predicate Valid()
      reads this, db, mem, mem.Lives, mem.Buffers, broker, broker.handedOut
    {
      && mem.Valid() && mem.dir == dir && mem.maxInline == cfg.maxInline
      && broker.Valid()
      && db.Valid()
    }

    /** Opens the store on the rows and files found on disk, dropping files whose owner has no row. */
    constructor (maxInlineBodySize: int, maxEntries: int, table: seq<Row>, files: Disk)
      requires NoDup(RowIds(table))
      ensures Valid() && fresh(Footprint())
      ensures cfg == Effective(maxInlineBodySize, maxEntries)
      ensures maxInlineBodySize > 0 ==> cfg.maxInline == maxInlineBodySize
      ensures maxEntries > 0 ==> cfg.maxEntries == maxEntries
      ensures State() == Reopen(table, files)
    {
      var limits := Effective(maxInlineBodySize, maxEntries);
      var blobs := new BlobDir(files);
      var events := new Broker();
      var live := new MemStore(blobs, limits.maxInline);
      var rows := new SqlDB(table);
      cfg, dir, broker, mem, db := limits, blobs, events, live, rows;
      new;
      blobs.RemoveOrphans(RowIds(table));
    }

    method Publish(ev: Event)
      requires Valid()
      modifies broker, broker.handedOut
      ensures Valid() && SameObjects()
      ensures broker.log == old(broker.log) + [ev]
    {
      broker.Publish(ev);
    }

    method Register(e: Entry, now: int) returns (snapshot: Entry)
      requires mem.Valid()
      modifies mem
      ensures mem.Valid() && fresh(mem.Lives - old(mem.Lives)) && fresh(mem.Buffers - old(mem.Buffers))
      ensures mem.View == old(mem.View)[e.id := Live(e, EMPTY_BUF, EMPTY_BUF, now)]
      ensures snapshot == Snapshot(Live(e, EMPTY_BUF, EMPTY_BUF, now))
    {
      var live := mem.Put(e, now);
      snapshot := live.TakeSnapshot();
    }

    method Put(e: Entry, newId: string, now: int) returns (id: string)
      requires Valid()
      modifies Footprint()
      ensures Valid() && broker.handedOut == old(broker.handedOut)
      ensures fresh(mem.Lives - old(mem.Lives)) && fresh(mem.Buffers - old(mem.Buffers))
      ensures id == AssignedId(e, newId)
      ensures State() == StoreSpec.Put(old(State()), e, newId, now)
    {
      var entry := e;
      if entry.id == "" {
        entry := entry.(id := newId);
      }
      if entry.startedAt == ZERO_TIME {
        entry := entry.(startedAt := now);
      }
      if entry.status == Unset {
        entry := entry.(status := Pending);
      }
      id := entry.id;
      assert entry == Registered(e, newId, now);
      var snapshot := Register(entry, now);
      Publish(Created(id, snapshot));
    }

    /** The write itself, seen from the live entries and the files. */
    method WriteRequest(id: string, body: Bytes)
      requires mem.Valid() && mem.dir == dir && mem.maxInline == cfg.maxInline && id in mem.entries
      modifies mem`View, mem.entries[id].req, dir
      ensures mem.Valid() && mem.Lives == old(mem.Lives) && mem.Buffers == old(mem.Buffers)
      ensures State() == StoreSpec.SetRequestBody(cfg, old(State()), id, body)
    {
      mem.WriteRequest(id, body);
    }

    method SetRequestBody(id: string, body: Bytes) returns (ok: bool)
      requires Valid()
      modifies mem`View, mem.Buffers, dir
      ensures Valid() && SameObjects()
      ensures ok == (id in old(mem.View))
      ensures State() == StoreSpec.SetRequestBody(cfg, old(State()), id, body)
    {
      ok := id in mem.entries;
      if ok {
        WriteRequest(id, body);
      }
    }

    method AppendResponse(id: string, chunk: Bytes, emitDelta: bool, now: int) returns (ok: bool)
      requires Valid()
      modifies Footprint()
      ensures Valid() && SameObjects()
      ensures ok == (id in old(mem.View))
      ensures State() == StoreSpec.AppendResponse(cfg, old(State()), id, chunk, emitDelta, now)
    {
      if id !in mem.entries {
        return false;
      }
      mem.WriteResponse(id, chunk, now);
      if emitDelta && |chunk| > 0 {
        Publish(Delta(id, chunk));
      }
      ok := true;
    }

    method Update(id: string, fn: Edit, now: int) returns (ok: bool)
      requires Valid()
      modifies Footprint()
      ensures Valid() && SameObjects()
      ensures ok == (id in old(mem.View))
      ensures State() == StoreSpec.Update(old(State()), id, fn, now)
    {
      if id !in mem.entries {
        return false;
      }
      var e := mem.Update(id, fn, now);
      Publish(Updated(id, e));
      ok := true;
    }

    /** Removes the body files of a purged entry and tells the subscribers. */
    method Purge(id: string)
      requires Valid()
      modifies dir, broker, broker.handedOut
      ensures Valid() && SameObjects()
      ensures dir.files == old(dir.files) - {BlobName(id, Request), BlobName(id, Response)}
      ensures broker.log == old(broker.log) + [Deleted(id)]
    {
      dir.RemoveFor(id);
      Publish(Deleted(id));
    }

    method PurgeAll(purged: seq<string>)
      requires Valid()
      modifies dir, broker, broker.handedOut
      ensures Valid() && SameObjects()
      ensures dir.files == old(dir.files) - BlobsOf(purged)
      ensures broker.log == old(broker.log) + DeletedEvents(purged)
    {
      for i := 0 to |purged|
        invariant Valid() && SameObjects()
        invariant dir.files == old(dir.files) - BlobsOf(purged[..i])
        invariant broker.log == old(broker.log) + DeletedEvents(purged[..i])
      {
        Purge(purged[i]);
        BlobsOfNext(purged, i);
        assert DeletedEvents(purged[..i + 1]) == DeletedEvents(purged[..i]) + [Deleted(purged[i])];
      }
      assert purged[..|purged|] == purged;
    }

    /** The retention pass with the files and the notifications of the purged entries. */
    method Retain()
      requires Valid()
      modifies db, dir, broker, broker.handedOut
      ensures Valid() && SameObjects()
      ensures State() == Trim(cfg, old(State()))
    {
      var purged := db.ApplyRetention(cfg.maxEntries);
      PurgeAll(purged);
    }

    /** The row is written before the memory copy is dropped. */
    method Record(id: string, e: Entry)
      requires mem.Valid() && db.Valid()
      modifies db, mem`entries, mem`View
      ensures mem.Valid() && db.Valid()
      ensures mem.View == old(mem.View) - {id} && db.rows == InsertRow(old(db.rows), Encode(e))
    {
      db.Insert(e);
      mem.Delete(id);
    }

    /** Closes the entry, writes its row, and only then drops the memory copy. */
    method Flush(id: string, fn: Edit, now: int) returns (e: Entry)
      requires mem.Valid() && db.Valid() && id in mem.View
      modifies db, mem`entries, mem`View, mem.Lives, mem.Buffers
      ensures mem.Valid() && db.Valid()
      ensures e == Snapshot(Finished(old(mem.View)[id], fn, now))
      ensures mem.View == old(mem.View) - {id} && db.rows == InsertRow(old(db.rows), Encode(e))
    {
      ghost var view := mem.View;
      e := mem.Finish(id, fn, now);
      RemoveUpdated(view, id, mem.View[id]);
      Record(id, e);
    }

    /** Finalize up to the retention pass. */
    method Move(id: string, fn: Edit, now: int)
      requires Valid() && id in mem.View
      modifies Footprint()
      ensures Valid() && SameObjects()
      ensures State() == MoveToTable(old(State()), id, fn, now)
    {
      var e := Flush(id, fn, now);
      Publish(Updated(id, e));
    }

    method Finalize(id: string, fn: Edit, now: int) returns (ok: bool)
      requires Valid()
      modifies Footprint()
      ensures Valid() && SameObjects()
      ensures ok == (id in old(mem.View))
      ensures State() == StoreSpec.Finalize(cfg, old(State()), id, fn, now)
    {
      if id !in mem.entries {
        return false;
      }
      Move(id, fn, now);
      Retain();
      ok := true;
    }

    /** Drops the rows and every file of the blob directory; `order` is the order the ids were iterated in. */
    method Clear() returns (ghost order: seq<string>)
      requires Valid()
      modifies Footprint()
      ensures Valid() && SameObjects()
      ensures Enumerates(order, Elements(RowIds(old(db.rows))))
      ensures State() == StoreSpec.Clear(old(State()), order)
    {
      var ids := db.Clear();
      order := ids;
      dir.RemoveAll();
      for i := 0 to |ids|
        invariant Valid() && SameObjects()
        invariant broker.log == old(broker.log) + DeletedEvents(ids[..i])
        modifies broker, broker.handedOut
      {
        Publish(Deleted(ids[i]));
        assert DeletedEvents(ids[..i + 1]) == DeletedEvents(ids[..i]) + [Deleted(ids[i])];
      }
      assert ids[..|ids|] == ids;
    }

    method SweepPending(timeout: int, message: string, now: int) returns (n: nat, ghost order: seq<string>)
      requires Valid()
      modifies Footprint()
      ensures Valid() && SameObjects()
      ensures Enumerates(order, StaleIds(old(State()), timeout, now)) && n == |order|
      ensures State() == Sweep(cfg, old(State()), order, message, now)
    {
      var stale := mem.StaleIds(timeout, now);
      order := stale;
      ghost var target := Sweep(cfg, State(), stale, message, now);
      for i := 0 to |stale|
        invariant Valid() && SameObjects()
        invariant FinalizeAll(cfg, State(), stale[i..], TimeoutEdit(message), now) == target
      {
        var _ := Finalize(stale[i], TimeoutEdit(message), now);
        assert stale[i..][1..] == stale[i + 1..];
      }
      n := |stale|;
    }

    method Get(id: string) returns (r: Result<Entry>)
      requires Valid()
      ensures r == StoreSpec.Get(State(), id)
    {
      if id in mem.entries {
        var e := mem.entries[id].TakeSnapshot();
        return Ok(e);
      }
      var stored := db.Get(id);
      match stored
      case Some(e) => return Ok(e);
      case None => return Err(NotFound);
    }

    /** Rows first, then memory; sorted newest first and cut to the limit. */
    method List(limit: int, before: int) returns (merged: seq<Entry>, ghost order: seq<string>)
      requires Valid()
      ensures Enumerates(order, State().mem.Keys)
      ensures merged == Listing.List(Listing.PendingOf(State(), order), State().table, limit, before)
    {
      var n := limit;
      if n <= 0 {
        n := 100;
      }
      var rows := db.List(n, before);
      var pending;
      pending, order := mem.List(before);
      merged := Listing.SortNewest(pending + rows);
      if |merged| > n {
        merged := merged[..n];
      }
    }

    method Body(id: string, side: Side) returns (r: Result<(Bytes, int)>)
      requires Valid()
      ensures r == ReadBody(State(), id, side)
    {
      var found := Get(id);
      match found
      case Err(error) => return Err(error);
      case Ok(e) =>
        var b := e.response;
        if side == Request {
          b := e.request;
        }
        if b.path != "" {
          if b.path !in dir.files {
            return Err(FileMissing);
          }
          return Ok((dir.files[b.path], b.size));
        }
        return Ok((b.bytes, b.size));
    }
  }
}
