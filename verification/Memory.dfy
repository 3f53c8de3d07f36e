/** The pending tier: a map from id to entry, each with one buffer per side. */
module Memory {
  import opened Types
  import opened BodyBuffers

  /** What callers pass to Update and Finalize. */
  type Edit = Entry -> Entry

  /** No caller's edit touches the id, so it is held fixed. */
  function Apply(fn: Edit, e: Entry): Entry { fn(e).(id := e.id) }

  datatype Live = Live(entry: Entry, req: Buf, resp: Buf, lastSeen: int)

  function Snapshot(l: Live): Entry {
    l.entry.(request := StateOf(l.req), response := StateOf(l.resp))
  }

  function Edited(l: Live, fn: Edit, now: int): Live {
    l.(entry := Apply(fn, l.entry), lastSeen := now)
  }

  function TotalMs(e: Entry): int
    requires e.finishedAt.Some?
  {
    DurationMs(SubTime(e.finishedAt.value, e.startedAt))
  }

  /** The fields Finalize settles under the entry lock. */
  function Settled(e: Entry, fn: Edit, now: int): Entry {
    var e1 := Apply(fn, e);
    var e2 := if e1.status == Pending then e1.(status := Done) else e1;
    var e3 := if e2.finishedAt.None? then e2.(finishedAt := Some(now)) else e2;
    if e3.times.totalMs.None? then e3.(times := e3.times.(totalMs := Some(TotalMs(e3)))) else e3
  }

  /** A finished entry is not pending, has an end and a total, and keeps whatever the caller's edit decided; a total it
      did not decide is the time from start to end. */
  lemma SettledIsComplete(e: Entry, fn: Edit, now: int)
    ensures var r, d := Settled(e, fn, now), fn(e);
            && r.status != Pending && r.finishedAt.Some? && r.times.totalMs.Some?
            && r.status == (if d.status == Pending then Done else d.status)
            && r.finishedAt == (if d.finishedAt.Some? then d.finishedAt else Some(now))
            && (d.times.totalMs.Some? ==> r.times == d.times)
            && (d.times.totalMs.None? && 0 <= r.finishedAt.value - r.startedAt <= MAX_DURATION ==>
                  r.times.totalMs.value * NS_PER_MS <= r.finishedAt.value - r.startedAt < (r.times.totalMs.value + 1) * NS_PER_MS)
            && r.(id := d.id, status := d.status, finishedAt := d.finishedAt, times := d.times) == d
            && r.id == e.id
  {
  }

  function Finished(l: Live, fn: Edit, now: int): Live {
    Live(Settled(l.entry, fn, now), BufClose(l.req), BufClose(l.resp), now)
  }

  function RequestWritten(l: Live, files: Disk, id: string, maxInline: nat, body: Bytes): (Live, Disk) {
    var w := BufWrite(l.req, files, BlobName(id, Request), maxInline, body);
    (l.(req := w.0), w.1)
  }

  function ResponseWritten(l: Live, files: Disk, id: string, maxInline: nat, chunk: Bytes, now: int): (Live, Disk) {
    var w := BufWrite(l.resp, files, BlobName(id, Response), maxInline, chunk);
    (l.(resp := w.0, lastSeen := now), w.1)
  }

  /** A zero cursor means no cursor. */
  predicate BeforeCursor(t: int, before: int) { before == ZERO_TIME || t < before }

  /** The entries a cursor lets through. */
  function PendingBefore(m: seq<Entry>, before: int): seq<Entry> {
    if m == [] then []
    else if BeforeCursor(m[0].startedAt, before) then [m[0]] + PendingBefore(m[1..], before)
    else PendingBefore(m[1..], before)
  }

  lemma {:induction false} PendingBeforeAppend(m: seq<Entry>, n: seq<Entry>, before: int)
    ensures PendingBefore(m + n, before) == PendingBefore(m, before) + PendingBefore(n, before)
  {
    if m == [] {
      assert m + n == n;
    } else {
      assert (m + n)[0] == m[0] && (m + n)[1..] == m[1..] + n;
      PendingBeforeAppend(m[1..], n, before);
    }
  }

  /** The pending entries as they are now, in a given iteration order. */
  function Snapshots(mem: map<string, Live>, order: seq<string>): (m: seq<Entry>)
    requires forall id :: id in order ==> id in mem
    ensures |m| == |order|
    ensures forall i :: 0 <= i < |order| ==> m[i] == Snapshot(mem[order[i]])
  {
    seq(|order|, i requires 0 <= i < |order| => Snapshot(mem[order[i]]))
  }

  // --- The classes ---

  class LiveEntry {
    var entry: Entry
    const req: BodyBuffer
    const resp: BodyBuffer
    var lastSeen: int

    ghost function View(): Live
      reads this, req, resp
    {
      Live(entry, req.View(), resp.View(), lastSeen)
    }

    constructor (e: Entry, dir: BlobDir, maxInline: nat, now: int)
      ensures fresh(req) && fresh(resp) && Wired(e.id, dir, maxInline)
      ensures View() == Live(e, EMPTY_BUF, EMPTY_BUF, now)
    {
      entry, lastSeen := e, now;
      req := new BodyBuffer(dir, e.id, Request, maxInline);
      resp := new BodyBuffer(dir, e.id, Response, maxInline);
    }

    /** The buffers carry the entry's id and their side, so no two entries share an object. */
    ghost predicate Wired(id: string, dir: BlobDir, maxInline: nat) {
      && req.dir == dir && req.id == id && req.side == Request && req.maxInline == maxInline
      && resp.dir == dir && resp.id == id && resp.side == Response && resp.maxInline == maxInline
    }

    method Update(fn: Edit, now: int)
      modifies this
      ensures View() == Edited(old(View()), fn, now)
      ensures entry == fn(old(entry)).(id := old(entry).id) && lastSeen == now
    {
      entry := Apply(fn, entry);
      lastSeen := now;
    }

    method Touch(now: int)
      modifies this
      ensures View() == old(View()).(lastSeen := now)
    {
      lastSeen := now;
    }

    /** What Finalize does to the entry under its lock. */
    method Settle(fn: Edit, now: int)
      modifies this
      ensures entry == Settled(old(entry), fn, now) && lastSeen == now
    {
      entry := Apply(fn, entry);
      if entry.status == Pending {
        entry := entry.(status := Done);
      }
      if entry.finishedAt.None? {
        entry := entry.(finishedAt := Some(now));
      }
      if entry.times.totalMs.None? {
        var ms := DurationMs(SubTime(entry.finishedAt.value, entry.startedAt));
        entry := entry.(times := entry.times.(totalMs := Some(ms)));
      }
      lastSeen := now;
    }

    method Finish(fn: Edit, now: int)
      requires req != resp
      modifies this, req, resp
      ensures View() == Finished(old(View()), fn, now)
      ensures !req.View().open && !resp.View().open
    {
      Settle(fn, now);
      req.Close();
      resp.Close();
    }

    method TakeSnapshot() returns (e: Entry)
      ensures e == Snapshot(View())
    {
      var request := req.State();
      var response := resp.State();
      e := entry.(request := request, response := response);
    }
  }

  class MemStore {
    const dir: BlobDir
    const maxInline: nat
    var entries: map<string, LiveEntry>
    /** What the live entries hold, by id. */
    ghost var View: map<string, Live>

    /** The live entries and their buffers, past ones included. */
    ghost var Lives: set<LiveEntry>
    ghost var Buffers: set<BodyBuffer>

    ghost predicate Valid()
      reads this, Lives, Buffers
    {
      && View.Keys == entries.Keys
      && forall id :: id in entries ==> Tracks(id, entries[id])
    }

    ghost predicate Tracks(id: string, live: LiveEntry)
      requires id in View
      reads this, Lives, Buffers
    {
      && live in Lives && live.req in Buffers && live.resp in Buffers
      && live.Wired(id, dir, maxInline)
      && View[id] == live.View()
    }

    constructor (dir: BlobDir, maxInline: nat)
      ensures Valid() && this.dir == dir && this.maxInline == maxInline && entries == map[] && View == map[] && Lives == {} && Buffers == {}
    {
      this.dir, this.maxInline, entries, View, Lives, Buffers := dir, maxInline, map[], map[], {}, {};
    }

    method Put(e: Entry, now: int) returns (live: LiveEntry)
      requires Valid()
      modifies this
      ensures Valid() && fresh(Lives - old(Lives)) && fresh(Buffers - old(Buffers))
      ensures entries == old(entries)[e.id := live] && live.View() == Live(e, EMPTY_BUF, EMPTY_BUF, now)
      ensures View == old(View)[e.id := Live(e, EMPTY_BUF, EMPTY_BUF, now)]
    {
      live := new LiveEntry(e, dir, maxInline, now);
      entries := entries[e.id := live];
      View := View[e.id := live.View()];
      Lives, Buffers := Lives + {live}, Buffers + {live.req, live.resp};
    }

    /** After a write to one entry, recording its new view is enough: the others share nothing with it. */
    twostate lemma Retracked(id: string)
      requires old(Valid()) && id in entries && entries == old(entries) && Lives == old(Lives) && Buffers == old(Buffers)
      requires View == old(View)[id := entries[id].View()]
      requires forall l: LiveEntry :: l in Lives && l != entries[id] ==> unchanged(l)
      requires forall b: BodyBuffer :: b in Buffers && b != entries[id].req && b != entries[id].resp ==> unchanged(b)
      ensures Valid()
    {
      forall other | other in entries && other != id
        ensures Tracks(other, entries[other])
      {
        var live := entries[other];
        assert old(Tracks(other, live)) && old(Tracks(id, entries[id]));
        assert live.req.id == other && entries[id].req.id == id;
        assert unchanged(live) && unchanged(live.req) && unchanged(live.resp);
      }
      assert old(Tracks(id, entries[id]));
    }

    method WriteRequest(id: string, body: Bytes)
      requires Valid() && id in entries
      modifies `View, entries[id].req, dir
      ensures Lives == old(Lives) && Buffers == old(Buffers)
      ensures Valid()
      ensures View == old(View)[id := RequestWritten(old(View)[id], old(dir.files), id, maxInline, body).0]
      ensures dir.files == RequestWritten(old(View)[id], old(dir.files), id, maxInline, body).1
    {
      entries[id].req.Write(body);
      View := View[id := entries[id].View()];
      Retracked(id);
    }

    method WriteResponse(id: string, chunk: Bytes, now: int)
      requires Valid() && id in entries
      modifies `View, entries[id], entries[id].resp, dir
      ensures Lives == old(Lives) && Buffers == old(Buffers)
      ensures Valid()
      ensures View == old(View)[id := ResponseWritten(old(View)[id], old(dir.files), id, maxInline, chunk, now).0]
      ensures dir.files == ResponseWritten(old(View)[id], old(dir.files), id, maxInline, chunk, now).1
    {
      entries[id].resp.Write(chunk);
      entries[id].Touch(now);
      View := View[id := entries[id].View()];
      Retracked(id);
    }

    method Update(id: string, fn: Edit, now: int) returns (e: Entry)
      requires Valid() && id in entries
      modifies `View, entries[id]
      ensures Lives == old(Lives) && Buffers == old(Buffers)
      ensures Valid() && View == old(View)[id := Edited(old(View)[id], fn, now)]
      ensures e == Snapshot(Edited(old(View)[id], fn, now))
    {
      entries[id].Update(fn, now);
      View := View[id := entries[id].View()];
      Retracked(id);
      e := entries[id].TakeSnapshot();
    }

    /** Settles the entry, closes its buffers and takes the snapshot that becomes the row. */
    method Finish(id: string, fn: Edit, now: int) returns (e: Entry)
      requires Valid() && id in entries
      modifies `View, entries[id], entries[id].req, entries[id].resp
      ensures Lives == old(Lives) && Buffers == old(Buffers)
      ensures Valid() && View == old(View)[id := Finished(old(View)[id], fn, now)]
      ensures e == Snapshot(Finished(old(View)[id], fn, now))
    {
      entries[id].Finish(fn, now);
      View := View[id := entries[id].View()];
      Retracked(id);
      e := entries[id].TakeSnapshot();
    }

    method Delete(id: string)
      requires Valid()
      modifies `entries, `View
      ensures Lives == old(Lives) && Buffers == old(Buffers)
      ensures Valid() && View == old(View) - {id} && entries == old(entries) - {id}
    {
      entries := entries - {id};
      View := View - {id};
    }

    /** Snapshots of the entries a cursor lets through, in the order the map is iterated. */
    method List(before: int) returns (out: seq<Entry>, ghost order: seq<string>)
      requires Valid()
      ensures Enumerates(order, View.Keys)
      ensures out == PendingBefore(Snapshots(View, order), before)
    {
      var ids := Iterate(entries.Keys);
      order := ids;
      assert forall id :: id in ids <==> id in Elements(ids);
      out := [];
      for i := 0 to |ids|
        invariant out == PendingBefore(Snapshots(View, ids[..i]), before)
      {
        assert Tracks(ids[i], entries[ids[i]]);
        var e := entries[ids[i]].TakeSnapshot();
        assert Snapshots(View, ids[..i + 1]) == Snapshots(View, ids[..i]) + [e];
        PendingBeforeAppend(Snapshots(View, ids[..i]), [e], before);
        if before != ZERO_TIME && e.startedAt >= before {
          continue;
        }
        out := out + [e];
      }
      assert ids[..|ids|] == ids;
    }

    method StaleIds(timeout: int, now: int) returns (ids: seq<string>)
      requires Valid()
      ensures Enumerates(ids, set id | id in View && View[id].lastSeen < now - timeout)
    {
      var cutoff := now - timeout;
      var stale := set id | id in entries && entries[id].lastSeen < cutoff;
      assert stale == set id | id in View && View[id].lastSeen < now - timeout;
      ids := Iterate(stale);
    }
  }
}
