/** The response body wrapper that copies what the client reads into the store, and what ends up there. */
module CaptureReaders {
  import opened Types
  import opened StoreSpec
  import opened Capture
  import Stores

  // --- The class ---

  datatype ReadError = NoError | EndOfFile | Broken

  /** The upstream body: hands out as much as it likes of what is left, or fails at any point. */
  class Upstream {
    var data: Bytes

    method Read(p: array<Byte>) returns (n: nat, err: ReadError)
      modifies this, p
      ensures n <= p.Length && n <= |old(data)|
      ensures p[..n] == old(data)[..n] && p[n..] == old(p[n..])
      ensures data == old(data)[n..]
    {
      n :| 0 <= n <= p.Length && n <= |data|;
      err := *;
      for i := 0 to n
        invariant data == old(data)
        invariant forall j :: 0 <= j < i ==> p[j] == data[j]
        invariant forall j :: i <= j < p.Length ==> p[j] == old(p[j])
      {
        p[i] := data[i];
      }
      data := data[n..];
    }
  }

  class CaptureReader {
    const rc: Upstream
    const store: Stores.Store
    const lib: Text
    const id: string
    var format: Format
    var stream: bool
    var sniffed: bool
    var pending: Bytes
    var firstAt: int
    var lastAt: int
    var closed: bool

    ghost function View(): Reader
      reads this
    {
      Reader(id, format, stream, sniffed, pending, firstAt, lastAt)
    }

    /** The store is usable and shares nothing with the reader. */
    ghost predicate Valid()
      reads this, store, store.db, store.mem, store.mem.Lives, store.mem.Buffers, store.broker, store.broker.handedOut
    {
      store.Valid() && this !in store.Footprint() && rc !in store.Footprint()
    }

    constructor (rc: Upstream, store: Stores.Store, lib: Text, id: string, format: Format)
      requires store.Valid() && rc !in store.Footprint()
      ensures Valid() && View() == NewReader(id, format) && !closed
      ensures this.rc == rc && this.store == store && this.lib == lib
    {
      this.rc, this.store, this.lib, this.id, this.format := rc, store, lib, id, format;
      stream, sniffed := IsStreaming(format), format != Raw;
      pending, firstAt, lastAt, closed := [], ZERO_TIME, ZERO_TIME, false;
    }

    method Announce(f: Format, now: int)
      requires Valid()
      modifies store.Footprint()
      ensures Valid() && store.SameObjects()
      ensures store.State() == Run(store.cfg, old(store.State()), [OpUpdate(id, FormatEdit(f), now)])
    {
      RunOne(store.cfg, store.State(), OpUpdate(id, FormatEdit(f), now));
      var _ := store.Update(id, FormatEdit(f), now);
    }

    /** The detection itself, done once. */
    method Detect(chunk: Bytes, now: int)
      requires Valid() && !sniffed
      modifies this, store.Footprint()
      ensures Valid() && store.SameObjects() && closed == old(closed)
      ensures View() == Sniffed(lib, old(View()), chunk, now).0
      ensures store.State() == Run(store.cfg, old(store.State()), Sniffed(lib, old(View()), chunk, now).1)
    {
      sniffed := true;
      var f := SniffFormat(lib, chunk);
      if f != Raw {
        format, stream := f, IsStreaming(f);
        Announce(f, now);
      }
    }

    method Sniff(chunk: Bytes, now: int)
      requires Valid()
      modifies this, store.Footprint()
      ensures Valid() && store.SameObjects() && closed == old(closed)
      ensures View() == Sniffed(lib, old(View()), chunk, now).0
      ensures store.State() == Run(store.cfg, old(store.State()), Sniffed(lib, old(View()), chunk, now).1)
    {
      if !sniffed {
        Detect(chunk, now);
      }
    }

    /** Hands over the first line of `pending`, up to index i. */
    method EmitLine(i: nat, now: int)
      requires Valid() && i == IndexOf(pending)
      modifies this`pending, store.Footprint()
      ensures Valid() && store.SameObjects()
      ensures |pending| < |old(pending)| && Cut(pending).1 == Cut(old(pending)).1
      ensures Run(store.cfg, store.State(), AppendOps(id, Cut(pending).0, true, now)) ==
              Run(store.cfg, old(store.State()), AppendOps(id, Cut(old(pending)).0, true, now))
    {
      LineOps(id, pending, now);
      var _ := store.AppendResponse(id, pending[..i + 1], true, now);
      pending := pending[i + 1..];
    }

    /** Hands over the complete lines of `pending`. */
    method EmitLines(now: int)
      requires Valid()
      modifies this`pending, store.Footprint()
      ensures Valid() && store.SameObjects()
      ensures pending == Cut(old(pending)).1
      ensures store.State() == Run(store.cfg, old(store.State()), AppendOps(id, Cut(old(pending)).0, true, now))
    {
      while true
        invariant Valid() && store.SameObjects()
        invariant Cut(pending).1 == Cut(old(pending)).1
        invariant Run(store.cfg, store.State(), AppendOps(id, Cut(pending).0, true, now)) ==
                  Run(store.cfg, old(store.State()), AppendOps(id, Cut(old(pending)).0, true, now))
        decreases |pending|
      {
        var i := IndexOf(pending);
        if i < 0 {
          return;
        }
        EmitLine(i, now);
      }
    }

    /** Appends the chunk whole, or line by line when streaming. */
    method Append(chunk: Bytes, now: int)
      requires Valid()
      modifies this`pending, store.Footprint()
      ensures Valid() && store.SameObjects()
      ensures View() == Stored(old(View()), chunk, now).0
      ensures store.State() == Run(store.cfg, old(store.State()), Stored(old(View()), chunk, now).1)
    {
      if !stream {
        RunOne(store.cfg, store.State(), OpAppendResponse(id, chunk, false, now));
        var _ := store.AppendResponse(id, chunk, false, now);
        return;
      }
      pending := pending + chunk;
      EmitLines(now);
    }

    method Consume(chunk: Bytes, now: int)
      requires Valid()
      modifies this, store.Footprint()
      ensures Valid() && store.SameObjects() && closed == old(closed)
      ensures View() == Capture.Consume(lib, old(View()), chunk, now).0
      ensures store.State() == Run(store.cfg, old(store.State()), Capture.Consume(lib, old(View()), chunk, now).1)
    {
      ghost var s0, r0 := store.State(), View();
      Sniff(chunk, now);
      RunAppend(store.cfg, s0, Sniffed(lib, r0, chunk, now).1, Stored(View(), chunk, now).1);
      Append(chunk, now);
    }

    /** What a Read does with the bytes it passes on. */
    method Observe(chunk: Bytes, now: int)
      requires Valid()
      modifies this, store.Footprint()
      ensures Valid() && store.SameObjects() && closed == old(closed)
      ensures View() == Reading(lib, old(View()), chunk, now).0
      ensures store.State() == Run(store.cfg, old(store.State()), Reading(lib, old(View()), chunk, now).1)
    {
      if |chunk| > 0 {
        if firstAt == ZERO_TIME {
          firstAt := now;
        }
        lastAt := now;
        Consume(chunk, now);
      }
    }

    /** The client gets the upstream bytes unchanged; the store gets what the reader as a value prescribes. */
    method Read(p: array<Byte>, now: int) returns (n: nat, err: ReadError)
      requires Valid() && p !in store.Footprint()
      modifies this, rc, p, store.Footprint()
      ensures Valid() && store.SameObjects() && closed == old(closed)
      ensures n <= p.Length && n <= |old(rc.data)|
      ensures p[..n] == old(rc.data)[..n] && p[n..] == old(p[n..])
      ensures rc.data == old(rc.data)[n..]
      ensures View() == Reading(lib, old(View()), p[..n], now).0
      ensures store.State() == Run(store.cfg, old(store.State()), Reading(lib, old(View()), p[..n], now).1)
    {
      n, err := rc.Read(p);
      Observe(p[..n], now);
    }

    method Flush(now: int)
      requires Valid()
      modifies this`pending, store.Footprint()
      ensures Valid() && store.SameObjects() && pending == []
      ensures store.State() == Run(store.cfg, old(store.State()), FlushOps(old(View()), now))
    {
      if |pending| > 0 {
        RunOne(store.cfg, store.State(), OpAppendResponse(id, pending, true, now));
        var _ := store.AppendResponse(id, pending, true, now);
        pending := [];
      }
    }

    method End(streamMs: Option<int>, now: int)
      requires Valid()
      modifies store.Footprint()
      ensures Valid() && store.SameObjects()
      ensures store.State() == Run(store.cfg, old(store.State()), [OpFinalize(id, StreamEdit(streamMs), now)])
    {
      RunOne(store.cfg, store.State(), OpFinalize(id, StreamEdit(streamMs), now));
      var _ := store.Finalize(id, StreamEdit(streamMs), now);
    }

    /** Flushes the last partial line and ends the exchange; only the first call does anything. */
    method Close(now: int)
      requires Valid()
      modifies this, store.Footprint()
      ensures Valid() && store.SameObjects() && closed
      ensures old(closed) ==> View() == old(View()) && store.State() == old(store.State())
      ensures !old(closed) ==> View() == old(View()).(pending := [])
      ensures !old(closed) ==> store.State() == Run(store.cfg, old(store.State()), CloseOps(old(View()), now))
    {
      if closed {
        return;
      }
      closed := true;
      ghost var s0, r0 := store.State(), View();
      Flush(now);
      var streamMs := None;
      if stream && firstAt != ZERO_TIME {
        streamMs := Some(DurationMs(SubTime(lastAt, firstAt)));
      }
      End(streamMs, now);
      RunAppend(store.cfg, s0, FlushOps(r0, now), [OpFinalize(id, StreamEdit(streamMs), now)]);
    }
  }

  lemma LineOps(id: string, pending: Bytes, now: int)
    requires IndexOf(pending) >= 0
    ensures var i := IndexOf(pending);
            && Cut(pending).1 == Cut(pending[i + 1..]).1
            && AppendOps(id, Cut(pending).0, true, now) ==
               [OpAppendResponse(id, pending[..i + 1], true, now)] + AppendOps(id, Cut(pending[i + 1..]).0, true, now)
  {
    var i := IndexOf(pending);
    assert Cut(pending).0 == [pending[..i + 1]] + Cut(pending[i + 1..]).0;
  }
}
