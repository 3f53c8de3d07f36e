/** From the upstream bytes to what Body serves, with any other traffic in between. */
module EndToEnd {
  import opened Types
  import opened BodyBuffers
  import opened Memory
  import opened StoreSpec
  import opened Archives
  import opened Capture

  /** Ids are not reused. */
  predicate NoPut(ops: seq<Op>, id: string) {
    forall i :: 0 <= i < |ops| && ops[i].OpPut? ==> AssignedId(ops[i].e, ops[i].newId) != id
  }

  /** How one record may change: the response grows by at most w, and by exactly w while it stays pending;
      once archived it is fixed, and once gone it stays gone. */
  predicate Grows(a: Archive, a': Archive, id: string, w: Bytes) {
    id in a'.records ==>
      && id in a.records
      && a.records[id].resp <= a'.records[id].resp <= a.records[id].resp + w
      && (a.records[id].archived ==> a'.records[id].archived && a'.records[id].resp == a.records[id].resp)
      && (!a'.records[id].archived ==> a'.records[id].resp == a.records[id].resp + w)
  }

  lemma GrowsTransitive(a: Archive, b: Archive, c: Archive, id: string, v: Bytes, w: Bytes)
    requires Grows(a, b, id, v) && Grows(b, c, id, w)
    ensures Grows(a, c, id, v + w)
  {
    if id in c.records {
      var x, y, z := a.records[id].resp, b.records[id].resp, c.records[id].resp;
      Assoc(x, v, w);
      assert y <= x + v && z <= y + w;
      if b.records[id].archived {
        assert z == y;
        assert x + v <= x + (v + w);
      } else {
        assert y == x + v;
      }
    }
  }

  lemma FinalizeGrows(cfg: Config, a: Archive, id: string, fn: Edit, now: int, other: string)
    ensures Grows(a, ArchiveFinalize(cfg, a, id, fn, now), other, [])
  {
  }

  lemma {:induction false} FinalizeAllGrows(cfg: Config, a: Archive, ids: seq<string>, fn: Edit, now: int, other: string)
    ensures Grows(a, ArchiveFinalizeAll(cfg, a, ids, fn, now), other, [])
    decreases |ids|
  {
    if ids != [] {
      var b := ArchiveFinalize(cfg, a, ids[0], fn, now);
      FinalizeGrows(cfg, a, ids[0], fn, now, other);
      FinalizeAllGrows(cfg, b, ids[1..], fn, now, other);
      GrowsTransitive(a, b, ArchiveFinalizeAll(cfg, b, ids[1..], fn, now), other, [], []);
    }
  }

  lemma StepGrows(cfg: Config, a: Archive, op: Op, id: string)
    requires NoPut([op], id)
    ensures Grows(a, ArchiveStep(cfg, a, op), id, Concat(AppendsOf([op], id)))
  {
    assert AppendsOf([op], id) == if op.OpAppendResponse? && op.id == id then [op.chunk] + AppendsOf([], id) else AppendsOf([], id);
    match op
    case OpPut(e, newId, _) => assert [op][0].OpPut?;
    case OpAppendResponse(_, chunk, _, _) => ConcatOne(chunk);
    case OpFinalize(x, fn, now) => FinalizeGrows(cfg, a, x, fn, now, id);
    case OpSweep(order, _, message, now) => FinalizeAllGrows(cfg, a, order, TimeoutEdit(message), now, id);
    case _ =>
  }

  lemma {:induction false} RunGrows(cfg: Config, a: Archive, ops: seq<Op>, id: string)
    requires NoPut(ops, id)
    ensures Grows(a, ArchiveRun(cfg, a, ops), id, Concat(AppendsOf(ops, id)))
    decreases |ops|
  {
    if ops != [] {
      var b := ArchiveStep(cfg, a, ops[0]);
      assert ops == [ops[0]] + ops[1..];
      assert NoPut([ops[0]], id) && NoPut(ops[1..], id);
      StepGrows(cfg, a, ops[0], id);
      RunGrows(cfg, b, ops[1..], id);
      AppendsOfAppend([ops[0]], ops[1..], id);
      ConcatAppend(AppendsOf([ops[0]], id), AppendsOf(ops[1..], id));
      GrowsTransitive(a, b, ArchiveRun(cfg, b, ops[1..]), id, Concat(AppendsOf([ops[0]], id)), Concat(AppendsOf(ops[1..], id)));
    }
  }

  // --- What is archived stays as it is ---

  ghost predicate Fixed(a: Archive, a': Archive, id: string) {
    id in a.records && a.records[id].archived && id in a'.records ==> a'.records[id] == a.records[id]
  }

  lemma {:induction false} FinalizeAllFixes(cfg: Config, a: Archive, ids: seq<string>, fn: Edit, now: int, id: string)
    ensures Fixed(a, ArchiveFinalizeAll(cfg, a, ids, fn, now), id)
    ensures id in ArchiveFinalizeAll(cfg, a, ids, fn, now).records ==> id in a.records
    decreases |ids|
  {
    if ids != [] {
      FinalizeAllFixes(cfg, ArchiveFinalize(cfg, a, ids[0], fn, now), ids[1..], fn, now, id);
    }
  }

  lemma StepFixes(cfg: Config, a: Archive, op: Op, id: string)
    requires NoPut([op], id)
    ensures Fixed(a, ArchiveStep(cfg, a, op), id)
    ensures id in ArchiveStep(cfg, a, op).records ==> id in a.records
  {
    match op
    case OpPut(e, newId, _) => assert [op][0].OpPut?;
    case OpSweep(order, _, message, now) => FinalizeAllFixes(cfg, a, order, TimeoutEdit(message), now, id);
    case _ =>
  }

  lemma {:induction false} RunFixes(cfg: Config, a: Archive, ops: seq<Op>, id: string)
    requires NoPut(ops, id)
    ensures Fixed(a, ArchiveRun(cfg, a, ops), id)
    ensures id in ArchiveRun(cfg, a, ops).records ==> id in a.records
    decreases |ops|
  {
    if ops != [] {
      assert ops == [ops[0]] + ops[1..];
      assert NoPut([ops[0]], id) && NoPut(ops[1..], id);
      StepFixes(cfg, a, ops[0], id);
      RunFixes(cfg, ArchiveStep(cfg, a, ops[0]), ops[1..], id);
    }
  }

  /** The captured response, read back at any later time: w, with its size, inline or spilled. */
  ghost predicate Served(cfg: Config, s: State, id: string, w: Bytes) {
    && ReadBody(s, id, Response) == Ok((w, |w|))
    && Get(s, id).Ok?
    && Get(s, id).value.response.size == |w|
    && Get(s, id).value.response.spilled == (|w| > cfg.maxInline)
  }

  lemma ServedFromRecord(cfg: Config, s: State, a: Archive, id: string)
    requires Represents(cfg, s, a) && id in a.records
    ensures Served(cfg, s, id, a.records[id].resp)
  {
    ObservationsAgree(cfg, s, a, id, Response);
    LookupReads(cfg, a, s.files, id, Response);
  }

  /** Abstractly, from a record that holds no response yet: any operations `during`, the end of the exchange, then any
      operations `after`. */
  lemma RecordAtEnd(cfg: Config, a: Archive, id: string, during: seq<Op>, fn: Edit, t: int, after: seq<Op>)
    requires id in a.records && a.records[id].resp == [] && NoPut(during, id) && NoPut(after, id)
    ensures var a1 := ArchiveRun(cfg, a, during);
            var a2 := ArchiveRun(cfg, ArchiveFinalize(cfg, a1, id, fn, t), after);
            var w := Concat(AppendsOf(during, id));
            id in a2.records ==> a2.records[id].resp <= w && (IsPending(a1, id) ==> a2.records[id].resp == w)
  {
    var a1 := ArchiveRun(cfg, a, during);
    var b := ArchiveFinalize(cfg, a1, id, fn, t);
    RunGrows(cfg, a, during, id);
    FinalizeGrows(cfg, a1, id, fn, t, id);
    RunGrows(cfg, b, after, id);
    assert [] + Concat(AppendsOf(during, id)) == Concat(AppendsOf(during, id));
    assert id in b.records ==> b.records[id].archived && b.records[id].resp == a1.records[id].resp;
  }

  /** The concrete run stands for the abstract one, before and after the end of the exchange. */
  lemma ExchangeSimulates(cfg: Config, s: State, a: Archive, id: string, during: seq<Op>, fn: Edit, t: int, after: seq<Op>)
    requires Inv(s) && Represents(cfg, s, a) && GoodRun(cfg, s, during)
    requires GoodRun(cfg, Finalize(cfg, Run(cfg, s, during), id, fn, t), after)
    ensures var s1, a1 := Run(cfg, s, during), ArchiveRun(cfg, a, during);
            && Inv(s1) && (id in s1.mem <==> IsPending(a1, id))
            && Represents(cfg, Run(cfg, Finalize(cfg, s1, id, fn, t), after),
                               ArchiveRun(cfg, ArchiveFinalize(cfg, a1, id, fn, t), after))
  {
    var s1, a1 := Run(cfg, s, during), ArchiveRun(cfg, a, during);
    RunSimulates(cfg, s, a, during);
    RunKeepsInv(cfg, s, during);
    KnownIds(cfg, s1, a1, id);
    FinalizeSimulates(cfg, s1, a1, id, fn, t);
    FinalizeKeepsInv(cfg, s1, id, fn, t);
    RunSimulates(cfg, Finalize(cfg, s1, id, fn, t), ArchiveFinalize(cfg, a1, id, fn, t), after);
  }

  /** What Body then serves. */
  lemma EndedIsServed(cfg: Config, s: State, a: Archive, id: string, during: seq<Op>, fn: Edit, t: int, after: seq<Op>)
    requires Inv(s) && Represents(cfg, s, a) && id in a.records && a.records[id].resp == []
    requires NoPut(during, id) && NoPut(after, id)
    requires GoodRun(cfg, s, during) && GoodRun(cfg, Finalize(cfg, Run(cfg, s, during), id, fn, t), after)
    ensures var s1 := Run(cfg, s, during);
            var s2 := Run(cfg, Finalize(cfg, s1, id, fn, t), after);
            var all := Concat(AppendsOf(during, id));
            Get(s2, id).Ok? ==> exists w :: Served(cfg, s2, id, w) && w <= all && (id in s1.mem ==> w == all)
  {
    var a1 := ArchiveRun(cfg, a, during);
    var s2 := Run(cfg, Finalize(cfg, Run(cfg, s, during), id, fn, t), after);
    var a2 := ArchiveRun(cfg, ArchiveFinalize(cfg, a1, id, fn, t), after);
    ExchangeSimulates(cfg, s, a, id, during, fn, t, after);
    RecordAtEnd(cfg, a, id, during, fn, t, after);
    if Get(s2, id).Ok? {
      ObservationsAgree(cfg, s2, a2, id, Response);
      ServedFromRecord(cfg, s2, a2, id);
    }
  }

  /** Whatever the chunking, the format and the interleaved traffic, once the exchange has ended Body serves exactly
      the upstream bytes for as long as the entry is kept; if the entry was swept while the stream was still being
      read, it serves a prefix of them. */
  lemma CapturedBodyIsServed(cfg: Config, s: State, a: Archive, put: Op, during: seq<Op>, fn: Edit, t: int, after: seq<Op>,
                             lib: Text, format: Format, parts: seq<(Bytes, int)>, now: int)
    requires Inv(s) && Represents(cfg, s, a) && put.OpPut? && Enabled(s, put)
    requires NoPut(during, AssignedId(put.e, put.newId)) && NoPut(after, AssignedId(put.e, put.newId))
    requires GoodRun(cfg, Step(cfg, s, put), during)
    requires var s1 := Run(cfg, Step(cfg, s, put), during);
             GoodRun(cfg, Finalize(cfg, s1, AssignedId(put.e, put.newId), fn, t), after)
    requires var id := AssignedId(put.e, put.newId);
             AppendsOf(during, id) == AppendsOf(CaptureOps(lib, id, format, parts, now), id)
    ensures var id := AssignedId(put.e, put.newId);
            var s1 := Run(cfg, Step(cfg, s, put), during);
            var s2 := Run(cfg, Finalize(cfg, s1, id, fn, t), after);
            Get(s2, id).Ok? ==>
              exists w :: Served(cfg, s2, id, w) && w <= BytesOf(parts) && (id in s1.mem ==> w == BytesOf(parts))
  {
    var id := AssignedId(put.e, put.newId);
    StepSimulates(cfg, s, a, put);
    StepKeepsInv(cfg, s, put);
    EndedIsServed(cfg, Step(cfg, s, put), ArchiveStep(cfg, a, put), id, during, fn, t, after);
    CaptureConserves(lib, id, format, parts, now);
  }

  // --- The deltas that are published ---

  /** The chunks of the published deltas of one entry. */
  function DeltasIn(events: seq<Event>, id: string): seq<Bytes> {
    if events == [] then []
    else DeltasIn(events[..|events| - 1], id) +
         (var ev := events[|events| - 1]; if ev.Delta? && ev.id == id then [ev.chunk] else [])
  }

  lemma OneMoreDelta(events: seq<Event>, ev: Event, id: string)
    ensures DeltasIn(events + [ev], id) == DeltasIn(events, id) + if ev.Delta? && ev.id == id then [ev.chunk] else []
  {
    assert (events + [ev])[..|events|] == events;
  }

  lemma {:induction false} DeletionsAreNoDeltas(events: seq<Event>, ids: seq<string>, id: string)
    ensures DeltasIn(events + DeletedEvents(ids), id) == DeltasIn(events, id)
    decreases |ids|
  {
    if ids == [] {
      assert events + DeletedEvents(ids) == events;
    } else {
      var n := |ids| - 1;
      assert DeletedEvents(ids) == DeletedEvents(ids[..n]) + [Deleted(ids[n])];
      assert events + DeletedEvents(ids) == (events + DeletedEvents(ids[..n])) + [Deleted(ids[n])];
      OneMoreDelta(events + DeletedEvents(ids[..n]), Deleted(ids[n]), id);
      DeletionsAreNoDeltas(events, ids[..n], id);
    }
  }

  lemma FinalizeIsNoDelta(cfg: Config, s: State, id: string, fn: Edit, now: int, x: string)
    ensures DeltasIn(Finalize(cfg, s, id, fn, now).events, x) == DeltasIn(s.events, x)
    ensures x !in s.mem ==> x !in Finalize(cfg, s, id, fn, now).mem
  {
    if id in s.mem {
      var s1 := MoveToTable(s, id, fn, now);
      OneMoreDelta(s.events, Updated(id, Snapshot(Finished(s.mem[id], fn, now))), x);
      DeletionsAreNoDeltas(s1.events, Victims(cfg, s1), x);
    }
  }

  lemma {:induction false} FinalizeAllIsNoDelta(cfg: Config, s: State, ids: seq<string>, fn: Edit, now: int, x: string)
    ensures DeltasIn(FinalizeAll(cfg, s, ids, fn, now).events, x) == DeltasIn(s.events, x)
    ensures x !in s.mem ==> x !in FinalizeAll(cfg, s, ids, fn, now).mem
    decreases |ids|
  {
    if ids != [] {
      FinalizeIsNoDelta(cfg, s, ids[0], fn, now, x);
      FinalizeAllIsNoDelta(cfg, Finalize(cfg, s, ids[0], fn, now), ids[1..], fn, now, x);
    }
  }

  lemma StepDeltas(cfg: Config, s: State, op: Op, id: string)
    ensures DeltasIn(Step(cfg, s, op).events, id) == DeltasIn(s.events, id) + if id in s.mem then DeltasOf([op], id) else []
    ensures NoPut([op], id) && id !in s.mem ==> id !in Step(cfg, s, op).mem
  {
    assert DeltasOf([op], id) ==
           (if op.OpAppendResponse? && op.id == id && op.emitDelta && op.chunk != [] then [op.chunk] else []) + DeltasOf([], id);
    match op
    case OpPut(e, newId, now) =>
      var live := Live(Registered(e, newId, now), EMPTY_BUF, EMPTY_BUF, now);
      OneMoreDelta(s.events, Created(live.entry.id, Snapshot(live)), id);
      assert [op][0].OpPut?;
    case OpSetRequestBody(_, _) =>
    case OpAppendResponse(x, chunk, _, _) => OneMoreDelta(s.events, Delta(x, chunk), id);
    case OpUpdate(x, fn, now) =>
      if x in s.mem {
        OneMoreDelta(s.events, Updated(x, Snapshot(Edited(s.mem[x], fn, now))), id);
      }
    case OpFinalize(x, fn, now) => FinalizeIsNoDelta(cfg, s, x, fn, now, id);
    case OpClear(order) => DeletionsAreNoDeltas(s.events, order, id);
    case OpSweep(order, _, message, now) => FinalizeAllIsNoDelta(cfg, s, order, TimeoutEdit(message), now, id);
  }

  /** Over any run, the deltas published for an entry are the first of those it was asked to publish: all of them if
      it is still pending at the end, and none if it was not pending at the start. */
  lemma {:induction false} RunDeltas(cfg: Config, s: State, ops: seq<Op>, id: string)
    requires NoPut(ops, id)
    ensures var was, now := DeltasIn(s.events, id), DeltasIn(Run(cfg, s, ops).events, id);
            && was <= now <= was + DeltasOf(ops, id)
            && (id in Run(cfg, s, ops).mem ==> id in s.mem && now == was + DeltasOf(ops, id))
            && (id !in s.mem ==> now == was)
    decreases |ops|
  {
    if ops != [] {
      var s1 := Step(cfg, s, ops[0]);
      assert ops == [ops[0]] + ops[1..];
      assert NoPut([ops[0]], id) && NoPut(ops[1..], id);
      StepDeltas(cfg, s, ops[0], id);
      RunDeltas(cfg, s1, ops[1..], id);
      DeltasOfAppend([ops[0]], ops[1..], id);
      PrefixesChain(DeltasIn(s.events, id), DeltasOf([ops[0]], id), DeltasOf(ops[1..], id),
                    DeltasIn(s1.events, id), DeltasIn(Run(cfg, s, ops).events, id), id in s.mem, id in s1.mem);
    }
  }

  lemma PrefixesChain<T>(was: seq<T>, first: seq<T>, rest: seq<T>, mid: seq<T>, end: seq<T>, live: bool, live1: bool)
    requires mid == was + (if live then first else []) && (live1 ==> live)
    requires mid <= end <= mid + rest && (!live1 ==> end == mid)
    ensures was <= end <= was + (first + rest) && (!live ==> end == was)
    ensures end == mid + rest && live ==> end == was + (first + rest)
  {
    Assoc(was, first, rest);
  }

  /** Subscribers see the fragments of the upstream bytes as deltas, in order: all of them if the entry was still
      pending when the exchange ended, and the first of them if it was swept before; nothing else is announced for it. */
  lemma PublishedDeltas(cfg: Config, s: State, put: Op, during: seq<Op>, fn: Edit, t: int, after: seq<Op>,
                        lib: Text, format: Format, parts: seq<(Bytes, int)>, now: int)
    requires put.OpPut? && lib.Sane() && IsStreaming(CaptureFormat(lib, format, parts))
    requires NoPut(during, AssignedId(put.e, put.newId)) && NoPut(after, AssignedId(put.e, put.newId))
    requires var id := AssignedId(put.e, put.newId);
             DeltasOf(during, id) == DeltasOf(CaptureOps(lib, id, format, parts, now), id)
    ensures var id := AssignedId(put.e, put.newId);
            var s1 := Run(cfg, Step(cfg, s, put), during);
            var s2 := Run(cfg, Finalize(cfg, s1, id, fn, t), after);
            var was, published := DeltasIn(s.events, id), DeltasIn(s2.events, id);
            && was <= published <= was + Fragments(BytesOf(parts))
            && (id in s1.mem ==> published == was + Fragments(BytesOf(parts)))
  {
    var id := AssignedId(put.e, put.newId);
    var s0 := Step(cfg, s, put);
    var s1 := Run(cfg, s0, during);
    StepDeltas(cfg, s, put, id);
    assert DeltasOf([put], id) == [] + DeltasOf([], id);
    assert DeltasIn(s.events, id) + [] == DeltasIn(s.events, id);
    RunDeltas(cfg, s0, during, id);
    FinalizeIsNoDelta(cfg, s1, id, fn, t, id);
    RunDeltas(cfg, Finalize(cfg, s1, id, fn, t), after, id);
    DeltasCanonical(lib, id, format, parts, now);
  }
}
