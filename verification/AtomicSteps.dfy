/** The small steps of Put, of the body writes, of Clear and of a restart, taken in order and undisturbed, are the
    atomic operations. */
module AtomicSteps {
  import opened Types
  import opened RowCodec
  import opened BodyBuffers
  import opened Database
  import opened Crashes
  import opened FinalizeSteps
  import Archives
  import S = StoreSpec

  // --- Put ---

  /** An id that was never used before. */
  lemma PutStepIsPut(cfg: S.Config, s: S.State, w: World, e: Entry, newId: string, now: int)
    requires Projects(s, w) && S.Enabled(s, S.OpPut(e, newId, now)) && S.AssignedId(e, newId) !in w.used
    ensures Possible(cfg, w, Register(S.AssignedId(e, newId)))
    ensures Projects(S.Put(s, e, newId, now), Do(cfg, w, Register(S.AssignedId(e, newId))))
  {
  }

  // --- Writing a body ---

  /** The steps of one Write. */
  function WriteActs(cfg: S.Config, b: Buf, id: string, side: Side, p: Bytes): seq<Act> {
    if p == [] then []
    else if b.open then [WriteMore(id, side, p)]
    else if b.size + |p| <= cfg.maxInline then [WriteInline(id, side, p)]
    else [CreateFile(id, side, p)] + [CopyPreview(id, side), WriteFirst(id, side)]
  }

  /** Only one buffer of one entry, and the files, differ. */
  ghost predicate OnlyCell(w: World, v: World, id: string, side: Side) {
    && id in w.mem && id in v.mem
    && v == w.(files := v.files, synced := v.synced, mem := w.mem[id := v.mem[id]])
    && v.mem[id].phase == w.mem[id].phase
    && forall other :: other != side ==> v.mem[id].cells.Of(other) == w.mem[id].cells.Of(other)
  }

  lemma OnlyCellTwice(w: World, u: World, v: World, id: string, side: Side)
    requires OnlyCell(w, u, id, side) && OnlyCell(u, v, id, side)
    ensures OnlyCell(w, v, id, side)
  {
    assert w.mem[id := u.mem[id]][id := v.mem[id]] == w.mem[id := v.mem[id]];
  }

  lemma StepIsOnlyCell(cfg: S.Config, w: World, act: Act)
    requires Possible(cfg, w, act) && IsBufferStep(act) && !act.CloseSide?
    ensures OnlyCell(w, Do(cfg, w, act), act.id, act.side)
  {
  }

  lemma TwoSteps(cfg: S.Config, w: World, a: Act, b: Act)
    requires Possible(cfg, w, a) && Possible(cfg, Do(cfg, w, a), b)
    ensures Schedule(cfg, w, [a, b]) && Play(cfg, w, [a, b]) == Do(cfg, Do(cfg, w, a), b)
  {
    OneStep(cfg, w, a);
    OneStep(cfg, Do(cfg, w, a), b);
    ScheduleAppend(cfg, w, [a], [b]);
    assert [a] + [b] == [a, b];
  }

  lemma SpillSteps(cfg: S.Config, w: World, id: string, side: Side, p: Bytes)
    requires Possible(cfg, w, CreateFile(id, side, p))
    ensures var acts := [CreateFile(id, side, p)] + [CopyPreview(id, side), WriteFirst(id, side)];
            Schedule(cfg, w, acts) &&
            var v := Play(cfg, w, acts);
            && OnlyCell(w, v, id, side) && v.mem[id].cells.Of(side).stage == AtRest
            && (v.mem[id].cells.Of(side).buf, v.files) ==
               BufWrite(w.mem[id].cells.Of(side).buf, w.files, BlobName(id, side), cfg.maxInline, p)
  {
    SpillStepsAreWrite(cfg, w, id, side, p);
    var w1 := Do(cfg, w, CreateFile(id, side, p));
    var w2 := Do(cfg, w1, CopyPreview(id, side));
    var w3 := Do(cfg, w2, WriteFirst(id, side));
    OneStep(cfg, w, CreateFile(id, side, p));
    TwoSteps(cfg, w1, CopyPreview(id, side), WriteFirst(id, side));
    ScheduleAppend(cfg, w, [CreateFile(id, side, p)], [CopyPreview(id, side), WriteFirst(id, side)]);
    StepIsOnlyCell(cfg, w, CreateFile(id, side, p));
    StepIsOnlyCell(cfg, w1, CopyPreview(id, side));
    StepIsOnlyCell(cfg, w2, WriteFirst(id, side));
    OnlyCellTwice(w, w1, w2, id, side);
    OnlyCellTwice(w, w2, w3, id, side);
  }

  lemma PlainStep(cfg: S.Config, w: World, id: string, side: Side, p: Bytes, act: Act)
    requires act == WriteInline(id, side, p) || act == WriteMore(id, side, p)
    requires Possible(cfg, w, act)
    ensures Schedule(cfg, w, [act])
    ensures var v := Play(cfg, w, [act]);
            && OnlyCell(w, v, id, side) && v.mem[id].cells.Of(side).stage == AtRest
            && (v.mem[id].cells.Of(side).buf, v.files) ==
               BufWrite(w.mem[id].cells.Of(side).buf, w.files, BlobName(id, side), cfg.maxInline, p)
  {
    OneStep(cfg, w, act);
    StepIsOnlyCell(cfg, w, act);
    OtherStepsAreWrite(cfg, w, id, side, p, act);
  }

  /** They are one Write of the buffer, and touch nothing else. */
  lemma WriteSteps(cfg: S.Config, w: World, id: string, side: Side, p: Bytes)
    requires w.mode == Running && id in w.mem && w.mem[id].phase == Open && w.mem[id].cells.Of(side).stage == AtRest
    ensures var acts := WriteActs(cfg, w.mem[id].cells.Of(side).buf, id, side, p);
            Schedule(cfg, w, acts) &&
            var v := Play(cfg, w, acts);
            && OnlyCell(w, v, id, side) && v.mem[id].cells.Of(side).stage == AtRest
            && (v.mem[id].cells.Of(side).buf, v.files) ==
               BufWrite(w.mem[id].cells.Of(side).buf, w.files, BlobName(id, side), cfg.maxInline, p)
  {
    var b := w.mem[id].cells.Of(side).buf;
    if p == [] {
      assert w.mem[id := w.mem[id]] == w.mem;
    } else if b.open {
      PlainStep(cfg, w, id, side, p, WriteMore(id, side, p));
    } else if b.size + |p| <= cfg.maxInline {
      PlainStep(cfg, w, id, side, p, WriteInline(id, side, p));
    } else {
      SpillSteps(cfg, w, id, side, p);
    }
  }

  /** Replacing one live entry by what its buffers have become. */
  lemma WrittenProjects(s: S.State, s': S.State, w: World, v: World, id: string, side: Side)
    requires Projects(s, w) && id in s.mem && OnlyCell(w, v, id, side) && v.mem[id].cells.Of(side).stage == AtRest
    requires s'.table == s.table && s'.files == v.files && id in s'.mem && s'.mem == s.mem[id := s'.mem[id]]
    requires s'.mem[id].req == v.mem[id].cells.req.buf && s'.mem[id].resp == v.mem[id].cells.resp.buf
    ensures Projects(s', v)
  {
    var other := if side == Request then Response else Request;
    assert v.mem[id].cells.Of(other) == w.mem[id].cells.Of(other);
    assert AtRestWith(v.mem[id], s'.mem[id]);
  }

  lemma SetRequestBodyStepsAre(cfg: S.Config, s: S.State, w: World, id: string, body: Bytes)
    requires Projects(s, w) && id in s.mem
    ensures var acts := WriteActs(cfg, s.mem[id].req, id, Request, body);
            Schedule(cfg, w, acts) && Projects(S.SetRequestBody(cfg, s, id, body), Play(cfg, w, acts))
  {
    assert AtRestWith(w.mem[id], s.mem[id]);
    WriteSteps(cfg, w, id, Request, body);
    var v := Play(cfg, w, WriteActs(cfg, s.mem[id].req, id, Request, body));
    assert v.mem[id].cells.Of(Response) == w.mem[id].cells.Of(Response);
    WrittenProjects(s, S.SetRequestBody(cfg, s, id, body), w, v, id, Request);
  }

  lemma AppendResponseStepsAre(cfg: S.Config, s: S.State, w: World, id: string, chunk: Bytes, emit: bool, now: int)
    requires Projects(s, w) && id in s.mem
    ensures var acts := WriteActs(cfg, s.mem[id].resp, id, Response, chunk);
            Schedule(cfg, w, acts) && Projects(S.AppendResponse(cfg, s, id, chunk, emit, now), Play(cfg, w, acts))
  {
    assert AtRestWith(w.mem[id], s.mem[id]);
    WriteSteps(cfg, w, id, Response, chunk);
    var v := Play(cfg, w, WriteActs(cfg, s.mem[id].resp, id, Response, chunk));
    assert v.mem[id].cells.Of(Request) == w.mem[id].cells.Of(Request);
    WrittenProjects(s, S.AppendResponse(cfg, s, id, chunk, emit, now), w, v, id, Response);
  }

  // --- Clear ---

  function WipeActs(names: seq<string>): seq<Act> {
    if names == [] then [] else [WipeFile(names[0])] + WipeActs(names[1..])
  }

  lemma {:induction false} WipeSteps(cfg: S.Config, w: World, names: seq<string>)
    requires w.mode == Clearing && NoDup(names) && Elements(names) <= w.files.Keys
    ensures Schedule(cfg, w, WipeActs(names))
    ensures Play(cfg, w, WipeActs(names)) == w.(files := w.files - Elements(names))
    decreases |names|
  {
    if names == [] {
      assert w.files - Elements(names) == w.files;
    } else {
      var name, rest := names[0], names[1..];
      assert names == [name] + rest;
      NoDupCons(name, rest);
      HeadAndTail(names);
      WipeSteps(cfg, Do(cfg, w, WipeFile(name)), rest);
      OneStep(cfg, w, WipeFile(name));
      ScheduleAppend(cfg, w, [WipeFile(name)], WipeActs(rest));
      RemoveTwice(w.files, {name}, Elements(rest));
    }
  }

  /** All rows, then every file in whatever order the directory was read. */
  function ClearActs(names: seq<string>): seq<Act> {
    [WipeRows] + (WipeActs(names) + [WipeDone])
  }

  lemma ClearStepsAreClear(cfg: S.Config, s: S.State, w: World, order: seq<string>, names: seq<string>)
    requires Projects(s, w) && Archives.NoPendingSpill(s) && Enumerates(names, s.files.Keys)
    ensures Schedule(cfg, w, ClearActs(names)) && Projects(S.Clear(s, order), Play(cfg, w, ClearActs(names)))
  {
    forall id, side | id in w.mem
      ensures w.mem[id].cells.Of(side).buf.path == "" && w.mem[id].cells.Of(side).stage == AtRest
    {
      assert AtRestWith(w.mem[id], s.mem[id]);
    }
    var w1 := Do(cfg, w, WipeRows);
    WipeSteps(cfg, w1, names);
    var w2 := Play(cfg, w1, WipeActs(names));
    assert w2.files == map[];
    OneStep(cfg, w2, WipeDone);
    ScheduleAppend(cfg, w1, WipeActs(names), [WipeDone]);
    OneStep(cfg, w, WipeRows);
    ScheduleAppend(cfg, w, [WipeRows], WipeActs(names) + [WipeDone]);
    assert RowIds([]) == [];
  }

  // --- Restart ---

  function OrphanActs(names: seq<string>): seq<Act> {
    if names == [] then [] else [RemoveOrphan(names[0])] + OrphanActs(names[1..])
  }

  lemma {:induction false} OrphanSteps(cfg: S.Config, w: World, names: seq<string>)
    requires w.mode == Recovering && NoDup(names) && Elements(names) <= w.files.Keys
    requires forall n :: n in names ==> OwnerOf(n) !in w.rows
    ensures Schedule(cfg, w, OrphanActs(names))
    ensures Play(cfg, w, OrphanActs(names)) == w.(files := w.files - Elements(names))
    decreases |names|
  {
    if names == [] {
      assert w.files - Elements(names) == w.files;
    } else {
      var name, rest := names[0], names[1..];
      assert names == [name] + rest;
      NoDupCons(name, rest);
      HeadAndTail(names);
      OrphanSteps(cfg, Do(cfg, w, RemoveOrphan(name)), rest);
      OneStep(cfg, w, RemoveOrphan(name));
      ScheduleAppend(cfg, w, [RemoveOrphan(name)], OrphanActs(rest));
      RemoveTwice(w.files, {name}, Elements(rest));
    }
  }

  function Orphans(files: Disk, table: seq<Row>): set<string> {
    set n | n in files && OwnerOf(n) !in RowIds(table)
  }

  /** The process dies, leaving some of the files, and the next one removes those without an owner. */
  function RestartActs(left: Disk, names: seq<string>): seq<Act> {
    [Crash(left)] + (OrphanActs(names) + [Reopened])
  }

  /** From any moment, in any mode: what a crash leaves behind is opened as the atomic start-up opens it. */
  lemma RestartStepsAreReopen(cfg: S.Config, w: World, table: seq<Row>, left: Disk, names: seq<string>)
    requires RowsMatch(table, w.rows) && Possible(cfg, w, Crash(left)) && Enumerates(names, Orphans(left, table))
    ensures Schedule(cfg, w, RestartActs(left, names))
    ensures Projects(S.Reopen(table, left), Play(cfg, w, RestartActs(left, names)))
  {
    var w1 := Do(cfg, w, Crash(left));
    assert forall n :: n in names ==> n in Elements(names);
    assert forall id :: id in RowIds(table) <==> id in Elements(RowIds(table));
    OrphanSteps(cfg, w1, names);
    var w2 := Play(cfg, w1, OrphanActs(names));
    assert w2.files == S.Reopen(table, left).files;
    OneStep(cfg, w2, Reopened);
    ScheduleAppend(cfg, w1, OrphanActs(names), [Reopened]);
    OneStep(cfg, w, Crash(left));
    ScheduleAppend(cfg, w, [Crash(left)], OrphanActs(names) + [Reopened]);
  }
}
