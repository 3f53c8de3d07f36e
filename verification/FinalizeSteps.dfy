/** The small steps of Finalize, taken in order and undisturbed, are the atomic operation. */
module FinalizeSteps {
  import opened Types
  import opened RowCodec
  import opened BodyBuffers
  import opened Memory
  import opened Database
  import opened Crashes
  import S = StoreSpec

  function ColumnsOf(r: Row): Pair<BodyColumns> { Pair(r.request, r.response) }

  /** The body columns of the table, by id. */
  ghost predicate RowsMatch(t: seq<Row>, rows: map<string, Pair<BodyColumns>>) {
    && rows.Keys == Elements(RowIds(t))
    && forall i :: 0 <= i < |t| ==> t[i].id in rows && rows[t[i].id] == ColumnsOf(t[i])
  }

  ghost predicate AtRestWith(f: Flight, l: Live) {
    f.phase == Open && f.cells.req.stage == AtRest && f.cells.resp.stage == AtRest
    && f.cells.req.buf == l.req && f.cells.resp.buf == l.resp
  }

  /** The small-step world between operations, seen as an atomic state: the same files, the same body columns, and the
      same buffers at rest. */
  ghost predicate Projects(s: S.State, w: World) {
    && w.mode == Running
    && w.files == s.files
    && RowsMatch(s.table, w.rows)
    && w.mem.Keys == s.mem.Keys
    && forall id :: id in s.mem ==> AtRestWith(w.mem[id], s.mem[id])
  }

  lemma {:induction false} ScheduleAppend(cfg: S.Config, w: World, a: seq<Act>, b: seq<Act>)
    requires Schedule(cfg, w, a) && Schedule(cfg, Play(cfg, w, a), b)
    ensures Schedule(cfg, w, a + b) && Play(cfg, w, a + b) == Play(cfg, Play(cfg, w, a), b)
    decreases |a|
  {
    if a == [] {
      assert a + b == b;
    } else {
      assert (a + b)[0] == a[0] && (a + b)[1..] == a[1..] + b;
      ScheduleAppend(cfg, Do(cfg, w, a[0]), a[1..], b);
    }
  }

  lemma OneStep(cfg: S.Config, w: World, act: Act)
    requires Possible(cfg, w, act)
    ensures Schedule(cfg, w, [act]) && Play(cfg, w, [act]) == Do(cfg, w, act)
  {
    var rest: seq<Act> := [act][1..];
    assert rest == [];
    assert Play(cfg, Do(cfg, w, act), rest) == Do(cfg, w, act);
  }

  // --- From memory to the table ---

  /** Close both buffers, write the row, drop the memory copy. */
  function MoveActs(id: string): seq<Act> {
    [CloseSide(id, Request), CloseSide(id, Response)] + [WriteRow(id), Forget(id)]
  }

  lemma CloseSteps(cfg: S.Config, w: World, id: string, l: Live)
    requires w.mode == Running && id in w.mem && AtRestWith(w.mem[id], l)
    ensures var acts := [CloseSide(id, Request), CloseSide(id, Response)];
            Schedule(cfg, w, acts) &&
            var v := Play(cfg, w, acts);
            && id in v.mem && v.mem[id].phase == Closed
            && v.mem[id].cells.req.buf == BufClose(l.req) && v.mem[id].cells.resp.buf == BufClose(l.resp)
            && v == w.(mem := w.mem[id := v.mem[id]], synced := v.synced)
  {
    var w1 := Do(cfg, w, CloseSide(id, Request));
    var w2 := Do(cfg, w1, CloseSide(id, Response));
    OneStep(cfg, w, CloseSide(id, Request));
    OneStep(cfg, w1, CloseSide(id, Response));
    ScheduleAppend(cfg, w, [CloseSide(id, Request)], [CloseSide(id, Response)]);
    assert [CloseSide(id, Request)] + [CloseSide(id, Response)] == [CloseSide(id, Request), CloseSide(id, Response)];
    assert w2.mem == w.mem[id := w2.mem[id]];
  }

  lemma RecordSteps(cfg: S.Config, w: World, id: string)
    requires w.mode == Running && id in w.mem && w.mem[id].phase == Closed
    ensures var acts := [WriteRow(id), Forget(id)];
            Schedule(cfg, w, acts) &&
            var v := Play(cfg, w, acts);
            var cells := w.mem[id].cells;
            && v.mode == Running && v.files == w.files && v.mem == w.mem - {id} && v.doomed == w.doomed
            && v.rows == w.rows[id := Pair(EncodeBody(StateOf(cells.req.buf)), EncodeBody(StateOf(cells.resp.buf)))]
  {
    var w1 := Do(cfg, w, WriteRow(id));
    OneStep(cfg, w, WriteRow(id));
    OneStep(cfg, w1, Forget(id));
    ScheduleAppend(cfg, w, [WriteRow(id)], [Forget(id)]);
    assert [WriteRow(id)] + [Forget(id)] == [WriteRow(id), Forget(id)];
    assert w1.mem - {id} == w.mem - {id};
  }

  lemma InsertMatches(t: seq<Row>, rows: map<string, Pair<BodyColumns>>, k: nat, r: Row)
    requires RowsMatch(t, rows) && k <= |t| && r.id !in RowIds(t)
    requires Elements(RowIds(InsertAt(t, k, r))) == Elements(RowIds(t)) + {r.id}
    ensures RowsMatch(InsertAt(t, k, r), rows[r.id := ColumnsOf(r)])
  {
    var u := InsertAt(t, k, r);
    forall i | 0 <= i < |u|
      ensures u[i].id in rows[r.id := ColumnsOf(r)] && rows[r.id := ColumnsOf(r)][u[i].id] == ColumnsOf(u[i])
    {
      if i != k {
        var j := if i < k then i else i - 1;
        assert u[i] == t[j] && RowIds(t)[j] == t[j].id;
      }
    }
  }

  lemma MoveStepsAreMove(cfg: S.Config, s: S.State, w: World, id: string, fn: Edit, now: int)
    requires S.Inv(s) && Projects(s, w) && id in s.mem
    ensures Schedule(cfg, w, MoveActs(id))
    ensures Projects(S.MoveToTable(s, id, fn, now), Play(cfg, w, MoveActs(id)))
  {
    var close := [CloseSide(id, Request), CloseSide(id, Response)];
    CloseSteps(cfg, w, id, s.mem[id]);
    var w1 := Play(cfg, w, close);
    RecordSteps(cfg, w1, id);
    ScheduleAppend(cfg, w, close, [WriteRow(id), Forget(id)]);
    MovedProjects(cfg, s, w, id, fn, now, Play(cfg, w, MoveActs(id)));
  }

  lemma MovedProjects(cfg: S.Config, s: S.State, w: World, id: string, fn: Edit, now: int, v: World)
    requires S.Inv(s) && Projects(s, w) && id in s.mem
    requires v.mode == Running && v.files == w.files && v.mem == w.mem - {id}
    requires v.rows == w.rows[id := Pair(EncodeBody(StateOf(BufClose(s.mem[id].req))), EncodeBody(StateOf(BufClose(s.mem[id].resp))))]
    ensures Projects(S.MoveToTable(s, id, fn, now), v)
  {
    var k, r := S.MovedTable(s, id, fn, now);
    InsertMatches(s.table, w.rows, k, r);
  }

  // --- Retention ---

  function DeleteActs(victims: seq<string>): seq<Act> {
    if victims == [] then [] else [DeleteRowOf(victims[0])] + DeleteActs(victims[1..])
  }

  function RemoveActs(victims: seq<string>): seq<Act> {
    if victims == [] then []
    else [RemoveFile(victims[0], Request), RemoveFile(victims[0], Response)] + RemoveActs(victims[1..])
  }

  lemma {:induction false} DeleteSteps(cfg: S.Config, w: World, victims: seq<string>)
    requires w.mode == Running && NoDup(victims) && Elements(victims) <= w.rows.Keys
    ensures Schedule(cfg, w, DeleteActs(victims))
    ensures Play(cfg, w, DeleteActs(victims)) ==
            w.(rows := w.rows - Elements(victims), doomed := w.doomed + Elements(victims))
    decreases |victims|
  {
    if victims == [] {
      assert w.rows - Elements(victims) == w.rows && w.doomed + Elements(victims) == w.doomed;
    } else {
      var id, rest := victims[0], victims[1..];
      var w1 := Do(cfg, w, DeleteRowOf(id));
      assert victims == [id] + rest;
      NoDupCons(id, rest);
      HeadAndTail(victims);
      DeleteSteps(cfg, w1, rest);
      OneStep(cfg, w, DeleteRowOf(id));
      ScheduleAppend(cfg, w, [DeleteRowOf(id)], DeleteActs(rest));
      RemoveTwice(w.rows, {id}, Elements(rest));
      assert w.doomed + {id} + Elements(rest) == w.doomed + Elements(victims);
    }
  }

  lemma BlobsOfCons(victims: seq<string>)
    requires victims != []
    ensures S.BlobsOf(victims) ==
            {BlobName(victims[0], Request), BlobName(victims[0], Response)} + S.BlobsOf(victims[1..])
  {
    var rest := victims[1..];
    forall n | n in S.BlobsOf(victims)
      ensures n in {BlobName(victims[0], Request), BlobName(victims[0], Response)} + S.BlobsOf(rest)
    {
      var i: nat, side: Side :| i < |victims| && n == BlobName(victims[i], side);
      if i > 0 {
        assert n == BlobName(rest[i - 1], side);
      }
    }
    forall n | n in S.BlobsOf(rest)
      ensures n in S.BlobsOf(victims)
    {
      var i: nat, side: Side :| i < |rest| && n == BlobName(rest[i], side);
      assert n == BlobName(victims[i + 1], side);
    }
  }

  lemma RemovePair(cfg: S.Config, w: World, id: string)
    requires w.mode == Running && id in w.doomed
    ensures var acts := [RemoveFile(id, Request), RemoveFile(id, Response)];
            && Schedule(cfg, w, acts)
            && Play(cfg, w, acts) == w.(files := w.files - {BlobName(id, Request), BlobName(id, Response)})
  {
    var w1 := Do(cfg, w, RemoveFile(id, Request));
    OneStep(cfg, w, RemoveFile(id, Request));
    OneStep(cfg, w1, RemoveFile(id, Response));
    ScheduleAppend(cfg, w, [RemoveFile(id, Request)], [RemoveFile(id, Response)]);
    assert [RemoveFile(id, Request)] + [RemoveFile(id, Response)] == [RemoveFile(id, Request), RemoveFile(id, Response)];
    RemoveTwice(w.files, {BlobName(id, Request)}, {BlobName(id, Response)});
    assert {BlobName(id, Request)} + {BlobName(id, Response)} == {BlobName(id, Request), BlobName(id, Response)};
  }

  lemma {:induction false} RemoveSteps(cfg: S.Config, w: World, victims: seq<string>)
    requires w.mode == Running && Elements(victims) <= w.doomed
    ensures Schedule(cfg, w, RemoveActs(victims))
    ensures Play(cfg, w, RemoveActs(victims)) == w.(files := w.files - S.BlobsOf(victims))
    decreases |victims|
  {
    if victims == [] {
      assert w.files - S.BlobsOf(victims) == w.files;
    } else {
      var id, rest := victims[0], victims[1..];
      var pair := [RemoveFile(id, Request), RemoveFile(id, Response)];
      HeadAndTail(victims);
      RemovePair(cfg, w, id);
      RemoveSteps(cfg, Play(cfg, w, pair), rest);
      ScheduleAppend(cfg, w, pair, RemoveActs(rest));
      BlobsOfCons(victims);
      RemoveTwice(w.files, {BlobName(id, Request), BlobName(id, Response)}, S.BlobsOf(rest));
    }
  }

  lemma KeptMatches(t: seq<Row>, rows: map<string, Pair<BodyColumns>>, k: nat)
    requires RowsMatch(t, rows) && NoDup(RowIds(t)) && k <= |t|
    ensures RowsMatch(t[..k], rows - Elements(RowIds(t)[k..]))
  {
    var ids := RowIds(t);
    assert RowIds(t[..k]) == ids[..k];
    SplitIds(ids, k);
    assert forall i :: 0 <= i < k ==> ids[..k][i] in Elements(ids[..k]);
  }

  lemma TrimStepsAreTrim(cfg: S.Config, s: S.State, w: World)
    requires S.Inv(s) && Projects(s, w)
    ensures var victims := S.Victims(cfg, s);
            && Schedule(cfg, w, DeleteActs(victims) + RemoveActs(victims))
            && Projects(S.Trim(cfg, s), Play(cfg, w, DeleteActs(victims) + RemoveActs(victims)))
  {
    var victims, ids := S.Victims(cfg, s), RowIds(s.table);
    var k := Min(cfg.maxEntries, |s.table|);
    assert victims == ids[k..];
    SplitIds(ids, k);
    DeleteSteps(cfg, w, victims);
    var w1 := Play(cfg, w, DeleteActs(victims));
    RemoveSteps(cfg, w1, victims);
    ScheduleAppend(cfg, w, DeleteActs(victims), RemoveActs(victims));
    KeptMatches(s.table, w.rows, k);
  }

  // --- Finalize ---

  /** The steps of one Finalize: the move to the table, then every victim's row, then every victim's files. */
  function FinalizeActs(cfg: S.Config, s: S.State, id: string, fn: Edit, now: int): seq<Act>
    requires id in s.mem
  {
    var victims := S.Victims(cfg, S.MoveToTable(s, id, fn, now));
    MoveActs(id) + (DeleteActs(victims) + RemoveActs(victims))
  }

  /** Undisturbed, they lead from a world that projects to a state to one that projects to the state after the atomic
      Finalize. */
  lemma FinalizeStepsAreFinalize(cfg: S.Config, s: S.State, w: World, id: string, fn: Edit, now: int)
    requires S.Inv(s) && Projects(s, w) && id in s.mem
    ensures Schedule(cfg, w, FinalizeActs(cfg, s, id, fn, now))
    ensures Projects(S.Finalize(cfg, s, id, fn, now), Play(cfg, w, FinalizeActs(cfg, s, id, fn, now)))
  {
    var s1 := S.MoveToTable(s, id, fn, now);
    var victims := S.Victims(cfg, s1);
    MoveStepsAreMove(cfg, s, w, id, fn, now);
    S.MoveKeepsInv(s, id, fn, now);
    TrimStepsAreTrim(cfg, s1, Play(cfg, w, MoveActs(id)));
    ScheduleAppend(cfg, w, MoveActs(id), DeleteActs(victims) + RemoveActs(victims));
  }
}
