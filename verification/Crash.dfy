/** The writes behind Put, AppendResponse, Finalize, retention, Clear and New, split into the steps between which the
    process may die.

    Any number of entries may be in flight and any number of rows on their way out, in any interleaving, with two
    exceptions the source does not rule out. Each entry is finalized once: its phase only moves forward, so a second
    Finalize that overlaps the first is not among the steps. And no side is written after it was closed. What goes
    wrong otherwise is stated at the end: WipedBeforeRow for a row written after its files were removed, as a second
    Finalize can, and LateWriteUnderRow for a write after Close. */
module Crashes {
  import opened Types
  import opened RowCodec
  import opened BodyBuffers
  import opened StoreSpec
  import opened Archives

  /** Where a buffer stands within one Write: at rest, its file just created, or the preview copied into it. */
  datatype Stage = AtRest | FileCreated(p: Bytes) | PreviewCopied(p: Bytes)

  /** A buffer, its place within a Write, and every byte written to it so far. */
  datatype Cell = Cell(buf: Buf, stage: Stage, total: Bytes)

  const NEW_CELL := Cell(EMPTY_BUF, AtRest, [])

  datatype Pair<T> = Pair(req: T, resp: T) {
    function Of(side: Side): T { if side == Request then req else resp }
  }

  function With<T>(pair: Pair<T>, side: Side, v: T): Pair<T> {
    if side == Request then pair.(req := v) else pair.(resp := v)
  }

  /** How far Finalize has got with an entry: it closes the request buffer, then the response buffer, and then
      writes the row. */
  datatype Phase = Open | RequestClosed | Closed | Recorded

  datatype Flight = Flight(cells: Pair<Cell>, phase: Phase) {
    predicate SideClosed(side: Side) {
      if side == Request then phase != Open else phase == Closed || phase == Recorded
    }
  }

  datatype Mode = Running | Clearing | Recovering

  /** On disk: files, those whose contents have reached the disk for good, and rows. In memory: entries in flight and
      the ids whose row was deleted and whose files are to follow. `used` and `whole` are history: the ids ever given
      out, and the full bodies of the entries recorded. */
  datatype World = World(
    files: Disk,
    synced: set<string>,
    rows: map<string, Pair<BodyColumns>>,
    mem: map<string, Flight>,
    doomed: set<string>,
    mode: Mode,
    used: set<string>,
    whole: map<string, Pair<Bytes>>)

  datatype Act =
    | Register(id: string)
    | WriteInline(id: string, side: Side, p: Bytes)
    | CreateFile(id: string, side: Side, p: Bytes)
    | CopyPreview(id: string, side: Side)
    | WriteFirst(id: string, side: Side)
    | WriteMore(id: string, side: Side, p: Bytes)
    | CloseSide(id: string, side: Side)
    | WriteRow(id: string)
    | Forget(id: string)
    | DeleteRowOf(id: string)
    | RemoveFile(id: string, side: Side)
    | WipeRows
    | WipeFile(name: string)
    | WipeDone
    | Crash(left: Disk)
    | RemoveOrphan(name: string)
    | Reopened

  predicate Writing(w: World, id: string, side: Side) {
    w.mode == Running && id in w.mem && !w.mem[id].SideClosed(side)
  }

  function NextPhase(side: Side): Phase { if side == Request then RequestClosed else Closed }

  /** No body in flight has, or is about to have, a file. */
  ghost predicate NothingSpilled(w: World) {
    forall id, side :: id in w.mem && w.mem[id].phase != Recorded ==>
      w.mem[id].cells.Of(side).buf.path == "" && w.mem[id].cells.Of(side).stage == AtRest
  }

  ghost predicate Possible(cfg: Config, w: World, act: Act) {
    match act
    case Register(id) => w.mode == Running && id != "" && id !in w.used
    case WriteInline(id, side, p) =>
      Writing(w, id, side) &&
      var c := w.mem[id].cells.Of(side);
      c.stage == AtRest && !c.buf.open && c.buf.size + |p| <= cfg.maxInline
    case CreateFile(id, side, p) =>
      Writing(w, id, side) &&
      var c := w.mem[id].cells.Of(side);
      c.stage == AtRest && !c.buf.open && p != [] && c.buf.size + |p| > cfg.maxInline
    case CopyPreview(id, side) => Writing(w, id, side) && w.mem[id].cells.Of(side).stage.FileCreated?
    case WriteFirst(id, side) => Writing(w, id, side) && w.mem[id].cells.Of(side).stage.PreviewCopied?
    case WriteMore(id, side, p) =>
      Writing(w, id, side) &&
      var c := w.mem[id].cells.Of(side);
      c.stage == AtRest && c.buf.open && p != []
    case CloseSide(id, side) =>
      && w.mode == Running && id in w.mem && w.mem[id].cells.Of(side).stage == AtRest
      && w.mem[id].phase == (if side == Request then Open else RequestClosed)
    case WriteRow(id) => w.mode == Running && id in w.mem && w.mem[id].phase == Closed
    case Forget(id) => w.mode == Running && id in w.mem && w.mem[id].phase == Recorded
    case DeleteRowOf(id) => w.mode == Running && id in w.rows
    case RemoveFile(id, _) => w.mode == Running && id in w.doomed
    case WipeRows => w.mode == Running && NothingSpilled(w)
    case WipeFile(name) => w.mode == Clearing && name in w.files
    case WipeDone => w.mode == Clearing && w.files == map[]
    case Crash(left) =>
      && left.Keys <= w.files.Keys
      && forall n :: n in w.files && n in w.synced ==> n in left && left[n] == w.files[n]
    case RemoveOrphan(name) => w.mode == Recovering && name in w.files && OwnerOf(name) !in w.rows
    case Reopened => w.mode == Recovering && forall n :: n in w.files ==> OwnerOf(n) in w.rows
  }

  /** One entry's cell replaced. */
  function SetCell(w: World, id: string, side: Side, c: Cell): World
    requires id in w.mem
  {
    w.(mem := w.mem[id := w.mem[id].(cells := With(w.mem[id].cells, side, c))])
  }

  /** The preview after p was written past it. */
  function Grown(cfg: Config, preview: Bytes, p: Bytes): Bytes {
    if cfg.maxInline > |preview| then preview + p[..Min(cfg.maxInline - |preview|, |p|)] else preview
  }

  ghost function Do(cfg: Config, w: World, act: Act): World
    requires Possible(cfg, w, act)
  {
    match act
    case Register(id) => w.(mem := w.mem[id := Flight(Pair(NEW_CELL, NEW_CELL), Open)], used := w.used + {id})
    case WriteInline(id, side, p) =>
      var c := w.mem[id].cells.Of(side);
      SetCell(w, id, side, Cell(c.buf.(preview := c.buf.preview + p, size := c.buf.size + |p|), AtRest, c.total + p))
    case CreateFile(id, side, p) =>
      var c, name := w.mem[id].cells.Of(side), BlobName(id, side);
      SetCell(w, id, side, c.(stage := FileCreated(p))).(files := w.files[name := []], synced := w.synced - {name})
    case CopyPreview(id, side) =>
      var c, name := w.mem[id].cells.Of(side), BlobName(id, side);
      SetCell(w, id, side, Cell(c.buf.(path := name, open := true), PreviewCopied(c.stage.p), c.total))
        .(files := AppendFile(w.files, name, c.buf.preview), synced := w.synced - {name})
    case WriteFirst(id, side) =>
      var c, name := w.mem[id].cells.Of(side), BlobName(id, side);
      var p := c.stage.p;
      SetCell(w, id, side, Cell(c.buf.(preview := Grown(cfg, c.buf.preview, p), size := c.buf.size + |p|), AtRest, c.total + p))
        .(files := AppendFile(w.files, name, p), synced := w.synced - {name})
    case WriteMore(id, side, p) =>
      var c, name := w.mem[id].cells.Of(side), BlobName(id, side);
      SetCell(w, id, side, Cell(c.buf.(preview := Grown(cfg, c.buf.preview, p), size := c.buf.size + |p|), AtRest, c.total + p))
        .(files := AppendFile(w.files, name, p), synced := w.synced - {name})
    case CloseSide(id, side) =>
      var c := w.mem[id].cells.Of(side);
      w.(mem := w.mem[id := Flight(With(w.mem[id].cells, side, c.(buf := BufClose(c.buf))), NextPhase(side))],
         synced := if c.buf.open then w.synced + {BlobName(id, side)} else w.synced)
    case WriteRow(id) =>
      var cells := w.mem[id].cells;
      w.(rows := w.rows[id := Pair(EncodeBody(StateOf(cells.req.buf)), EncodeBody(StateOf(cells.resp.buf)))],
         whole := w.whole[id := Pair(cells.req.total, cells.resp.total)],
         mem := w.mem[id := w.mem[id].(phase := Recorded)])
    case Forget(id) => w.(mem := w.mem - {id})
    case DeleteRowOf(id) => w.(rows := w.rows - {id}, doomed := w.doomed + {id})
    case RemoveFile(id, side) => w.(files := w.files - {BlobName(id, side)})
    case WipeRows => w.(rows := map[], doomed := w.doomed + w.rows.Keys, mode := Clearing)
    case WipeFile(name) => w.(files := w.files - {name})
    case WipeDone => w.(mode := Running)
    case Crash(left) => World(left, left.Keys, w.rows, map[], {}, Recovering, w.used, w.whole)
    case RemoveOrphan(name) => w.(files := w.files - {name})
    case Reopened => w.(mode := Running)
  }

  // --- The small steps make up the atomic operations ---

  /** Creating the file, copying the preview and writing the chunk is one Write of the buffer. */
  lemma SpillStepsAreWrite(cfg: Config, w: World, id: string, side: Side, p: Bytes)
    requires Possible(cfg, w, CreateFile(id, side, p))
    ensures var w1 := Do(cfg, w, CreateFile(id, side, p));
            Possible(cfg, w1, CopyPreview(id, side)) &&
            var w2 := Do(cfg, w1, CopyPreview(id, side));
            Possible(cfg, w2, WriteFirst(id, side)) &&
            var w3 := Do(cfg, w2, WriteFirst(id, side));
            (w3.mem[id].cells.Of(side).buf, w3.files) ==
            BufWrite(w.mem[id].cells.Of(side).buf, w.files, BlobName(id, side), cfg.maxInline, p)
  {
    var b, name := w.mem[id].cells.Of(side).buf, BlobName(id, side);
    FileCopied(w.files, name, b.preview);
  }

  lemma FileCopied(disk: Disk, name: string, preview: Bytes)
    ensures AppendFile(disk[name := []], name, preview) == disk[name := preview]
  {
    assert [] + preview == preview;
  }

  lemma OtherStepsAreWrite(cfg: Config, w: World, id: string, side: Side, p: Bytes, act: Act)
    requires act == WriteInline(id, side, p) || act == WriteMore(id, side, p)
    requires Possible(cfg, w, act)
    ensures var v := Do(cfg, w, act);
            (v.mem[id].cells.Of(side).buf, v.files) ==
            BufWrite(w.mem[id].cells.Of(side).buf, w.files, BlobName(id, side), cfg.maxInline, p)
  {
    var b := w.mem[id].cells.Of(side).buf;
    if p == [] {
      assert b.preview + p == b.preview;
    }
  }

  // --- What holds between any two steps ---

  /** A recorded side: the row describes the full body, which is inline or in its file, on disk for good. */
  ghost predicate SideStored(cfg: Config, w: World, id: string, side: Side)
    requires id in w.rows && id in w.whole
  {
    var t, name := w.whole[id].Of(side), BlobName(id, side);
    && w.rows[id].Of(side) == EncodeBody(BodyView(cfg, id, side, t))
    && FileOk(cfg, w.files, name, t)
    && (|t| > cfg.maxInline ==> name in w.synced)
  }

  /** A side in flight: the buffer and its file hold what was written so far, at each stage of a Write. */
  ghost predicate SideInFlight(cfg: Config, w: World, id: string, side: Side)
    requires id in w.mem
  {
    var c, name := w.mem[id].cells.Of(side), BlobName(id, side);
    match c.stage
    case AtRest =>
      && Holds(c.buf, w.files, name, cfg.maxInline, c.total)
      && (if w.mem[id].SideClosed(side) then !c.buf.open && (c.buf.path != "" ==> name in w.synced) else Writable(c.buf))
    case FileCreated(p) =>
      && !w.mem[id].SideClosed(side)
      && c.buf == Buf(c.total, |c.total|, "", false) && |c.total| <= cfg.maxInline < |c.total| + |p|
      && name in w.files && w.files[name] == []
    case PreviewCopied(p) =>
      && !w.mem[id].SideClosed(side)
      && c.buf == Buf(c.total, |c.total|, name, true) && |c.total| <= cfg.maxInline < |c.total| + |p|
      && name in w.files && w.files[name] == c.total
  }

  ghost predicate RowsOk(cfg: Config, w: World) {
    forall id :: id in w.rows ==>
      && id in w.whole && id in w.used && id !in w.doomed
      && (id in w.mem ==> w.mem[id].phase == Recorded)
      && SideStored(cfg, w, id, Request) && SideStored(cfg, w, id, Response)
  }

  ghost predicate FlightsOk(cfg: Config, w: World) {
    forall id :: id in w.mem ==>
      id in w.used &&
      (w.mem[id].phase != Recorded ==>
         id !in w.doomed && SideInFlight(cfg, w, id, Request) && SideInFlight(cfg, w, id, Response))
  }

  predicate NamedFor(n: string, id: string) {
    n == BlobName(id, Request) || n == BlobName(id, Response)
  }

  predicate HasOwner(w: World, id: string) {
    id in w.rows || id in w.doomed || (id in w.mem && w.mem[id].phase != Recorded)
  }

  ghost predicate FilesOk(w: World) {
    forall n :: n in w.files ==>
      NamedFor(n, OwnerOf(n)) && OwnerOf(n) in w.used && (w.mode != Recovering ==> HasOwner(w, OwnerOf(n)))
  }

  ghost predicate ModeOk(w: World) {
    && "" !in w.used
    && w.doomed <= w.used
    && (w.mode == Recovering ==> w.mem == map[] && w.doomed == {})
    && (w.mode == Clearing ==> w.rows == map[] && NothingSpilled(w))
  }

  ghost predicate Safe(cfg: Config, w: World) {
    RowsOk(cfg, w) && FlightsOk(cfg, w) && FilesOk(w) && ModeOk(w)
  }

  /** A file, and whether it has reached the disk for good, as before. */
  predicate SameAt(w: World, v: World, n: string) {
    && (n in w.files <==> n in v.files)
    && (n in w.files ==> v.files[n] == w.files[n])
    && (n in w.synced ==> n in v.synced)
  }

  lemma StoredStays(cfg: Config, w: World, v: World, id: string, side: Side)
    requires id in w.rows && id in w.whole && id in v.rows && id in v.whole
    requires v.rows[id] == w.rows[id] && v.whole[id] == w.whole[id]
    requires SideStored(cfg, w, id, side) && SameAt(w, v, BlobName(id, side))
    ensures SideStored(cfg, v, id, side)
  {
  }

  lemma InFlightStays(cfg: Config, w: World, v: World, id: string, side: Side)
    requires id in w.mem && id in v.mem
    requires v.mem[id].cells.Of(side) == w.mem[id].cells.Of(side)
    requires v.mem[id].SideClosed(side) == w.mem[id].SideClosed(side)
    requires SideInFlight(cfg, w, id, side) && SameAt(w, v, BlobName(id, side))
    ensures SideInFlight(cfg, v, id, side)
  {
  }

  /** Nothing but one body file differs. */
  ghost predicate OnlyFile(w: World, v: World, id: string, side: Side) {
    forall n :: n != BlobName(id, side) ==> SameAt(w, v, n)
  }

  lemma OthersStay(cfg: Config, w: World, v: World, id: string, side: Side, other: string, otherSide: Side)
    requires ModeOk(w) && id in w.used && other in w.used && OnlyFile(w, v, id, side)
    requires other != id || otherSide != side
    ensures SameAt(w, v, BlobName(other, otherSide))
  {
    BlobNamesDiffer(id, side, other, otherSide);
  }

  // --- Steps on one buffer ---

  ghost predicate CellChanged(w: World, v: World, id: string, side: Side) {
    && w.mode == Running && id in w.mem && id in v.mem && w.mem[id].phase != Recorded && v.mem[id].phase != Recorded
    && v == w.(files := v.files, synced := v.synced, mem := w.mem[id := v.mem[id]])
    && OnlyFile(w, v, id, side)
    && forall other :: other != side ==>
         && v.mem[id].cells.Of(other) == w.mem[id].cells.Of(other)
         && v.mem[id].SideClosed(other) == w.mem[id].SideClosed(other)
  }

  lemma RowsAfterCellChange(cfg: Config, w: World, v: World, id: string, side: Side)
    requires Safe(cfg, w) && CellChanged(w, v, id, side)
    ensures RowsOk(cfg, v)
  {
    forall other, otherSide | other in v.rows
      ensures SideStored(cfg, v, other, otherSide)
    {
      OthersStay(cfg, w, v, id, side, other, otherSide);
      StoredStays(cfg, w, v, other, otherSide);
    }
  }

  lemma FlightsAfterCellChange(cfg: Config, w: World, v: World, id: string, side: Side)
    requires Safe(cfg, w) && CellChanged(w, v, id, side) && SideInFlight(cfg, v, id, side)
    ensures FlightsOk(cfg, v)
  {
    forall other, otherSide | other in v.mem && v.mem[other].phase != Recorded
      ensures SideInFlight(cfg, v, other, otherSide)
    {
      if other != id || otherSide != side {
        OthersStay(cfg, w, v, id, side, other, otherSide);
        InFlightStays(cfg, w, v, other, otherSide);
      }
    }
  }

  lemma CellChangeIsSafe(cfg: Config, w: World, v: World, id: string, side: Side)
    requires Safe(cfg, w) && CellChanged(w, v, id, side) && SideInFlight(cfg, v, id, side)
    ensures Safe(cfg, v)
  {
    RowsAfterCellChange(cfg, w, v, id, side);
    FlightsAfterCellChange(cfg, w, v, id, side);
    FilesAfterCellChange(cfg, w, v, id, side);
  }

  lemma FilesAfterCellChange(cfg: Config, w: World, v: World, id: string, side: Side)
    requires Safe(cfg, w) && CellChanged(w, v, id, side)
    ensures FilesOk(v)
  {
    OwnerOfBlobName(id, side);
    forall n | n in v.files
      ensures NamedFor(n, OwnerOf(n)) && OwnerOf(n) in v.used && HasOwner(v, OwnerOf(n))
    {
      if n != BlobName(id, side) {
        assert SameAt(w, v, n);
      }
    }
  }

  ghost predicate IsBufferStep(act: Act) {
    act.WriteInline? || act.CreateFile? || act.CopyPreview? || act.WriteFirst? || act.WriteMore? || act.CloseSide?
  }

  lemma BufferStepTouchesOneFile(cfg: Config, w: World, act: Act)
    requires Possible(cfg, w, act) && IsBufferStep(act)
    ensures OnlyFile(w, Do(cfg, w, act), act.id, act.side)
  {
  }

  lemma BufferStepChangesCell(cfg: Config, w: World, act: Act)
    requires Possible(cfg, w, act) && IsBufferStep(act) && OnlyFile(w, Do(cfg, w, act), act.id, act.side)
    ensures CellChanged(w, Do(cfg, w, act), act.id, act.side)
  {
  }

  lemma WriteKeepsFlight(cfg: Config, w: World, act: Act)
    requires Possible(cfg, w, act) && (act.WriteInline? || act.WriteMore?)
    requires SideInFlight(cfg, w, act.id, act.side)
    ensures SideInFlight(cfg, Do(cfg, w, act), act.id, act.side)
  {
    var c := w.mem[act.id].cells.Of(act.side);
    OtherStepsAreWrite(cfg, w, act.id, act.side, act.p, act);
    WriteHolds(c.buf, w.files, BlobName(act.id, act.side), cfg.maxInline, c.total, act.p);
  }

  lemma SpillKeepsFlight(cfg: Config, w: World, act: Act)
    requires Possible(cfg, w, act) && (act.CreateFile? || act.CopyPreview? || act.WriteFirst?)
    requires SideInFlight(cfg, w, act.id, act.side)
    ensures SideInFlight(cfg, Do(cfg, w, act), act.id, act.side)
  {
    var c := w.mem[act.id].cells.Of(act.side);
    match act
    case CreateFile(_, _, p) =>
      assert c.buf.path == "";
      assert c.total[..|c.total|] == c.total;
    case CopyPreview(_, _) =>
      assert [] + c.buf.preview == c.total;
    case WriteFirst(_, _) =>
      var p := c.stage.p;
      assert Grown(cfg, c.total, p) == (c.total + p)[..cfg.maxInline];
  }

  lemma CloseKeepsFlight(cfg: Config, w: World, act: Act)
    requires Possible(cfg, w, act) && act.CloseSide?
    requires SideInFlight(cfg, w, act.id, act.side)
    ensures SideInFlight(cfg, Do(cfg, w, act), act.id, act.side)
  {
  }

  lemma BufferStepKeepsFlight(cfg: Config, w: World, act: Act)
    requires Possible(cfg, w, act) && IsBufferStep(act)
    requires SideInFlight(cfg, w, act.id, act.side)
    ensures SideInFlight(cfg, Do(cfg, w, act), act.id, act.side)
  {
    if act.WriteInline? || act.WriteMore? {
      WriteKeepsFlight(cfg, w, act);
    } else if act.CloseSide? {
      CloseKeepsFlight(cfg, w, act);
    } else {
      SpillKeepsFlight(cfg, w, act);
    }
  }

  lemma FlightOfStep(cfg: Config, w: World, act: Act)
    requires Possible(cfg, w, act) && IsBufferStep(act) && Safe(cfg, w)
    ensures SideInFlight(cfg, w, act.id, act.side)
  {
  }

  lemma BufferStepIsSafe(cfg: Config, w: World, act: Act)
    requires Possible(cfg, w, act) && IsBufferStep(act) && Safe(cfg, w)
    ensures Safe(cfg, Do(cfg, w, act))
  {
    FlightOfStep(cfg, w, act);
    BufferStepKeepsFlight(cfg, w, act);
    BufferStepTouchesOneFile(cfg, w, act);
    BufferStepChangesCell(cfg, w, act);
    CellChangeIsSafe(cfg, w, Do(cfg, w, act), act.id, act.side);
  }

  // --- Registering, recording and deleting ---

  lemma NewIdHasNoFile(cfg: Config, w: World, id: string, side: Side)
    requires FilesOk(w) && id != "" && id !in w.used
    ensures BlobName(id, side) !in w.files
  {
    OwnerOfBlobName(id, side);
  }

  lemma NewCellInFlight(cfg: Config, w: World, v: World, id: string, side: Side)
    requires FilesOk(w) && id != "" && id !in w.used && v.files == w.files
    requires id in v.mem && v.mem[id] == Flight(Pair(NEW_CELL, NEW_CELL), Open)
    ensures SideInFlight(cfg, v, id, side)
  {
    NewIdHasNoFile(cfg, w, id, side);
  }

  lemma RegisterKeepsFlights(cfg: Config, w: World, id: string)
    requires Safe(cfg, w) && Possible(cfg, w, Register(id))
    ensures FlightsOk(cfg, Do(cfg, w, Register(id)))
  {
    var v := Do(cfg, w, Register(id));
    NewCellInFlight(cfg, w, v, id, Request);
    NewCellInFlight(cfg, w, v, id, Response);
    forall other | other in w.mem && w.mem[other].phase != Recorded
      ensures SideInFlight(cfg, v, other, Request) && SideInFlight(cfg, v, other, Response)
    {
      InFlightStays(cfg, w, v, other, Request);
      InFlightStays(cfg, w, v, other, Response);
    }
  }

  lemma RegisterKeepsRest(cfg: Config, w: World, id: string)
    requires Safe(cfg, w) && Possible(cfg, w, Register(id))
    ensures var v := Do(cfg, w, Register(id)); RowsOk(cfg, v) && FilesOk(v) && ModeOk(v)
  {
    RowsStay(cfg, w, Do(cfg, w, Register(id)));
  }

  lemma RegisterIsSafe(cfg: Config, w: World, id: string)
    requires Safe(cfg, w) && Possible(cfg, w, Register(id))
    ensures Safe(cfg, Do(cfg, w, Register(id)))
  {
    RegisterKeepsFlights(cfg, w, id);
    RegisterKeepsRest(cfg, w, id);
  }

  /** Rows whose files are untouched stay whole. */
  lemma RowsStay(cfg: Config, w: World, v: World)
    requires RowsOk(cfg, w)
    requires forall id :: id in v.rows && id in w.rows ==> id in v.whole && v.rows[id] == w.rows[id] && v.whole[id] == w.whole[id]
    requires forall id :: id in v.rows && id in w.rows ==> SameAt(w, v, BlobName(id, Request)) && SameAt(w, v, BlobName(id, Response))
    ensures forall id :: id in v.rows && id in w.rows ==> SideStored(cfg, v, id, Request) && SideStored(cfg, v, id, Response)
  {
    forall id | id in v.rows && id in w.rows
      ensures SideStored(cfg, v, id, Request) && SideStored(cfg, v, id, Response)
    {
      StoredStays(cfg, w, v, id, Request);
      StoredStays(cfg, w, v, id, Response);
    }
  }

  /** Flights whose files are untouched go on. */
  lemma FlightsStay(cfg: Config, w: World, v: World)
    requires FlightsOk(cfg, w)
    requires forall id :: id in v.mem && v.mem[id].phase != Recorded ==> id in w.mem && v.mem[id] == w.mem[id]
    requires forall id :: id in v.mem && v.mem[id].phase != Recorded ==>
               SameAt(w, v, BlobName(id, Request)) && SameAt(w, v, BlobName(id, Response))
    ensures forall id :: id in v.mem && v.mem[id].phase != Recorded ==>
              SideInFlight(cfg, v, id, Request) && SideInFlight(cfg, v, id, Response)
  {
    forall id | id in v.mem && v.mem[id].phase != Recorded
      ensures SideInFlight(cfg, v, id, Request) && SideInFlight(cfg, v, id, Response)
    {
      InFlightStays(cfg, w, v, id, Request);
      InFlightStays(cfg, w, v, id, Response);
    }
  }

  /** Neither is affected by a step that leaves the disk alone. */
  lemma DiskUntouched(cfg: Config, w: World, v: World)
    requires RowsOk(cfg, w) && FlightsOk(cfg, w) && v.files == w.files && v.synced == w.synced
    requires forall id :: id in v.rows && id in w.rows ==> id in v.whole && v.rows[id] == w.rows[id] && v.whole[id] == w.whole[id]
    requires forall id :: id in v.mem && v.mem[id].phase != Recorded ==> id in w.mem && v.mem[id] == w.mem[id]
    ensures forall id :: id in v.rows && id in w.rows ==> SideStored(cfg, v, id, Request) && SideStored(cfg, v, id, Response)
    ensures forall id :: id in v.mem && v.mem[id].phase != Recorded ==>
              SideInFlight(cfg, v, id, Request) && SideInFlight(cfg, v, id, Response)
  {
    assert forall n :: SameAt(w, v, n);
    RowsStay(cfg, w, v);
    FlightsStay(cfg, w, v);
  }

  lemma ClosedIsStored(cfg: Config, w: World, v: World, id: string, side: Side)
    requires id in w.mem && w.mem[id].phase == Closed && SideInFlight(cfg, w, id, side)
    requires id in v.rows && id in v.whole && v.files == w.files && v.synced == w.synced
    requires v.rows[id].Of(side) == EncodeBody(StateOf(w.mem[id].cells.Of(side).buf))
    requires v.whole[id].Of(side) == w.mem[id].cells.Of(side).total
    ensures SideStored(cfg, v, id, side)
  {
    BodyViewMatches(cfg, id, side, v.whole[id].Of(side));
  }

  lemma WrittenRowStored(cfg: Config, w: World, id: string)
    requires Safe(cfg, w) && Possible(cfg, w, WriteRow(id))
    ensures var v := Do(cfg, w, WriteRow(id));
            SideStored(cfg, v, id, Request) && SideStored(cfg, v, id, Response)
  {
    var v := Do(cfg, w, WriteRow(id));
    assert SideInFlight(cfg, w, id, Request) && SideInFlight(cfg, w, id, Response);
    ClosedIsStored(cfg, w, v, id, Request);
    ClosedIsStored(cfg, w, v, id, Response);
  }

  lemma WriteRowKeepsRows(cfg: Config, w: World, id: string)
    requires Safe(cfg, w) && Possible(cfg, w, WriteRow(id))
    ensures RowsOk(cfg, Do(cfg, w, WriteRow(id)))
  {
    DiskUntouched(cfg, w, Do(cfg, w, WriteRow(id)));
    WrittenRowStored(cfg, w, id);
  }

  lemma WriteRowKeepsFlights(cfg: Config, w: World, id: string)
    requires Safe(cfg, w) && Possible(cfg, w, WriteRow(id))
    ensures FlightsOk(cfg, Do(cfg, w, WriteRow(id)))
  {
    DiskUntouched(cfg, w, Do(cfg, w, WriteRow(id)));
  }

  lemma WriteRowKeepsFiles(cfg: Config, w: World, id: string)
    requires FilesOk(w) && ModeOk(w) && Possible(cfg, w, WriteRow(id))
    ensures FilesOk(Do(cfg, w, WriteRow(id))) && ModeOk(Do(cfg, w, WriteRow(id)))
  {
  }

  lemma WriteRowIsSafe(cfg: Config, w: World, id: string)
    requires Safe(cfg, w) && Possible(cfg, w, WriteRow(id))
    ensures Safe(cfg, Do(cfg, w, WriteRow(id)))
  {
    WriteRowKeepsRows(cfg, w, id);
    WriteRowKeepsFlights(cfg, w, id);
    WriteRowKeepsFiles(cfg, w, id);
  }

  /** Removing one file: safe when its owner has no row and no body in flight. */
  lemma RemovalIsSafe(cfg: Config, w: World, v: World, name: string)
    requires Safe(cfg, w) && v == w.(files := w.files - {name})
    requires OwnerOf(name) !in w.rows
    requires OwnerOf(name) in w.mem ==> w.mem[OwnerOf(name)].phase == Recorded
    ensures Safe(cfg, v)
  {
    forall id, side: Side | id in w.used && id != OwnerOf(name)
      ensures SameAt(w, v, BlobName(id, side))
    {
      OwnerOfBlobName(id, side);
    }
    RowsStay(cfg, w, v);
    FlightsStay(cfg, w, v);
  }

  /** While Clear removes files, no body in flight has one. */
  lemma WipeIsSafe(cfg: Config, w: World, name: string)
    requires Safe(cfg, w) && Possible(cfg, w, WipeFile(name))
    ensures Safe(cfg, Do(cfg, w, WipeFile(name)))
  {
    var v := Do(cfg, w, WipeFile(name));
    forall id, side | id in w.mem && w.mem[id].phase != Recorded
      ensures SameAt(w, v, BlobName(id, side))
    {
      var c := w.mem[id].cells.Of(side);
      assert c.buf.path == "" && c.stage == AtRest;
      assert |BlobName(id, side)| > 0;
      assert BlobName(id, side) !in w.files;
    }
    FlightsStay(cfg, w, v);
  }

  lemma CrashIsSafe(cfg: Config, w: World, left: Disk)
    requires Safe(cfg, w) && Possible(cfg, w, Crash(left))
    ensures Safe(cfg, Do(cfg, w, Crash(left)))
  {
    var v := Do(cfg, w, Crash(left));
    forall id, side | id in w.rows
      ensures SideStored(cfg, v, id, side)
    {
      assert SideStored(cfg, w, id, side);
    }
  }

  lemma ForgetIsSafe(cfg: Config, w: World, id: string)
    requires Safe(cfg, w) && Possible(cfg, w, Forget(id))
    ensures Safe(cfg, Do(cfg, w, Forget(id)))
  {
    DiskUntouched(cfg, w, Do(cfg, w, Forget(id)));
  }

  lemma DeleteRowIsSafe(cfg: Config, w: World, id: string)
    requires Safe(cfg, w) && Possible(cfg, w, DeleteRowOf(id))
    ensures Safe(cfg, Do(cfg, w, DeleteRowOf(id)))
  {
    DiskUntouched(cfg, w, Do(cfg, w, DeleteRowOf(id)));
  }

  lemma WipeRowsIsSafe(cfg: Config, w: World)
    requires Safe(cfg, w) && Possible(cfg, w, WipeRows)
    ensures Safe(cfg, Do(cfg, w, WipeRows))
  {
    DiskUntouched(cfg, w, Do(cfg, w, WipeRows));
  }

  /** Start-up and Clear end by changing the mode alone. */
  lemma ModeStepIsSafe(cfg: Config, w: World, act: Act)
    requires Safe(cfg, w) && Possible(cfg, w, act) && (act == WipeDone || act == Reopened)
    ensures Safe(cfg, Do(cfg, w, act))
  {
    DiskUntouched(cfg, w, Do(cfg, w, act));
  }

  lemma StepIsSafe(cfg: Config, w: World, act: Act)
    requires Safe(cfg, w) && Possible(cfg, w, act)
    ensures Safe(cfg, Do(cfg, w, act))
  {
    if IsBufferStep(act) {
      BufferStepIsSafe(cfg, w, act);
    } else {
      match act
      case Register(id) => RegisterIsSafe(cfg, w, id);
      case WriteRow(id) => WriteRowIsSafe(cfg, w, id);
      case RemoveFile(id, side) =>
        OwnerOfBlobName(id, side);
        RemovalIsSafe(cfg, w, Do(cfg, w, act), BlobName(id, side));
      case RemoveOrphan(name) => RemovalIsSafe(cfg, w, Do(cfg, w, act), name);
      case WipeFile(name) => WipeIsSafe(cfg, w, name);
      case Crash(left) => CrashIsSafe(cfg, w, left);
      case Forget(id) => ForgetIsSafe(cfg, w, id);
      case DeleteRowOf(id) => DeleteRowIsSafe(cfg, w, id);
      case WipeRows => WipeRowsIsSafe(cfg, w);
      case _ => ModeStepIsSafe(cfg, w, act);
    }
  }

  // --- Every run with crashes anywhere ---

  ghost predicate Schedule(cfg: Config, w: World, acts: seq<Act>)
    decreases |acts|
  {
    acts == [] || (Possible(cfg, w, acts[0]) && Schedule(cfg, Do(cfg, w, acts[0]), acts[1..]))
  }

  ghost function Play(cfg: Config, w: World, acts: seq<Act>): World
    requires Schedule(cfg, w, acts)
    decreases |acts|
  {
    if acts == [] then w else Play(cfg, Do(cfg, w, acts[0]), acts[1..])
  }

  lemma {:induction false} PlayIsSafe(cfg: Config, w: World, acts: seq<Act>)
    requires Safe(cfg, w) && Schedule(cfg, w, acts)
    ensures Safe(cfg, Play(cfg, w, acts))
    decreases |acts|
  {
    if acts != [] {
      StepIsSafe(cfg, w, acts[0]);
      PlayIsSafe(cfg, Do(cfg, w, acts[0]), acts[1..]);
    }
  }

  const EMPTY_WORLD := World(map[], {}, map[], map[], {}, Running, {}, map[])

  /** Reading a recorded side: through its file if it names one, else from the row. */
  function ReadRow(w: World, id: string, side: Side): Result<Bytes>
    requires id in w.rows
  {
    var b := DecodeBody(w.rows[id].Of(side));
    if b.path == "" then Ok(b.bytes)
    else if b.path in w.files then Ok(w.files[b.path])
    else Err(FileMissing)
  }

  /** At every moment, mid-operation, after any number of crashes and even before the start-up has finished, each row
      gives back the full bodies captured, with their sizes. */
  lemma RowsAlwaysWhole(cfg: Config, acts: seq<Act>, id: string, side: Side)
    requires Schedule(cfg, EMPTY_WORLD, acts)
    ensures var w := Play(cfg, EMPTY_WORLD, acts);
            id in w.rows ==>
              && id in w.whole
              && ReadRow(w, id, side) == Ok(w.whole[id].Of(side))
              && w.rows[id].Of(side).size == |w.whole[id].Of(side)|
              && (w.rows[id].Of(side).path.Some? <==> |w.whole[id].Of(side)| > cfg.maxInline)
  {
    PlayIsSafe(cfg, EMPTY_WORLD, acts);
    var w := Play(cfg, EMPTY_WORLD, acts);
    if id in w.rows {
      var t := w.whole[id].Of(side);
      assert SideStored(cfg, w, id, side);
      BodyViewMatches(cfg, id, side, t);
      BodyRoundTrip(BodyView(cfg, id, side, t));
      assert |t| <= cfg.maxInline ==> t[..Min(|t|, cfg.maxInline)] == t;
    }
  }

  /** Right after a start-up, the files left are exactly the spilled sides of the rows. */
  lemma StartUpLeavesNoOrphan(cfg: Config, acts: seq<Act>, name: string)
    requires Schedule(cfg, EMPTY_WORLD, acts) && Possible(cfg, Play(cfg, EMPTY_WORLD, acts), Reopened)
    ensures var w := Do(cfg, Play(cfg, EMPTY_WORLD, acts), Reopened);
            name in w.files <==>
            exists id, side :: id in w.rows && w.rows[id].Of(side).path.Some? && name == BlobName(id, side)
  {
    var w := Do(cfg, Play(cfg, EMPTY_WORLD, acts), Reopened);
    PlayIsSafe(cfg, EMPTY_WORLD, acts);
    StepIsSafe(cfg, Play(cfg, EMPTY_WORLD, acts), Reopened);
    forall id, side | id in w.rows
      ensures BlobName(id, side) in w.files <==> w.rows[id].Of(side).path.Some?
    {
      assert SideStored(cfg, w, id, side);
      BodyViewMatches(cfg, id, side, w.whole[id].Of(side));
    }
    if name in w.files {
      var id := OwnerOf(name);
      var side := if name == BlobName(id, Request) then Request else Response;
      assert id in w.rows && name == BlobName(id, side);
    }
  }

  /** Why Clear must not run while a body in flight has spilled: had all files been removed between the closing of the
      buffers and the row, the row would still be written, and could be read back exactly if the body was inline. */
  lemma WipedBeforeRow(cfg: Config, w: World, id: string, side: Side)
    requires Safe(cfg, w) && Possible(cfg, w, WriteRow(id))
    ensures var wiped := w.(rows := map[], files := map[]);
            Possible(cfg, wiped, WriteRow(id)) &&
            var v := Do(cfg, wiped, WriteRow(id));
            ReadRow(v, id, side) ==
            if |v.whole[id].Of(side)| <= cfg.maxInline then Ok(v.whole[id].Of(side)) else Err(FileMissing)
  {
    var t := w.mem[id].cells.Of(side).total;
    var b := w.mem[id].cells.Of(side).buf;
    assert SideInFlight(cfg, w, id, Request) && SideInFlight(cfg, w, id, Response);
    assert StateOf(b) == BodyView(cfg, id, side, t);
    BodyViewMatches(cfg, id, side, t);
    BodyRoundTrip(StateOf(b));
    assert |t| <= cfg.maxInline ==> t[..Min(|t|, cfg.maxInline)] == t;
  }

  /** The closed buffer a recorded side came from. */
  function ClosedBuf(cfg: Config, id: string, side: Side, t: Bytes): Buf {
    var b := BodyView(cfg, id, side, t);
    Buf(b.bytes, |t|, b.path, false)
  }

  lemma RestartedFile(preview: Bytes, rest: Bytes, p: Bytes)
    ensures preview + p == preview + rest <==> p == rest
  {
    if preview + p == preview + rest {
      assert p == (preview + p)[|preview|..];
      assert rest == (preview + rest)[|preview|..];
    }
  }

  /** What such a write does to the file of the row. */
  lemma LateWriteFile(cfg: Config, files: Disk, id: string, side: Side, t: Bytes, p: Bytes)
    requires FileOk(cfg, files, BlobName(id, side), t) && |t| > cfg.maxInline
    ensures var name := BlobName(id, side);
            var late := BufWrite(ClosedBuf(cfg, id, side, t), files, name, cfg.maxInline, p).1;
            && name in late
            && (late[name] == t <==> p == [] || p == t[cfg.maxInline..])
  {
    var preview, rest := t[..cfg.maxInline], t[cfg.maxInline..];
    assert t == preview + rest;
    RestartedFile(preview, rest, p);
  }

  /** Reading a row back depends on its file alone, and on nothing but the row if the body is inline. */
  lemma RowReads(cfg: Config, w: World, id: string, side: Side, files: Disk)
    requires Safe(cfg, w) && id in w.rows
    ensures var t, name := w.whole[id].Of(side), BlobName(id, side);
            ReadRow(w.(files := files), id, side) ==
            if |t| <= cfg.maxInline then Ok(t) else if name in files then Ok(files[name]) else Err(FileMissing)
  {
    var t := w.whole[id].Of(side);
    assert SideStored(cfg, w, id, side);
    BodyViewMatches(cfg, id, side, t);
    BodyRoundTrip(BodyView(cfg, id, side, t));
    assert |t| <= cfg.maxInline ==> t[..Min(|t|, cfg.maxInline)] == t;
  }

  /** Why a buffer must not be written once it was closed: a write that reaches a spilled one starts its file anew
      from the preview, so the row that names the file gives back the recorded body exactly if nothing was written,
      the body was inline, or the bytes happen to be those after the preview. */
  lemma LateWriteUnderRow(cfg: Config, w: World, id: string, side: Side, p: Bytes)
    requires Safe(cfg, w) && id in w.rows
    ensures var t := w.whole[id].Of(side);
            var late := BufWrite(ClosedBuf(cfg, id, side, t), w.files, BlobName(id, side), cfg.maxInline, p).1;
            ReadRow(w.(files := late), id, side) == Ok(t) <==> p == [] || |t| <= cfg.maxInline || p == t[cfg.maxInline..]
  {
    var t := w.whole[id].Of(side);
    var late := BufWrite(ClosedBuf(cfg, id, side, t), w.files, BlobName(id, side), cfg.maxInline, p).1;
    RowReads(cfg, w, id, side, late);
    assert SideStored(cfg, w, id, side);
    if |t| > cfg.maxInline {
      LateWriteFile(cfg, w.files, id, side, t, p);
    }
  }
}
