/** Finalize, Get, List and Clear split where they take a lock or reach the database, in any interleaving. */
module Interleaving {
  import opened Types
  import opened RowCodec
  import opened Database

  /** How far one call has got.

      A Finalize is Begun once it found its entry in memory; it then inserts its row, drops the memory copy, asks for
      the rows beyond the cap and deletes them one by one. `inserted` and `asked` are the times of the insert and of
      the query, `kept` the ids the query left alone.

      A Get is Looking until it has tried memory, then Missed until it has tried the table; `known` records whether
      a Put of the id had returned when it began. */
  datatype Call =
    | Begun(id: string)
    | Inserted(id: string, inserted: nat)
    | Dropped(id: string, inserted: nat)
    | Trimming(id: string, inserted: nat, asked: nat, kept: set<string>, todo: seq<string>)
    | Finished(id: string, inserted: nat, asked: nat)
    | Looking(id: string, known: bool)
    | Missed(id: string, known: bool)
    | Answered(id: string, known: bool, found: bool)
  {
    predicate HasRow() { Inserted? || Dropped? || Trimming? || Finished? }

    /** A Finalize that has written its row and not finished trimming. */
    predicate Active() { Inserted? || Dropped? || Trimming? }
  }

  /** A List call after it read the table, and after it read memory: the ids it came across. */
  datatype ListCall = Scanned(seen: set<string>) | Listed(ids: set<string>)

  /** A Clear call after it asked for the ids of the rows, and after it deleted every row: the ids it will announce, and
      those whose row it deleted. */
  datatype ClearCall = AskedIds(ids: set<string>) | Wiped(announced: set<string>, deleted: set<string>)

  /** Pending ids, table rows and the calls so far. `put` and `gone` are the ids ever registered and those whose row
      retention or Clear deleted; `now` counts steps; `since` and `base` are the query time and the kept ids of the
      finished Finalize that asked last (at first, time 0 and the rows found at the start, `start` of them). */
  datatype World = World(
    mem: set<string>,
    rows: seq<Row>,
    calls: map<nat, Call>,
    lists: map<nat, ListCall>,
    clears: map<nat, ClearCall>,
    put: set<string>,
    gone: set<string>,
    now: nat,
    since: nat,
    base: set<string>,
    start: nat)

  datatype Act =
    | Register(id: string)
    | BeginFinalize(k: nat, id: string)
    | InsertStep(k: nat, row: Row)
    | DropStep(k: nat)
    | AskStep(k: nat)
    | DeleteStep(k: nat)
    | FinishStep(k: nat)
    | ListIdsStep(k: nat)
    | WipeStep(k: nat)
    | BeginGet(k: nat, id: string)
    | LookStep(k: nat)
    | ReadStep(k: nat)
    | ScanStep(k: nat)
    | MergeStep(k: nat)

  function Held(w: World): set<string> { Elements(RowIds(w.rows)) }

  predicate Possible(w: World, act: Act) {
    match act
    case Register(_) => true
    case BeginFinalize(k, id) => k !in w.calls && id in w.mem
    case InsertStep(k, row) => k in w.calls && w.calls[k].Begun? && row.id == w.calls[k].id
    case DropStep(k) => k in w.calls && w.calls[k].Inserted?
    case AskStep(k) => k in w.calls && w.calls[k].Dropped?
    case DeleteStep(k) => k in w.calls && w.calls[k].Trimming? && w.calls[k].todo != []
    case FinishStep(k) => k in w.calls && w.calls[k].Trimming? && w.calls[k].todo == []
    case ListIdsStep(k) => k !in w.clears
    case WipeStep(k) => k in w.clears && w.clears[k].AskedIds?
    case BeginGet(k, _) => k !in w.calls
    case LookStep(k) => k in w.calls && w.calls[k].Looking?
    case ReadStep(k) => k in w.calls && w.calls[k].Missed?
    case ScanStep(k) => k !in w.lists
    case MergeStep(k) => k in w.lists && w.lists[k].Scanned?
  }

  function Do(maxEntries: nat, w: World, act: Act): World
    requires Possible(w, act)
  {
    var t := w.now;
    var v := w.(now := t + 1);
    match act
    case Register(id) => v.(mem := w.mem + {id}, put := w.put + {id})
    case BeginFinalize(k, id) => v.(calls := w.calls[k := Begun(id)])
    case InsertStep(k, row) => v.(rows := InsertRow(w.rows, row), calls := w.calls[k := Inserted(row.id, t)])
    case DropStep(k) =>
      var c := w.calls[k];
      v.(mem := w.mem - {c.id}, calls := w.calls[k := Dropped(c.id, c.inserted)])
    case AskStep(k) =>
      var c := w.calls[k];
      v.(calls := w.calls[k := Trimming(c.id, c.inserted, t, Elements(RowIds(Kept(w.rows, maxEntries))),
                                        Overflow(w.rows, maxEntries))])
    case DeleteStep(k) =>
      var c := w.calls[k];
      v.(rows := DeleteRow(w.rows, c.todo[0]),
         gone := if c.todo[0] in RowIds(w.rows) then w.gone + {c.todo[0]} else w.gone,
         calls := w.calls[k := c.(todo := c.todo[1..])])
    case FinishStep(k) =>
      var c := w.calls[k];
      v.(calls := w.calls[k := Finished(c.id, c.inserted, c.asked)],
         since := if c.asked > w.since then c.asked else w.since,
         base := if c.asked > w.since then c.kept else w.base)
    case ListIdsStep(k) => v.(clears := w.clears[k := AskedIds(Held(w))])
    case WipeStep(k) =>
      v.(rows := [], gone := w.gone + Held(w), clears := w.clears[k := Wiped(w.clears[k].ids, Held(w))])
    case BeginGet(k, id) => v.(calls := w.calls[k := Looking(id, id in w.put)])
    case LookStep(k) =>
      var c := w.calls[k];
      v.(calls := w.calls[k := if c.id in w.mem then Answered(c.id, c.known, true) else Missed(c.id, c.known)])
    case ReadStep(k) =>
      var c := w.calls[k];
      v.(calls := w.calls[k := Answered(c.id, c.known, FindRow(w.rows, c.id).Some?)])
    case ScanStep(k) => v.(lists := w.lists[k := Scanned(Held(w))])
    case MergeStep(k) => v.(lists := w.lists[k := Listed(w.lists[k].seen + w.mem)])
  }

  // --- Rows never pile up beyond the calls still trimming ---

  /** Ids whose row was written after `stamp`. */
  function RecentIds(w: World, stamp: nat): set<string> {
    set k | k in w.calls && w.calls[k].HasRow() && w.calls[k].inserted > stamp :: w.calls[k].id
  }

  /** Those of them whose Finalize is still at work. */
  function ActiveIds(w: World, stamp: nat): set<string> {
    set k | k in w.calls && w.calls[k].Active() && w.calls[k].inserted > stamp :: w.calls[k].id
  }

  function ActiveCalls(w: World): set<nat> {
    set k | k in w.calls && w.calls[k].Active()
  }

  /** A call inserts before it asks, both in the past, and a finished one did not ask after the base was taken. */
  ghost predicate CallStamped(c: Call, now: nat, since: nat) {
    && (c.HasRow() ==> c.inserted < now)
    && (c.Trimming? || c.Finished? ==> c.inserted < c.asked < now)
    && (c.Finished? ==> c.asked <= since)
  }

  ghost predicate Stamped(w: World) {
    w.since < w.now && forall k :: k in w.calls ==> CallStamped(w.calls[k], w.now, w.since)
  }

  /** What the rows shrink back to: the cap, once a retention pass has completed. */
  function Floor(maxEntries: nat, w: World): nat { if w.since == 0 then w.start else maxEntries }

  /** Every row was kept by the last finished pass, or is due to a call still at work. */
  ghost predicate Based(maxEntries: nat, w: World) {
    && |w.base| <= Floor(maxEntries, w)
    && Held(w) <= w.base + ActiveIds(w, w.since)
  }

  /** What a pass still at work will leave behind. */
  ghost predicate WillKeep(maxEntries: nat, w: World, k: nat)
    requires k in w.calls && w.calls[k].Trimming?
  {
    var c := w.calls[k];
    && |c.kept| <= maxEntries
    && Held(w) <= c.kept + Elements(c.todo) + RecentIds(w, c.asked)
  }

  ghost predicate Bounded(maxEntries: nat, w: World) {
    && NoDup(RowIds(w.rows))
    && Stamped(w)
    && Based(maxEntries, w)
    && forall k :: k in w.calls && w.calls[k].Trimming? ==> WillKeep(maxEntries, w, k)
  }

  lemma SetImageBound(w: World, ks: set<nat>, ids: set<string>)
    requires forall id :: id in ids ==> exists k :: k in ks && k in w.calls && w.calls[k].id == id
    ensures |ids| <= |ks|
    decreases ks
  {
    if ids != {} {
      var id :| id in ids;
      var k :| k in ks && k in w.calls && w.calls[k].id == id;
      SetImageBound(w, ks - {k}, ids - {id});
    }
  }

  lemma SubsetSize<T>(a: set<T>, b: set<T>)
    requires a <= b
    ensures |a| <= |b|
    decreases a
  {
    if a != {} {
      var x :| x in a;
      SubsetSize(a - {x}, b - {x});
    }
  }

  lemma RowCount(maxEntries: nat, w: World)
    requires Bounded(maxEntries, w)
    ensures |w.rows| <= Floor(maxEntries, w) + |ActiveCalls(w)|
  {
    var ids := ActiveIds(w, w.since);
    DistinctCount(RowIds(w.rows));
    SetImageBound(w, ActiveCalls(w), ids);
    SubsetSize(Held(w), w.base + ids);
  }

  lemma HeldAfterDelete(w: World, id: string)
    requires NoDup(RowIds(w.rows))
    ensures Elements(RowIds(DeleteRow(w.rows, id))) <= Held(w) - {id}
  {
    DeleteKeepsKeyed(w.rows, id);
  }

  lemma HeldAfterInsert(rows: seq<Row>, r: Row)
    requires NoDup(RowIds(rows))
    ensures NoDup(RowIds(InsertRow(rows, r)))
    ensures Elements(RowIds(InsertRow(rows, r))) <= Elements(RowIds(rows)) + {r.id}
  {
    DeleteKeepsKeyed(rows, r.id);
    var u := DeleteRow(rows, r.id);
    var k := InsertPos(Starts(u), r.startedAt);
    InsertColumns(u, k, r);
    InsertNoDup(RowIds(u), k, r.id);
  }

  /** The query splits the rows into those it leaves alone and its victims. */
  lemma AskSplits(rows: seq<Row>, maxEntries: nat)
    requires NoDup(RowIds(rows))
    ensures |Elements(RowIds(Kept(rows, maxEntries)))| <= maxEntries
    ensures Elements(RowIds(rows)) <= Elements(RowIds(Kept(rows, maxEntries))) + Elements(Overflow(rows, maxEntries))
  {
    var kept := Kept(rows, maxEntries);
    assert forall i :: 0 <= i < |kept| ==> RowIds(kept)[i] == RowIds(rows)[i];
    DistinctCount(RowIds(kept));
    if maxEntries <= |rows| {
      assert RowIds(rows) == RowIds(kept) + Overflow(rows, maxEntries);
    } else {
      assert kept == rows;
    }
  }

  lemma StampAfter(maxEntries: nat, w: World, act: Act, k: nat)
    requires Possible(w, act) && k in Do(maxEntries, w, act).calls
    requires w.since < w.now && (k in w.calls ==> CallStamped(w.calls[k], w.now, w.since))
    ensures CallStamped(Do(maxEntries, w, act).calls[k], Do(maxEntries, w, act).now, Do(maxEntries, w, act).since)
  {
  }

  lemma StepKeepsStamps(maxEntries: nat, w: World, act: Act)
    requires Possible(w, act) && Stamped(w)
    ensures Stamped(Do(maxEntries, w, act))
  {
    var v := Do(maxEntries, w, act);
    forall k | k in v.calls
      ensures CallStamped(v.calls[k], v.now, v.since)
    {
      StampAfter(maxEntries, w, act, k);
    }
  }

  /** Rows written are remembered, and a call stays active until it finishes. */
  lemma RecentGrows(maxEntries: nat, w: World, act: Act, stamp: nat)
    requires Possible(w, act) && stamp < w.now
    ensures RecentIds(w, stamp) <= RecentIds(Do(maxEntries, w, act), stamp)
    ensures !act.FinishStep? ==> ActiveIds(w, stamp) <= ActiveIds(Do(maxEntries, w, act), stamp)
    ensures act.InsertStep? ==> act.row.id in ActiveIds(Do(maxEntries, w, act), stamp)
    ensures act.InsertStep? ==> act.row.id in RecentIds(Do(maxEntries, w, act), stamp)
  {
    var v := Do(maxEntries, w, act);
    forall id | id in RecentIds(w, stamp)
      ensures id in RecentIds(v, stamp)
    {
      var k :| k in w.calls && w.calls[k].HasRow() && w.calls[k].inserted > stamp && w.calls[k].id == id;
      assert k in v.calls && v.calls[k].HasRow() && v.calls[k].inserted > stamp && v.calls[k].id == id;
    }
    forall id | !act.FinishStep? && id in ActiveIds(w, stamp)
      ensures id in ActiveIds(v, stamp)
    {
      var k :| k in w.calls && w.calls[k].Active() && w.calls[k].inserted > stamp && w.calls[k].id == id;
      assert k in v.calls && v.calls[k].Active() && v.calls[k].inserted > stamp && v.calls[k].id == id;
    }
    if act.InsertStep? {
      assert v.calls[act.k].Active() && v.calls[act.k].inserted > stamp;
    }
  }

  /** The ids held after a step: fewer, except for the row an insert brings. */
  lemma HeldAfter(maxEntries: nat, w: World, act: Act)
    requires Possible(w, act) && NoDup(RowIds(w.rows))
    ensures NoDup(RowIds(Do(maxEntries, w, act).rows))
    ensures Held(Do(maxEntries, w, act)) <= Held(w) + (if act.InsertStep? then {act.row.id} else {})
    ensures act.DeleteStep? ==> w.calls[act.k].todo[0] !in Held(Do(maxEntries, w, act))
  {
    match act
    case InsertStep(_, row) => HeldAfterInsert(w.rows, row);
    case DeleteStep(k) =>
      HeldAfterDelete(w, w.calls[k].todo[0]);
      DeleteKeepsKeyed(w.rows, w.calls[k].todo[0]);
    case _ =>
  }

  /** A pass at work only ever shortens its list of victims. */
  lemma PassAfter(maxEntries: nat, w: World, act: Act, k: nat)
    requires Possible(w, act) && k in w.calls && w.calls[k].Trimming?
    requires k in Do(maxEntries, w, act).calls && Do(maxEntries, w, act).calls[k].Trimming?
    ensures var c, c' := w.calls[k], Do(maxEntries, w, act).calls[k];
            && c'.kept == c.kept && c'.asked == c.asked
            && c'.todo == if act == DeleteStep(k) then c.todo[1..] else c.todo
  {
  }

  lemma PassKeepsPromise(maxEntries: nat, w: World, act: Act, k: nat)
    requires Possible(w, act) && NoDup(RowIds(w.rows))
    requires k in w.calls && w.calls[k].Trimming? && w.calls[k].asked < w.now && WillKeep(maxEntries, w, k)
    requires k in Do(maxEntries, w, act).calls && Do(maxEntries, w, act).calls[k].Trimming?
    ensures WillKeep(maxEntries, Do(maxEntries, w, act), k)
  {
    PassAfter(maxEntries, w, act, k);
    HeldAfter(maxEntries, w, act);
    RecentGrows(maxEntries, w, act, w.calls[k].asked);
    if act == DeleteStep(k) {
      HeadAndTail(w.calls[k].todo);
    }
  }

  lemma NewPassPromises(maxEntries: nat, w: World, k: nat)
    requires Possible(w, AskStep(k)) && Bounded(maxEntries, w)
    ensures WillKeep(maxEntries, Do(maxEntries, w, AskStep(k)), k)
  {
    AskSplits(w.rows, maxEntries);
  }

  /** Rows written after a pass that asked last belong to calls at work, itself not among them. */
  lemma RecentIsActive(w: World, k: nat)
    requires Stamped(w) && k in w.calls && w.calls[k].Trimming? && w.calls[k].asked > w.since
    ensures RecentIds(w, w.calls[k].asked) <= ActiveIds(w, w.calls[k].asked)
  {
    var asked := w.calls[k].asked;
    forall id | id in RecentIds(w, asked)
      ensures id in ActiveIds(w, asked)
    {
      var j :| j in w.calls && w.calls[j].HasRow() && w.calls[j].inserted > asked && w.calls[j].id == id;
      assert w.calls[j].Active();
    }
  }

  /** A pass that ends was not among the calls whose row came after its query or later. */
  lemma ActiveWithout(maxEntries: nat, w: World, k: nat, stamp: nat)
    requires Possible(w, FinishStep(k)) && w.calls[k].inserted <= stamp
    ensures ActiveIds(w, stamp) <= ActiveIds(Do(maxEntries, w, FinishStep(k)), stamp)
  {
    var v := Do(maxEntries, w, FinishStep(k));
    forall id | id in ActiveIds(w, stamp)
      ensures id in ActiveIds(v, stamp)
    {
      var j :| j in w.calls && w.calls[j].Active() && w.calls[j].inserted > stamp && w.calls[j].id == id;
      assert j != k && v.calls[j] == w.calls[j];
    }
  }

  /** A finished pass becomes the new base if it asked last; the rows written since are those of calls at work. */
  lemma FinishKeepsBase(maxEntries: nat, w: World, k: nat)
    requires Possible(w, FinishStep(k)) && Stamped(w) && Based(maxEntries, w) && WillKeep(maxEntries, w, k)
    ensures Based(maxEntries, Do(maxEntries, w, FinishStep(k)))
  {
    var c := w.calls[k];
    if c.asked > w.since {
      RecentIsActive(w, k);
      ActiveWithout(maxEntries, w, k, c.asked);
    } else {
      ActiveWithout(maxEntries, w, k, w.since);
    }
  }

  lemma StepKeepsBase(maxEntries: nat, w: World, act: Act)
    requires Possible(w, act) && Bounded(maxEntries, w)
    ensures Based(maxEntries, Do(maxEntries, w, act))
  {
    if act.FinishStep? {
      FinishKeepsBase(maxEntries, w, act.k);
    } else {
      HeldAfter(maxEntries, w, act);
      RecentGrows(maxEntries, w, act, w.since);
    }
  }

  lemma StepKeepsPromise(maxEntries: nat, w: World, act: Act, k: nat)
    requires Possible(w, act) && Bounded(maxEntries, w)
    requires k in Do(maxEntries, w, act).calls && Do(maxEntries, w, act).calls[k].Trimming?
    ensures WillKeep(maxEntries, Do(maxEntries, w, act), k)
  {
    if k in w.calls && w.calls[k].Trimming? {
      PassKeepsPromise(maxEntries, w, act, k);
    } else {
      NewPassPromises(maxEntries, w, k);
    }
  }

  lemma StepKeepsBounded(maxEntries: nat, w: World, act: Act)
    requires Possible(w, act) && Bounded(maxEntries, w)
    ensures Bounded(maxEntries, Do(maxEntries, w, act))
  {
    var v := Do(maxEntries, w, act);
    StepKeepsStamps(maxEntries, w, act);
    StepKeepsBase(maxEntries, w, act);
    HeldAfter(maxEntries, w, act);
    forall k | k in v.calls && v.calls[k].Trimming?
      ensures WillKeep(maxEntries, v, k)
    {
      StepKeepsPromise(maxEntries, w, act, k);
    }
  }

  // --- Get never loses an entry ---

  /** A registered entry is in memory, or its row has been written and is there unless it was deleted. */
  ghost predicate NothingLost(w: World) {
    && w.mem <= w.put
    && (forall id :: id in w.put && id !in w.mem ==> id in Held(w) || id in w.gone)
    && (forall k :: k in w.calls && w.calls[k].HasRow() ==> w.calls[k].id in Held(w) || w.calls[k].id in w.gone)
    && (forall k :: k in w.calls && w.calls[k].Looking? && w.calls[k].known ==> w.calls[k].id in w.put)
    && (forall k :: k in w.calls && w.calls[k].Missed? && w.calls[k].known ==> w.calls[k].id in Held(w) || w.calls[k].id in w.gone)
    && (forall k :: k in w.calls && w.calls[k].Answered? && w.calls[k].known && !w.calls[k].found ==> w.calls[k].id in w.gone)
  }

  lemma {:induction false} DeleteKeepsOthers(t: seq<Row>, id: string, other: string)
    requires other in RowIds(t) && other != id
    ensures other in RowIds(DeleteRow(t, id))
  {
    assert t == [t[0]] + t[1..];
    IdsCons(t[0], t[1..]);
    IdsCons(t[0], DeleteRow(t[1..], id));
    if t[0].id != other {
      DeleteKeepsOthers(t[1..], id, other);
    }
  }

  lemma InsertKeepsIds(t: seq<Row>, r: Row, other: string)
    requires other in RowIds(t) || other == r.id
    ensures other in RowIds(InsertRow(t, r))
  {
    var u := DeleteRow(t, r.id);
    var k := InsertPos(Starts(u), r.startedAt);
    InsertColumns(u, k, r);
    var ids := RowIds(u);
    if other != r.id {
      DeleteKeepsOthers(t, r.id, other);
      assert ids == ids[..k] + ids[k..];
      assert other in InsertAt(ids, k, r.id);
    } else {
      assert InsertAt(ids, k, r.id)[k] == other;
    }
  }

  /** An id leaves the table only into `gone`. */
  lemma HeldOrGone(maxEntries: nat, w: World, act: Act, id: string)
    requires Possible(w, act)
    requires id in Held(w) || id in w.gone || (act.InsertStep? && act.row.id == id)
    ensures id in Held(Do(maxEntries, w, act)) || id in Do(maxEntries, w, act).gone
  {
    if id !in w.gone {
      match act
      case InsertStep(_, row) => InsertKeepsIds(w.rows, row, id);
      case DeleteStep(k) =>
        if id != w.calls[k].todo[0] {
          DeleteKeepsOthers(w.rows, w.calls[k].todo[0], id);
        }
      case _ =>
    }
  }

  lemma ReadFindsHeld(rows: seq<Row>, id: string)
    ensures FindRow(rows, id).Some? <==> id in RowIds(rows)
  {
    var r := FindRow(rows, id);
    if r.Some? {
      var i :| 0 <= i < |rows| && rows[i] == r.value;
      assert RowIds(rows)[i] == id;
    }
  }

  lemma StepLosesNothing(maxEntries: nat, w: World, act: Act)
    requires Possible(w, act) && NothingLost(w)
    ensures NothingLost(Do(maxEntries, w, act))
  {
    var v := Do(maxEntries, w, act);
    forall id | id in v.put && id !in v.mem
      ensures id in Held(v) || id in v.gone
    {
      HeldOrGone(maxEntries, w, act, id);
    }
    forall k | k in v.calls && v.calls[k].HasRow()
      ensures v.calls[k].id in Held(v) || v.calls[k].id in v.gone
    {
      HeldOrGone(maxEntries, w, act, v.calls[k].id);
    }
    forall k | k in v.calls && v.calls[k].Missed? && v.calls[k].known
      ensures v.calls[k].id in Held(v) || v.calls[k].id in v.gone
    {
      HeldOrGone(maxEntries, w, act, v.calls[k].id);
    }
    if act.ReadStep? {
      ReadFindsHeld(w.rows, w.calls[act.k].id);
    }
  }

  // --- Every interleaving ---

  ghost predicate Schedule(maxEntries: nat, w: World, acts: seq<Act>)
    decreases |acts|
  {
    acts == [] || (Possible(w, acts[0]) && Schedule(maxEntries, Do(maxEntries, w, acts[0]), acts[1..]))
  }

  function Play(maxEntries: nat, w: World, acts: seq<Act>): World
    requires Schedule(maxEntries, w, acts)
    decreases |acts|
  {
    if acts == [] then w else Play(maxEntries, Do(maxEntries, w, acts[0]), acts[1..])
  }

  lemma {:induction false} PlayKeeps(maxEntries: nat, w: World, acts: seq<Act>)
    requires Schedule(maxEntries, w, acts) && Bounded(maxEntries, w) && NothingLost(w)
    ensures Bounded(maxEntries, Play(maxEntries, w, acts)) && NothingLost(Play(maxEntries, w, acts))
    decreases |acts|
  {
    if acts != [] {
      StepKeepsBounded(maxEntries, w, acts[0]);
      StepLosesNothing(maxEntries, w, acts[0]);
      PlayKeeps(maxEntries, Do(maxEntries, w, acts[0]), acts[1..]);
    }
  }

  /** A store just opened on some rows. */
  function Opened(rows: seq<Row>): World {
    World({}, rows, map[], map[], map[], {}, {}, 1, 0, Elements(RowIds(rows)), |rows|)
  }

  lemma {:induction false} StartIsFixed(maxEntries: nat, w: World, acts: seq<Act>)
    requires Schedule(maxEntries, w, acts)
    ensures Play(maxEntries, w, acts).start == w.start
    decreases |acts|
  {
    if acts != [] {
      StartIsFixed(maxEntries, Do(maxEntries, w, acts[0]), acts[1..]);
    }
  }

  /** In every interleaving of any number of Finalize and Clear calls, once some Finalize has finished the rows never
      exceed the cap by more than the number of Finalize calls that have inserted and not finished trimming; before,
      they exceed what was found at the start by no more than that, and so never the cap if it was within the cap. */
  lemma RetentionBound(maxEntries: nat, rows: seq<Row>, acts: seq<Act>)
    requires NoDup(RowIds(rows)) && Schedule(maxEntries, Opened(rows), acts)
    ensures var w := Play(maxEntries, Opened(rows), acts);
            && |w.rows| <= (if |rows| >= maxEntries then |rows| else maxEntries) + |ActiveCalls(w)|
            && ((exists k :: k in w.calls && w.calls[k].Finished?) ==> |w.rows| <= maxEntries + |ActiveCalls(w)|)
  {
    DistinctCount(RowIds(rows));
    PlayKeeps(maxEntries, Opened(rows), acts);
    RowCount(maxEntries, Play(maxEntries, Opened(rows), acts));
    StartIsFixed(maxEntries, Opened(rows), acts);
  }

  /** In every interleaving, a Get that began after the Put of its id had returned finds the entry, unless retention
      or Clear deleted its row. */
  lemma GetNeverLoses(maxEntries: nat, rows: seq<Row>, acts: seq<Act>, k: nat)
    requires NoDup(RowIds(rows)) && Schedule(maxEntries, Opened(rows), acts)
    ensures var w := Play(maxEntries, Opened(rows), acts);
            k in w.calls && w.calls[k].Answered? && w.calls[k].known && !w.calls[k].found ==> w.calls[k].id in w.gone
  {
    DistinctCount(RowIds(rows));
    PlayKeeps(maxEntries, Opened(rows), acts);
  }

  // --- One Finalize per id, or two ---

  /** An id is registered once and was not found at the start, and no Finalize begins on it while another one has
      found the entry and not yet dropped it from memory. */
  ghost predicate OrderlyAct(w: World, act: Act, found: set<string>) {
    match act
    case Register(id) => id !in w.put && id !in found
    case BeginFinalize(_, id) =>
      forall k :: k in w.calls && (w.calls[k].Begun? || w.calls[k].Inserted?) ==> w.calls[k].id != id
    case _ => true
  }

  ghost predicate Orderly(maxEntries: nat, w: World, acts: seq<Act>, found: set<string>)
    requires Schedule(maxEntries, w, acts)
    decreases |acts|
  {
    acts == [] || (OrderlyAct(w, acts[0], found) && Orderly(maxEntries, Do(maxEntries, w, acts[0]), acts[1..], found))
  }

  predicate IsFinalize(c: Call) { c.Begun? || c.HasRow() }

  /** Each id has at most one Finalize, and only of a registered id. */
  ghost predicate CallsApart(w: World) {
    && (forall k :: k in w.calls && IsFinalize(w.calls[k]) ==> w.calls[k].id in w.put)
    && (forall k :: k in w.calls && w.calls[k].HasRow() && !w.calls[k].Inserted? ==> w.calls[k].id !in w.mem)
    && (forall j, k :: j in w.calls && k in w.calls && j != k && IsFinalize(w.calls[j]) && IsFinalize(w.calls[k]) ==>
          w.calls[j].id != w.calls[k].id)
  }

  /** Rows present or deleted were found at the start or written by a call, and none is both. */
  ghost predicate RowsAccounted(w: World, found: set<string>) {
    && NoDup(RowIds(w.rows))
    && w.gone !! Held(w)
    && Held(w) + w.gone <= found + Writers(w)
  }

  ghost predicate WrittenOnce(w: World, found: set<string>) {
    && w.mem <= w.put && w.put !! found
    && CallsApart(w)
    && RowsAccounted(w, found)
  }

  /** The ids whose row some call has written. */
  function Writers(w: World): set<string> {
    set k | k in w.calls && w.calls[k].HasRow() :: w.calls[k].id
  }

  lemma WritersGrow(maxEntries: nat, w: World, act: Act)
    requires Possible(w, act)
    ensures Writers(w) <= Writers(Do(maxEntries, w, act))
    ensures act.InsertStep? ==> act.row.id in Writers(Do(maxEntries, w, act))
  {
    var v := Do(maxEntries, w, act);
    forall id | id in Writers(w)
      ensures id in Writers(v)
    {
      var k :| k in w.calls && w.calls[k].HasRow() && w.calls[k].id == id;
      assert v.calls[k].HasRow() && v.calls[k].id == id;
    }
    if act.InsertStep? {
      assert v.calls[act.k].HasRow();
    }
  }

  /** What a step does to the ids held and gone. */
  lemma GoneAfter(maxEntries: nat, w: World, act: Act)
    requires Possible(w, act) && NoDup(RowIds(w.rows))
    ensures var v := Do(maxEntries, w, act);
            && v.gone <= w.gone + Held(w)
            && (act.InsertStep? ==> v.gone == w.gone)
            && (w.gone !! Held(w) && (act.InsertStep? ==> act.row.id !in w.gone) ==> v.gone !! Held(v))
  {
    HeldAfter(maxEntries, w, act);
  }

  /** A call that has begun and not yet written its row is the only one on an id of which there is no trace. */
  lemma BegunIsUntouched(w: World, found: set<string>, k: nat)
    requires WrittenOnce(w, found) && k in w.calls && w.calls[k].Begun?
    ensures w.calls[k].id !in Held(w) && w.calls[k].id !in w.gone
  {
    forall id | id in Writers(w)
      ensures id != w.calls[k].id
    {
      var j :| j in w.calls && w.calls[j].HasRow() && w.calls[j].id == id;
      assert j != k;
    }
  }

  /** A Finalize after a step was one before, on the same id, or has just begun. */
  lemma FinalizeAfter(maxEntries: nat, w: World, act: Act, k: nat)
    requires Possible(w, act) && k in Do(maxEntries, w, act).calls && IsFinalize(Do(maxEntries, w, act).calls[k])
    ensures var c := Do(maxEntries, w, act).calls[k];
            if k in w.calls then
              && IsFinalize(w.calls[k]) && w.calls[k].id == c.id
              && (c.HasRow() && !c.Inserted? ==> act == DropStep(k) || (w.calls[k].HasRow() && !w.calls[k].Inserted?))
            else act == BeginFinalize(k, c.id) && c.Begun?
  {
  }

  lemma BeginIsAlone(w: World, id: string, found: set<string>, k: nat)
    requires CallsApart(w) && id in w.mem && OrderlyAct(w, BeginFinalize(k, id), found)
    ensures forall j :: j in w.calls && IsFinalize(w.calls[j]) ==> w.calls[j].id != id
  {
  }

  lemma StillApart(maxEntries: nat, w: World, act: Act, found: set<string>, j: nat, k: nat)
    requires Possible(w, act) && CallsApart(w) && OrderlyAct(w, act, found) && j != k
    requires j in Do(maxEntries, w, act).calls && IsFinalize(Do(maxEntries, w, act).calls[j])
    requires k in Do(maxEntries, w, act).calls && IsFinalize(Do(maxEntries, w, act).calls[k])
    ensures Do(maxEntries, w, act).calls[j].id != Do(maxEntries, w, act).calls[k].id
  {
    FinalizeAfter(maxEntries, w, act, j);
    FinalizeAfter(maxEntries, w, act, k);
    if act.BeginFinalize? {
      BeginIsAlone(w, act.id, found, act.k);
    }
  }

  lemma StepKeepsCallsApart(maxEntries: nat, w: World, act: Act, found: set<string>)
    requires Possible(w, act) && CallsApart(w) && w.mem <= w.put && OrderlyAct(w, act, found)
    ensures CallsApart(Do(maxEntries, w, act))
  {
    var v := Do(maxEntries, w, act);
    forall k | k in v.calls && IsFinalize(v.calls[k])
      ensures v.calls[k].id in v.put
      ensures v.calls[k].HasRow() && !v.calls[k].Inserted? ==> v.calls[k].id !in v.mem
    {
      FinalizeAfter(maxEntries, w, act, k);
    }
    forall j, k | j in v.calls && k in v.calls && j != k && IsFinalize(v.calls[j]) && IsFinalize(v.calls[k])
      ensures v.calls[j].id != v.calls[k].id
    {
      StillApart(maxEntries, w, act, found, j, k);
    }
  }

  lemma StepKeepsRowsAccounted(maxEntries: nat, w: World, act: Act, found: set<string>)
    requires Possible(w, act) && WrittenOnce(w, found)
    ensures RowsAccounted(Do(maxEntries, w, act), found)
  {
    HeldAfter(maxEntries, w, act);
    WritersGrow(maxEntries, w, act);
    if act.InsertStep? {
      BegunIsUntouched(w, found, act.k);
    }
    GoneAfter(maxEntries, w, act);
  }

  lemma StepKeepsWrittenOnce(maxEntries: nat, w: World, act: Act, found: set<string>)
    requires Possible(w, act) && WrittenOnce(w, found) && OrderlyAct(w, act, found)
    ensures WrittenOnce(Do(maxEntries, w, act), found)
  {
    StepKeepsCallsApart(maxEntries, w, act, found);
    StepKeepsRowsAccounted(maxEntries, w, act, found);
  }

  function InsertsOf(acts: seq<Act>, id: string): nat {
    if acts == [] then 0
    else (if acts[0].InsertStep? && acts[0].row.id == id then 1 else 0) + InsertsOf(acts[1..], id)
  }

  function WritersOf(w: World, id: string): set<nat> {
    set k | k in w.calls && w.calls[k].HasRow() && w.calls[k].id == id
  }

  lemma NewWriter(maxEntries: nat, w: World, k: nat, row: Row, id: string)
    requires Possible(w, InsertStep(k, row))
    ensures k !in WritersOf(w, id)
    ensures WritersOf(Do(maxEntries, w, InsertStep(k, row)), id) == WritersOf(w, id) + if row.id == id then {k} else {}
  {
    var v := Do(maxEntries, w, InsertStep(k, row));
    assert v.calls == w.calls[k := Inserted(row.id, w.now)];
  }

  lemma WritersAfterInsert(maxEntries: nat, w: World, k: nat, row: Row, id: string)
    requires Possible(w, InsertStep(k, row))
    ensures |WritersOf(Do(maxEntries, w, InsertStep(k, row)), id)| == |WritersOf(w, id)| + if row.id == id then 1 else 0
  {
    NewWriter(maxEntries, w, k, row, id);
  }

  lemma WritersAfter(maxEntries: nat, w: World, act: Act, id: string)
    requires Possible(w, act) && !act.InsertStep?
    ensures WritersOf(Do(maxEntries, w, act), id) == WritersOf(w, id)
  {
  }

  /** Every insert belongs to a call of its own. */
  lemma {:induction false} InsertsAreCalls(maxEntries: nat, w: World, acts: seq<Act>, id: string)
    requires Schedule(maxEntries, w, acts)
    ensures |WritersOf(Play(maxEntries, w, acts), id)| == |WritersOf(w, id)| + InsertsOf(acts, id)
    decreases |acts|
  {
    if acts != [] {
      if acts[0].InsertStep? {
        WritersAfterInsert(maxEntries, w, acts[0].k, acts[0].row, id);
      } else {
        WritersAfter(maxEntries, w, acts[0], id);
      }
      InsertsAreCalls(maxEntries, Do(maxEntries, w, acts[0]), acts[1..], id);
    }
  }

  lemma {:induction false} OrderlyKeeps(maxEntries: nat, w: World, acts: seq<Act>, found: set<string>)
    requires Schedule(maxEntries, w, acts) && Orderly(maxEntries, w, acts, found) && WrittenOnce(w, found)
    ensures WrittenOnce(Play(maxEntries, w, acts), found)
    decreases |acts|
  {
    if acts != [] {
      StepKeepsWrittenOnce(maxEntries, w, acts[0], found);
      OrderlyKeeps(maxEntries, Do(maxEntries, w, acts[0]), acts[1..], found);
    }
  }

  /** When ids are registered once, are not among the rows found, and no Finalize begins on an id while another one on
      it has not dropped its memory copy yet, then in every interleaving each id is inserted at most once, and an id
      whose row was deleted never comes back. */
  lemma FirstFinalizeWins(maxEntries: nat, rows: seq<Row>, acts: seq<Act>, id: string)
    requires NoDup(RowIds(rows)) && Schedule(maxEntries, Opened(rows), acts)
    requires Orderly(maxEntries, Opened(rows), acts, Elements(RowIds(rows)))
    ensures var w := Play(maxEntries, Opened(rows), acts);
            InsertsOf(acts, id) <= 1 && (id in w.gone ==> id !in Held(w))
  {
    var w := Play(maxEntries, Opened(rows), acts);
    OrderlyKeeps(maxEntries, Opened(rows), acts, Elements(RowIds(rows)));
    InsertsAreCalls(maxEntries, Opened(rows), acts, id);
    assert WritersOf(Opened(rows), id) == {};
    OneAtMost(w, id);
  }

  lemma OneAtMost(w: World, id: string)
    requires CallsApart(w)
    ensures |WritersOf(w, id)| <= 1
  {
    var ks := WritersOf(w, id);
    if ks != {} {
      var j :| j in ks;
      assert ks == {j};
    }
  }

  lemma Then(maxEntries: nat, w: World, act: Act, rest: seq<Act>)
    requires Possible(w, act) && Schedule(maxEntries, Do(maxEntries, w, act), rest)
    ensures Schedule(maxEntries, w, [act] + rest)
    ensures Play(maxEntries, w, [act] + rest) == Play(maxEntries, Do(maxEntries, w, act), rest)
  {
    assert ([act] + rest)[1..] == rest;
  }

  /** Clear number c, undisturbed, and the insert that follows it. */
  function ClearThenInsert(c: nat, k: nat, row: Row): seq<Act> {
    [ListIdsStep(c), WipeStep(c), InsertStep(k, row)]
  }

  /** How two Finalize calls on one id go on: the first writes its row unless it already has, Clear deletes it, and
      the second writes it again. */
  function Overlap(w: World, j: nat, k: nat, c: nat, row: Row): seq<Act>
    requires j in w.calls
  {
    [BeginFinalize(k, row.id)] + ((if w.calls[j].Begun? then [InsertStep(j, row)] else []) + ClearThenInsert(c, k, row))
  }

  lemma ClearUndisturbed(maxEntries: nat, w: World, c: nat) returns (v: World)
    requires c !in w.clears
    ensures Schedule(maxEntries, w, [ListIdsStep(c), WipeStep(c)]) && v == Play(maxEntries, w, [ListIdsStep(c), WipeStep(c)])
    ensures v.rows == [] && v.gone == w.gone + Held(w) && v.calls == w.calls && v.now == w.now + 2
  {
    var w1 := Do(maxEntries, w, ListIdsStep(c));
    v := Do(maxEntries, w1, WipeStep(c));
    assert [ListIdsStep(c), WipeStep(c)][1..] == [WipeStep(c)] && [WipeStep(c)][1..] == [];
    Continue(maxEntries, w1, [WipeStep(c)], []);
    Continue(maxEntries, w, [ListIdsStep(c), WipeStep(c)], [WipeStep(c)]);
  }

  lemma WipeThenInsert(maxEntries: nat, w: World, k: nat, c: nat, row: Row)
    requires k in w.calls && w.calls[k] == Begun(row.id) && (row.id in Held(w) || row.id in w.gone) && c !in w.clears
    ensures Schedule(maxEntries, w, ClearThenInsert(c, k, row))
    ensures var v := Play(maxEntries, w, ClearThenInsert(c, k, row));
            && row.id in v.gone && row.id in Held(v)
            && v.calls == w.calls[k := Inserted(row.id, w.now + 2)]
  {
    var w2 := ClearUndisturbed(maxEntries, w, c);
    var insert: seq<Act> := [InsertStep(k, row)];
    assert insert[1..] == [];
    Continue(maxEntries, w2, insert, []);
    ScheduleAppend(maxEntries, w, [ListIdsStep(c), WipeStep(c)], insert);
    assert [ListIdsStep(c), WipeStep(c)] + insert == ClearThenInsert(c, k, row);
    InsertKeepsIds(w2.rows, row, row.id);
  }

  /** The converse: whenever a Finalize begins on an id while another one on it has not dropped its memory copy yet,
      the run can go on so that both write the row, the second after the first row was deleted. */
  lemma OverlapWritesTwice(maxEntries: nat, w: World, j: nat, k: nat, c: nat, row: Row)
    requires NothingLost(w) && Possible(w, BeginFinalize(k, row.id)) && c !in w.clears
    requires j in w.calls && (w.calls[j].Begun? || w.calls[j].Inserted?) && w.calls[j].id == row.id
    ensures Schedule(maxEntries, w, Overlap(w, j, k, c, row))
    ensures var v := Play(maxEntries, w, Overlap(w, j, k, c, row));
            && j != k && {j, k} <= WritersOf(v, row.id)
            && row.id in v.gone && row.id in Held(v)
  {
    var begin := BeginFinalize(k, row.id);
    var w1 := Do(maxEntries, w, begin);
    var tail := ClearThenInsert(c, k, row);
    if w.calls[j].Begun? {
      var w2 := Do(maxEntries, w1, InsertStep(j, row));
      InsertKeepsIds(w1.rows, row, row.id);
      WipeThenInsert(maxEntries, w2, k, c, row);
      Then(maxEntries, w1, InsertStep(j, row), tail);
      Then(maxEntries, w, begin, [InsertStep(j, row)] + tail);
    } else {
      WipeThenInsert(maxEntries, w1, k, c, row);
      Then(maxEntries, w, begin, tail);
      assert [] + tail == tail;
    }
  }

  /** Two Finalize calls that are both under way on one id can both write its row, and the later one stands. */
  lemma OverlappingFinalize(maxEntries: nat, w: World, j: nat, k: nat, first: Row, second: Row)
    requires NoDup(RowIds(w.rows)) && j != k && first.id == second.id
    requires j in w.calls && w.calls[j] == Begun(first.id) && k in w.calls && w.calls[k] == Begun(first.id)
    ensures Possible(w, InsertStep(j, first))
    ensures var w1 := Do(maxEntries, w, InsertStep(j, first));
            && FindRow(w1.rows, first.id) == Some(first)
            && Possible(w1, InsertStep(k, second))
            && FindRow(Do(maxEntries, w1, InsertStep(k, second)).rows, first.id) == Some(second)
  {
    InsertedIsFound(w.rows, first);
    InsertedIsFound(InsertRow(w.rows, first), second);
  }

  lemma InsertedIsFound(rows: seq<Row>, r: Row)
    requires NoDup(RowIds(rows))
    ensures NoDup(RowIds(InsertRow(rows, r))) && FindRow(InsertRow(rows, r), r.id) == Some(r)
  {
    var u := DeleteRow(rows, r.id);
    var k := InsertPos(Starts(u), r.startedAt);
    InsertKeepsKeyed(rows, r);
    assert InsertRow(rows, r)[k] == r;
    FindUnique(InsertRow(rows, r), k);
  }

  /** One such run from an empty store with room to spare: the sweeper and the end of the stream both finalize the
      entry, and Clear comes in between. */
  function Comeback(row: Row): seq<Act> {
    [Register("a"), BeginFinalize(0, "a"), BeginFinalize(1, "a"), InsertStep(0, row), DropStep(0),
     ListIdsStep(0), WipeStep(0), InsertStep(1, row)]
  }

  lemma ComebackInserts(row: Row)
    requires row.id == "a"
    ensures InsertsOf(Comeback(row), "a") == 2
  {
    var acts := Comeback(row);
    for i := 8 downto 0
      invariant InsertsOf(acts[i..], "a") == if i > 7 then 0 else if i > 3 then 1 else 2
    {
      Insertions(acts[i..], acts[i + 1..], "a");
    }
    assert acts[0..] == acts;
  }

  /** Both calls are under way. */
  lemma ComebackBegins(row: Row) returns (w: World)
    ensures Schedule(5, Opened([]), Comeback(row)[..3]) && w == Play(5, Opened([]), Comeback(row)[..3])
    ensures w.rows == [] && w.gone == {} && w.mem == {"a"} && w.calls == map[0 := Begun("a"), 1 := Begun("a")] && w.clears == map[]
  {
    var acts := Comeback(row);
    var w1 := Do(5, Opened([]), acts[0]);
    var w2 := Do(5, w1, acts[1]);
    w := Do(5, w2, acts[2]);
    Continue(5, w2, acts[2..3], []);
    Continue(5, w1, acts[1..3], acts[2..3]);
    Continue(5, Opened([]), acts[..3], acts[1..3]);
  }

  /** The first one has written its row. */
  lemma ComebackWrites(row: Row) returns (w: World)
    requires row.id == "a"
    ensures Schedule(5, Opened([]), Comeback(row)[..5]) && w == Play(5, Opened([]), Comeback(row)[..5])
    ensures w.rows == [row] && w.mem == {} && 1 in w.calls && w.calls[1] == Begun("a") && w.clears == map[]
  {
    var acts := Comeback(row);
    var w3 := ComebackBegins(row);
    var w4 := Do(5, w3, acts[3]);
    w := Do(5, w4, acts[4]);
    InsertIntoEmpty(row);
    Continue(5, w4, acts[4..5], []);
    Continue(5, w3, acts[3..5], acts[4..5]);
    ScheduleAppend(5, Opened([]), acts[..3], acts[3..5]);
    assert acts[..3] + acts[3..5] == acts[..5];
  }

  lemma {:induction false} ScheduleAppend(maxEntries: nat, w: World, a: seq<Act>, b: seq<Act>)
    requires Schedule(maxEntries, w, a) && Schedule(maxEntries, Play(maxEntries, w, a), b)
    ensures Schedule(maxEntries, w, a + b) && Play(maxEntries, w, a + b) == Play(maxEntries, Play(maxEntries, w, a), b)
    decreases |a|
  {
    if a == [] {
      assert a + b == b;
    } else {
      assert (a + b)[0] == a[0] && (a + b)[1..] == a[1..] + b;
      ScheduleAppend(maxEntries, Do(maxEntries, w, a[0]), a[1..], b);
    }
  }

  /** It ends with the row back in the table although it was deleted, and written twice. */
  lemma DeletedRowComesBack(row: Row)
    requires row.id == "a"
    ensures Schedule(5, Opened([]), Comeback(row)) && InsertsOf(Comeback(row), "a") == 2
    ensures var w := Play(5, Opened([]), Comeback(row));
            "a" in Held(w) && "a" in w.gone && "a" !in w.mem
  {
    var w5 := ComebackWrites(row);
    var w6 := Do(5, w5, ListIdsStep(0));
    var w7 := Do(5, w6, WipeStep(0));
    var acts := Comeback(row)[5..];
    assert RowIds(w5.rows)[0] == "a";
    InsertIntoEmpty(row);
    ComebackInserts(row);
    Continue(5, w7, acts[2..], []);
    Continue(5, w6, acts[1..], acts[2..]);
    Continue(5, w5, acts, acts[1..]);
    assert RowIds([row])[0] == "a";
    ScheduleAppend(5, Opened([]), Comeback(row)[..5], acts);
    assert Comeback(row)[..5] + acts == Comeback(row);
  }

  lemma Continue(maxEntries: nat, w: World, acts: seq<Act>, rest: seq<Act>)
    requires acts != [] && acts[1..] == rest && Possible(w, acts[0]) && Schedule(maxEntries, Do(maxEntries, w, acts[0]), rest)
    ensures Schedule(maxEntries, w, acts) && Play(maxEntries, w, acts) == Play(maxEntries, Do(maxEntries, w, acts[0]), rest)
  {
  }

  lemma Insertions(acts: seq<Act>, rest: seq<Act>, id: string)
    requires acts != [] && acts[1..] == rest
    ensures InsertsOf(acts, id) == (if acts[0].InsertStep? && acts[0].row.id == id then 1 else 0) + InsertsOf(rest, id)
  {
  }

  // --- What a List call can miss ---

  lemma {:induction false} ListWaits(maxEntries: nat, w: World, acts: seq<Act>, k: nat)
    requires Schedule(maxEntries, w, acts) && k in w.lists
    requires forall i :: 0 <= i < |acts| ==> acts[i] != MergeStep(k)
    ensures k in Play(maxEntries, w, acts).lists && Play(maxEntries, w, acts).lists[k] == w.lists[k]
    decreases |acts|
  {
    if acts != [] {
      assert acts[0] != MergeStep(k);
      ListWaits(maxEntries, Do(maxEntries, w, acts[0]), acts[1..], k);
    }
  }

  /** An id that is in the table at the end and was not at the start was inserted in between. */
  lemma {:induction false} ArrivedByInsert(maxEntries: nat, w: World, acts: seq<Act>, id: string)
    requires Schedule(maxEntries, w, acts) && NoDup(RowIds(w.rows))
    requires id !in Held(w) && id in Held(Play(maxEntries, w, acts))
    ensures InsertsOf(acts, id) > 0
    decreases |acts|
  {
    HeldAfter(maxEntries, w, acts[0]);
    if id !in Held(Do(maxEntries, w, acts[0])) {
      ArrivedByInsert(maxEntries, Do(maxEntries, w, acts[0]), acts[1..], id);
    }
  }

  /** A List call reads the table and then memory. Between the two reads anything may happen. An entry known at the
      first read and not deleted by the second is missed exactly if it moved in between: it was in memory and had no
      row at the first read, and had a row and was no longer in memory at the second. */
  lemma ListMisses(maxEntries: nat, w: World, between: seq<Act>, k: nat, id: string)
    requires NoDup(RowIds(w.rows)) && NothingLost(w) && Possible(w, ScanStep(k))
    requires var scanned := Do(maxEntries, w, ScanStep(k));
             && Schedule(maxEntries, scanned, between)
             && (forall i :: 0 <= i < |between| ==> between[i] != MergeStep(k))
             && id !in Play(maxEntries, scanned, between).gone
    requires id in w.mem || id in Held(w)
    ensures var v := Play(maxEntries, Do(maxEntries, w, ScanStep(k)), between);
            && Possible(v, MergeStep(k))
            && var answer := Do(maxEntries, v, MergeStep(k)).lists[k];
            && answer.Listed?
            && (id !in answer.ids <==> id in w.mem && id !in Held(w) && id !in v.mem && id in Held(v))
            && (id !in answer.ids ==> InsertsOf(between, id) > 0)
  {
    var scanned := Do(maxEntries, w, ScanStep(k));
    var v := Play(maxEntries, scanned, between);
    ListWaits(maxEntries, scanned, between, k);
    StepLosesNothing(maxEntries, w, ScanStep(k));
    LosesNothing(maxEntries, scanned, between);
    if id !in Held(w) && id !in v.mem {
      assert id in v.put by { PutGrows(maxEntries, scanned, between); }
      ArrivedByInsert(maxEntries, scanned, between, id);
    }
  }

  /** Such a schedule: the row is written and the memory copy dropped between the two reads. */
  function Overlooked(row: Row): seq<Act> {
    [Register("a"), BeginFinalize(0, "a"), ScanStep(7), InsertStep(0, row), DropStep(0), MergeStep(7)]
  }

  lemma OverlookedBegins(row: Row) returns (w: World)
    ensures Schedule(5, Opened([]), Overlooked(row)[..3]) && w == Play(5, Opened([]), Overlooked(row)[..3])
    ensures w.rows == [] && w.gone == {} && w.mem == {"a"} && w.calls == map[0 := Begun("a")] && w.lists == map[7 := Scanned({})]
  {
    var acts := Overlooked(row);
    var w1 := Do(5, Opened([]), acts[0]);
    var w2 := Do(5, w1, acts[1]);
    w := Do(5, w2, acts[2]);
    assert Held(w2) == {};
    Continue(5, w2, acts[2..3], []);
    Continue(5, w1, acts[1..3], acts[2..3]);
    Continue(5, Opened([]), acts[..3], acts[1..3]);
  }

  /** The entry is in the table, was never deleted, and the list does not show it. */
  lemma ListOverlooks(row: Row)
    requires row.id == "a"
    ensures Schedule(5, Opened([]), Overlooked(row))
    ensures var w := Play(5, Opened([]), Overlooked(row));
            7 in w.lists && w.lists[7] == Listed({}) && "a" in Held(w) && "a" !in w.gone
  {
    var w3 := OverlookedBegins(row);
    var acts := Overlooked(row)[3..];
    var w4 := Do(5, w3, acts[0]);
    var w5 := Do(5, w4, acts[1]);
    InsertIntoEmpty(row);
    assert RowIds([row])[0] == "a";
    Continue(5, w5, acts[2..], []);
    Continue(5, w4, acts[1..], acts[2..]);
    Continue(5, w3, acts, acts[1..]);
    ScheduleAppend(5, Opened([]), Overlooked(row)[..3], acts);
    assert Overlooked(row)[..3] + acts == Overlooked(row);
  }

  lemma {:induction false} LosesNothing(maxEntries: nat, w: World, acts: seq<Act>)
    requires Schedule(maxEntries, w, acts) && NothingLost(w)
    ensures NothingLost(Play(maxEntries, w, acts))
    decreases |acts|
  {
    if acts != [] {
      StepLosesNothing(maxEntries, w, acts[0]);
      LosesNothing(maxEntries, Do(maxEntries, w, acts[0]), acts[1..]);
    }
  }

  lemma {:induction false} PutGrows(maxEntries: nat, w: World, acts: seq<Act>)
    requires Schedule(maxEntries, w, acts)
    ensures w.put <= Play(maxEntries, w, acts).put
    decreases |acts|
  {
    if acts != [] {
      PutGrows(maxEntries, Do(maxEntries, w, acts[0]), acts[1..]);
    }
  }

  // --- What a Clear call announces ---

  lemma {:induction false} ClearWaits(maxEntries: nat, w: World, acts: seq<Act>, k: nat)
    requires Schedule(maxEntries, w, acts) && k in w.clears
    requires forall i :: 0 <= i < |acts| ==> acts[i] != WipeStep(k)
    ensures k in Play(maxEntries, w, acts).clears && Play(maxEntries, w, acts).clears[k] == w.clears[k]
    decreases |acts|
  {
    if acts != [] {
      assert acts[0] != WipeStep(k);
      ClearWaits(maxEntries, Do(maxEntries, w, acts[0]), acts[1..], k);
    }
  }

  /** While each id is finalized once, an id with a row, or that had one, is not inserted. */
  lemma {:induction false} TracedIsNotInserted(maxEntries: nat, w: World, acts: seq<Act>, found: set<string>, id: string)
    requires Schedule(maxEntries, w, acts) && Orderly(maxEntries, w, acts, found) && WrittenOnce(w, found)
    requires id in Held(w) || id in w.gone
    ensures InsertsOf(acts, id) == 0
    decreases |acts|
  {
    if acts != [] {
      var act := acts[0];
      if act.InsertStep? {
        BegunIsUntouched(w, found, act.k);
      }
      StepKeepsWrittenOnce(maxEntries, w, act, found);
      HeldOrGone(maxEntries, w, act, id);
      TracedIsNotInserted(maxEntries, Do(maxEntries, w, act), acts[1..], found, id);
    }
  }

  /** A Clear call asks for the ids of the rows, then deletes every row, and announces the ids it was given. Between
      the two anything may happen. An id whose row it deletes goes unannounced exactly if it had no row when the ids
      were asked for. */
  lemma ClearAnnounces(maxEntries: nat, w: World, between: seq<Act>, k: nat, id: string)
    requires NoDup(RowIds(w.rows)) && Possible(w, ListIdsStep(k))
    requires var asked := Do(maxEntries, w, ListIdsStep(k));
             Schedule(maxEntries, asked, between) && forall i :: 0 <= i < |between| ==> between[i] != WipeStep(k)
    ensures var v := Play(maxEntries, Do(maxEntries, w, ListIdsStep(k)), between);
            && Possible(v, WipeStep(k))
            && var wiped := Do(maxEntries, v, WipeStep(k)).clears[k];
            && wiped.Wiped? && wiped.deleted == Held(v)
            && (id in wiped.deleted ==> (id !in wiped.announced <==> id !in Held(w)))
            && (id in wiped.deleted && id !in wiped.announced ==> InsertsOf(between, id) > 0)
  {
    var asked := Do(maxEntries, w, ListIdsStep(k));
    var v := Play(maxEntries, asked, between);
    ClearWaits(maxEntries, asked, between, k);
    if id in Held(v) && id !in Held(w) {
      ArrivedByInsert(maxEntries, asked, between, id);
    }
  }

  /** Where ids are registered once and no two Finalize calls overlap on one: an id whose row Clear deletes goes
      unannounced exactly if that row was inserted between the two statements. */
  lemma UnannouncedIffInsertedBetween(maxEntries: nat, w: World, between: seq<Act>, found: set<string>, k: nat, id: string)
    requires WrittenOnce(w, found) && Possible(w, ListIdsStep(k))
    requires var asked := Do(maxEntries, w, ListIdsStep(k));
             && Schedule(maxEntries, asked, between) && Orderly(maxEntries, asked, between, found)
             && forall i :: 0 <= i < |between| ==> between[i] != WipeStep(k)
    ensures var v := Play(maxEntries, Do(maxEntries, w, ListIdsStep(k)), between);
            && Possible(v, WipeStep(k))
            && var wiped := Do(maxEntries, v, WipeStep(k)).clears[k];
            && wiped.Wiped?
            && (id in wiped.deleted ==> (id !in wiped.announced <==> InsertsOf(between, id) > 0))
  {
    var asked := Do(maxEntries, w, ListIdsStep(k));
    ClearAnnounces(maxEntries, w, between, k, id);
    StepKeepsWrittenOnce(maxEntries, w, ListIdsStep(k), found);
    if id in Held(w) {
      TracedIsNotInserted(maxEntries, asked, between, found, id);
    }
  }

  /** A schedule in which a finished entry disappears without an announcement. */
  function Silent(row: Row): seq<Act> {
    [Register("a"), BeginFinalize(0, "a"), ListIdsStep(0), InsertStep(0, row), WipeStep(0)]
  }

  lemma ClearIsSilent(row: Row)
    requires row.id == "a"
    ensures Schedule(5, Opened([]), Silent(row))
    ensures var w := Play(5, Opened([]), Silent(row));
            0 in w.clears && w.clears[0] == Wiped({}, {"a"}) && w.rows == []
  {
    var acts := Silent(row);
    var w1 := Do(5, Opened([]), acts[0]);
    var w2 := Do(5, w1, acts[1]);
    var w3 := Do(5, w2, acts[2]);
    var w4 := Do(5, w3, acts[3]);
    InsertIntoEmpty(row);
    assert RowIds([row])[0] == "a";
    assert Held(w2) == {} && Held(w4) == {"a"};
    Continue(5, w4, acts[4..], []);
    Continue(5, w3, acts[3..], acts[4..]);
    Continue(5, w2, acts[2..], acts[3..]);
    Continue(5, w1, acts[1..], acts[2..]);
    Continue(5, Opened([]), acts, acts[1..]);
  }
}
