/** The properties an update event leaves out: what the page shows of them, and exactly when that is what the store holds. */
module PageGaps {
  import opened Types
  import opened RowCodec
  import opened BodyBuffers
  import opened Memory
  import opened Database
  import opened StoreSpec
  import opened Listing
  import opened Mirror
  import Capture

  /** The properties a list row carries and an update event does not. */
  datatype Prop = ErrorProp | FormatProp | VerbProp | UrlProp | RequestFormatProp | OllamaProp | ReplayProp | StartProp

  function KeyOf(p: Prop): Key {
    match p
    case ErrorProp => ErrorText
    case FormatProp => ResponseFormat
    case VerbProp => Verb
    case UrlProp => Url
    case RequestFormatProp => RequestFormat
    case OllamaProp => IsOllama
    case ReplayProp => IsReplay
    case StartProp => StartedMs
  }

  function Blank(p: Prop): Value {
    match p
    case ErrorProp => Str("")
    case FormatProp => Fmt(NoFormat)
    case RequestFormatProp => Fmt(NoFormat)
    case _ => Null
  }

  function PropOf(p: Prop, e: Entry): Value {
    match p
    case ErrorProp => Str(e.error)
    case FormatProp => Fmt(e.responseFormat)
    case VerbProp => Str(e.about.verb)
    case UrlProp => Str(e.about.url)
    case RequestFormatProp => Fmt(e.about.requestFormat)
    case OllamaProp => Flag(e.about.isOllama)
    case ReplayProp => Flag(e.about.isReplay)
    case StartProp => Num(UnixMilli(e.startedAt))
  }

  /** What is read off a row; an absent property reads as blank. */
  function ShownProp(p: Prop, o: Obj): Value { if KeyOf(p) in o then o[KeyOf(p)] else Blank(p) }

  /** The page shows the property as the store holds it, for every entry known. */
  ghost predicate MirrorsProp(p: Prop, c: Client, s: State) {
    forall id :: id in c.rows && Get(s, id).Ok? ==> ShownProp(p, c.rows[id]) == PropOf(p, Get(s, id).value)
  }

  /** No entry known before and after has it changed. */
  ghost predicate PropKept(p: Prop, s: State, s': State) {
    forall id :: Get(s, id).Ok? && Get(s', id).Ok? ==> PropOf(p, Get(s', id).value) == PropOf(p, Get(s, id).value)
  }

  // --- What events do to it ---

  lemma NewRowShowsProp(p: Prop, e: Entry)
    ensures ShownProp(p, map[] + NewListRow(e)) == PropOf(p, e)
  {
    ListRowReads(e, KeyOf(p));
    MergeNothing(NewListRow(e));
  }

  predicate NoneCreated(events: seq<Event>) {
    forall i :: 0 <= i < |events| ==> !events[i].Created?
  }

  lemma EventKeepsProp(p: Prop, c: Client, ev: Event, id: string)
    requires !ev.Created? && id in Handle(c, ev).rows
    ensures id in c.rows && ShownProp(p, Handle(c, ev).rows[id]) == ShownProp(p, c.rows[id])
  {
    if ev.Updated? && ev.id == id {
      ErrorIsNotMirrored(c, id, ev.entry, KeyOf(p));
    }
  }

  lemma {:induction false} FoldKeepsProp(p: Prop, c: Client, events: seq<Event>, id: string)
    requires NoneCreated(events) && id in Fold(c, events).rows
    ensures id in c.rows && ShownProp(p, Fold(c, events).rows[id]) == ShownProp(p, c.rows[id])
    decreases |events|
  {
    if events != [] {
      FoldKeepsProp(p, Handle(c, events[0]), events[1..], id);
      EventKeepsProp(p, c, events[0], id);
    }
  }

  // --- Which events a step publishes ---

  ghost predicate NoneCreatedSince(s: State, s': State) {
    s.events <= s'.events && NoneCreated(NewEvents(s, s'))
  }

  lemma NoneCreatedTwice(s: State, s1: State, s2: State)
    requires NoneCreatedSince(s, s1) && NoneCreatedSince(s1, s2)
    ensures NoneCreatedSince(s, s2)
  {
    EventsOfTwo(s, s1, s2);
  }

  lemma FinalizeCreatesNone(cfg: Config, s: State, id: string, fn: Edit, now: int)
    ensures NoneCreatedSince(s, Finalize(cfg, s, id, fn, now))
  {
  }

  lemma {:induction false} FinalizeAllCreatesNone(cfg: Config, s: State, ids: seq<string>, fn: Edit, now: int)
    ensures NoneCreatedSince(s, FinalizeAll(cfg, s, ids, fn, now))
    decreases |ids|
  {
    if ids != [] {
      var s1 := Finalize(cfg, s, ids[0], fn, now);
      FinalizeCreatesNone(cfg, s, ids[0], fn, now);
      FinalizeAllCreatesNone(cfg, s1, ids[1..], fn, now);
      NoneCreatedTwice(s, s1, FinalizeAll(cfg, s1, ids[1..], fn, now));
    }
  }

  lemma StepCreatesNone(cfg: Config, s: State, op: Op)
    requires !op.OpPut?
    ensures NoneCreatedSince(s, Step(cfg, s, op))
  {
    match op
    case OpFinalize(id, fn, now) => FinalizeCreatesNone(cfg, s, id, fn, now);
    case OpSweep(order, _, message, now) => FinalizeAllCreatesNone(cfg, s, order, TimeoutEdit(message), now);
    case _ =>
  }

  /** The value a row starts out with: that of the last Put of the id, or the one it had before. */
  function Born(p: Prop, op: Op, id: string, before: Value): Value {
    if op.OpPut? && AssignedId(op.e, op.newId) == id then PropOf(p, Registered(op.e, op.newId, op.now)) else before
  }

  /** After the events of a step, a row shows the value it was born with. */
  lemma StepShows(p: Prop, cfg: Config, c: Client, s: State, op: Op, id: string)
    requires Inv(s) && Mirrors(c, s) && Enabled(s, op)
    ensures Follows(c, s, Step(cfg, s, op))
    ensures var c' := Fold(c, NewEvents(s, Step(cfg, s, op)));
            id in c'.rows ==>
              && ShownProp(p, c'.rows[id]) == Born(p, op, id, if id in c.rows then ShownProp(p, c.rows[id]) else Blank(p))
              && (id in c.rows || (op.OpPut? && AssignedId(op.e, op.newId) == id))
  {
    var s' := Step(cfg, s, op);
    StepFollows(cfg, c, s, op);
    if op.OpPut? {
      PutShows(p, c, s, op.e, op.newId, op.now, id);
    } else {
      StepCreatesNone(cfg, s, op);
      if id in Fold(c, NewEvents(s, s')).rows {
        FoldKeepsProp(p, c, NewEvents(s, s'), id);
      }
    }
  }

  /** The page after a Put. */
  lemma PutHandled(c: Client, s: State, e: Entry, newId: string, now: int)
    requires Mirrors(c, s) && Enabled(s, OpPut(e, newId, now))
    ensures var s', live := Put(s, e, newId, now), Live(Registered(e, newId, now), EMPTY_BUF, EMPTY_BUF, now);
            && s.events <= s'.events
            && AssignedId(e, newId) !in c.rows
            && Fold(c, NewEvents(s, s')) == Upsert(c, AssignedId(e, newId), NewListRow(Snapshot(live)))
  {
    var live := Live(Registered(e, newId, now), EMPTY_BUF, EMPTY_BUF, now);
    OneEvent(c, s, Put(s, e, newId, now), Created(AssignedId(e, newId), Snapshot(live)));
  }

  lemma PutShows(p: Prop, c: Client, s: State, e: Entry, newId: string, now: int, id: string)
    requires Inv(s) && Mirrors(c, s) && Enabled(s, OpPut(e, newId, now))
    requires s.events <= Put(s, e, newId, now).events
    ensures var added, c' := AssignedId(e, newId), Fold(c, NewEvents(s, Put(s, e, newId, now)));
            && (id in c'.rows ==> id in c.rows || id == added)
            && (id in c.rows && id != added ==> id in c'.rows && c'.rows[id] == c.rows[id])
            && (id == added ==> id in c'.rows && ShownProp(p, c'.rows[id]) == PropOf(p, Registered(e, newId, now)))
  {
    PutHandled(c, s, e, newId, now);
    NewRowShowsProp(p, Snapshot(Live(Registered(e, newId, now), EMPTY_BUF, EMPTY_BUF, now)));
  }

  // --- One step ---

  lemma StepShowsAt(p: Prop, cfg: Config, c: Client, s: State, op: Op, id: string)
    requires Inv(s) && Mirrors(c, s) && MirrorsProp(p, c, s) && Enabled(s, op)
    ensures Follows(c, s, Step(cfg, s, op))
    ensures var s' := Step(cfg, s, op);
            var c' := Fold(c, NewEvents(s, s'));
            && (id in c'.rows <==> Get(s', id).Ok?)
            && (id in c.rows <==> Get(s, id).Ok?)
            && (id in c.rows && id in c'.rows ==> ShownProp(p, c'.rows[id]) == PropOf(p, Get(s, id).value))
            && (id !in c.rows && id in c'.rows ==>
                  && op.OpPut? && id == AssignedId(op.e, op.newId)
                  && ShownProp(p, c'.rows[id]) == PropOf(p, Registered(op.e, op.newId, op.now)))
  {
    StepShows(p, cfg, c, s, op, id);
    StepKeepsInv(cfg, s, op);
    MirrorsGet(c, s, id);
    MirrorsGet(Fold(c, NewEvents(s, Step(cfg, s, op))), Step(cfg, s, op), id);
    if op.OpPut? && id == AssignedId(op.e, op.newId) {
      assert forall i :: 0 <= i < |s.table| ==> RowIds(s.table)[i] != id;
    }
  }

  lemma PutIsShown(p: Prop, s: State, e: Entry, newId: string, now: int)
    ensures var id := AssignedId(e, newId);
            Get(Put(s, e, newId, now), id).Ok? && PropOf(p, Get(Put(s, e, newId, now), id).value) == PropOf(p, Registered(e, newId, now))
  {
  }

  /** What rows still known show is what the store held before, so it is what the store holds now exactly if that has
      not changed. */
  lemma ShownBefore(p: Prop, c: Client, c': Client, s: State, s': State)
    requires forall id :: id in c'.rows <==> Get(s', id).Ok?
    requires forall id :: id in c.rows <==> Get(s, id).Ok?
    requires forall id :: id in c.rows && id in c'.rows ==> ShownProp(p, c'.rows[id]) == PropOf(p, Get(s, id).value)
    requires forall id :: id !in c.rows && id in c'.rows ==> ShownProp(p, c'.rows[id]) == PropOf(p, Get(s', id).value)
    ensures MirrorsProp(p, c', s') <==> PropKept(p, s, s')
  {
  }

  /** The page shows the property after a step exactly if the step left it unchanged for every entry still known. */
  lemma StepMirrorsProp(p: Prop, cfg: Config, c: Client, s: State, op: Op)
    requires Inv(s) && Mirrors(c, s) && MirrorsProp(p, c, s) && Enabled(s, op)
    ensures Follows(c, s, Step(cfg, s, op))
    ensures MirrorsProp(p, Fold(c, NewEvents(s, Step(cfg, s, op))), Step(cfg, s, op)) <==> PropKept(p, s, Step(cfg, s, op))
  {
    StepFollows(cfg, c, s, op);
    forall id
    {
      StepShowsAt(p, cfg, c, s, op, id);
    }
    if op.OpPut? {
      PutIsShown(p, s, op.e, op.newId, op.now);
    }
    ShownBefore(p, c, Fold(c, NewEvents(s, Step(cfg, s, op))), s, Step(cfg, s, op));
  }

  // --- Which operations leave it unchanged ---

  lemma FindOther(t: seq<Row>, k: nat, r: Row, x: string)
    requires k <= |t| && NoDup(RowIds(InsertAt(t, k, r))) && x != r.id
    ensures FindRow(InsertAt(t, k, r), x) == FindRow(t, x)
  {
    var u := InsertAt(t, k, r);
    var g := FindRow(t, x);
    assert forall j :: 0 <= j <= |t| && j != k ==> u[j] == t[if j < k then j else j - 1];
    if g.Some? {
      var i :| 0 <= i < |t| && t[i] == g.value;
      var j := if i < k then i else i + 1;
      assert u[j] == t[i];
      FindUnique(u, j);
    }
  }

  lemma PropSurvivesRow(p: Prop, e: Entry)
    ensures PropOf(p, Decode(Encode(e))) == PropOf(p, e)
  {
    MilliRoundTrip(e.startedAt);
  }

  lemma MovedProp(p: Prop, s: State, id: string, fn: Edit, now: int)
    requires Inv(s) && id in s.mem
    ensures var g := Get(MoveToTable(s, id, fn, now), id);
            g.Ok? && PropOf(p, g.value) == PropOf(p, fn(s.mem[id].entry))
  {
    var k, r := MovedTable(s, id, fn, now);
    PropSurvivesRow(p, Snapshot(Finished(s.mem[id], fn, now)));
  }

  lemma OtherUnmoved(s: State, id: string, fn: Edit, now: int, x: string)
    requires Inv(s) && id in s.mem && x != id
    ensures Get(MoveToTable(s, id, fn, now), x) == Get(s, x)
  {
    var k, r := MovedTable(s, id, fn, now);
    FindOther(s.table, k, r, x);
  }

  /** Finalize changes the property of its own entry alone, as the edit does. */
  lemma MoveProps(p: Prop, s: State, id: string, fn: Edit, now: int, x: string)
    requires Inv(s) && id in s.mem
    ensures var g := Get(MoveToTable(s, id, fn, now), x);
            if x == id then g.Ok? && PropOf(p, g.value) == PropOf(p, fn(s.mem[id].entry)) else g == Get(s, x)
  {
    if x == id {
      MovedProp(p, s, id, fn, now);
    } else {
      OtherUnmoved(s, id, fn, now, x);
    }
  }

  lemma FinalizeProps(p: Prop, cfg: Config, s: State, id: string, fn: Edit, now: int, x: string)
    requires Inv(s) && id in s.mem && Get(Finalize(cfg, s, id, fn, now), x).Ok?
    ensures Get(s, x).Ok?
    ensures PropOf(p, Get(Finalize(cfg, s, id, fn, now), x).value) ==
            PropOf(p, if x == id then fn(s.mem[id].entry) else Get(s, x).value)
  {
    MoveKeepsInv(s, id, fn, now);
    MoveProps(p, s, id, fn, now, x);
    var s1 := MoveToTable(s, id, fn, now);
    FindKept(s1.table, Min(cfg.maxEntries, |s1.table|), x);
  }

  lemma {:induction false} FinalizeAllProps(p: Prop, cfg: Config, s: State, ids: seq<string>, fn: Edit, now: int, x: string)
    requires Inv(s) && Get(FinalizeAll(cfg, s, ids, fn, now), x).Ok?
    ensures Get(s, x).Ok?
    ensures PropOf(p, Get(FinalizeAll(cfg, s, ids, fn, now), x).value) ==
            PropOf(p, if x in ids && x in s.mem then fn(s.mem[x].entry) else Get(s, x).value)
    decreases |ids|
  {
    if ids != [] {
      var s1 := Finalize(cfg, s, ids[0], fn, now);
      FinalizeKeepsInv(cfg, s, ids[0], fn, now);
      FinalizeAllProps(p, cfg, s1, ids[1..], fn, now, x);
      if ids[0] in s.mem {
        FinalizeProps(p, cfg, s, ids[0], fn, now, x);
      }
      assert x in ids <==> x == ids[0] || x in ids[1..];
    }
  }

  /** Whether a finished entry is among those retention keeps. */
  predicate Survives(cfg: Config, s: State, id: string, fn: Edit, now: int)
    requires id in s.mem
  {
    InsertPos(Starts(s.table), UnixMilli(Settled(s.mem[id].entry, fn, now).startedAt)) < cfg.maxEntries
  }

  lemma SurvivorIsKept(cfg: Config, s: State, id: string, fn: Edit, now: int)
    requires Inv(s) && id in s.mem && Survives(cfg, s, id, fn, now)
    ensures Get(Finalize(cfg, s, id, fn, now), id).Ok?
  {
    var k, r := MovedTable(s, id, fn, now);
    var u, v := InsertAt(s.table, k, r), Finalize(cfg, s, id, fn, now).table;
    assert v == Kept(u, cfg.maxEntries);
    assert u[k] == r;
    assert v[k] == r;
  }

  lemma OthersFillTheCap(t: seq<Row>, k: nat, r: Row, maxEntries: nat, id: string)
    requires k <= |t| && id !in RowIds(t) && maxEntries <= k
    ensures FindRow(Kept(InsertAt(t, k, r), maxEntries), id).None?
  {
    var v := Kept(InsertAt(t, k, r), maxEntries);
    assert v == t[..maxEntries];
    forall i | 0 <= i < |v|
      ensures v[i].id != id
    {
      assert RowIds(t)[i] == v[i].id;
    }
  }

  lemma SurvivorIsKnown(cfg: Config, s: State, id: string, fn: Edit, now: int)
    requires Inv(s) && id in s.mem
    ensures Get(Finalize(cfg, s, id, fn, now), id).Ok? <==> Survives(cfg, s, id, fn, now)
  {
    if Survives(cfg, s, id, fn, now) {
      SurvivorIsKept(cfg, s, id, fn, now);
    } else {
      var k, r := MovedTable(s, id, fn, now);
      assert forall i :: 0 <= i < |s.table| ==> RowIds(s.table)[i] != id;
      OthersFillTheCap(s.table, k, r, cfg.maxEntries, id);
    }
  }

  // --- Whom a sweep keeps ---

  /** The row that finishing an entry writes. */
  function RowOf(mem: map<string, Live>, id: string, fn: Edit, now: int): Row
    requires id in mem
  {
    Encode(Snapshot(Finished(mem[id], fn, now)))
  }

  /** The table rows and those of the entries finished, in order, with none trimmed away. */
  function Untrimmed(t: seq<Row>, mem: map<string, Live>, ids: seq<string>, fn: Edit, now: int): seq<Row>
    decreases |ids|
  {
    if ids == [] then t
    else Untrimmed(if ids[0] in mem then InsertRow(t, RowOf(mem, ids[0], fn, now)) else t, mem, ids[1..], fn, now)
  }

  /** The row of the id is among the first n. */
  predicate Within(t: seq<Row>, n: nat, id: string) {
    exists i :: 0 <= i < |t| && i < n && t[i].id == id
  }

  lemma {:induction false} InsertPosInPrefix(starts: seq<int>, x: int, k: nat)
    requires k <= |starts|
    ensures InsertPos(starts[..k], x) == Min(InsertPos(starts, x), k)
  {
    if k > 0 && starts[0] >= x {
      assert starts[..k][1..] == starts[1..][..k - 1];
      InsertPosInPrefix(starts[1..], x, k - 1);
    }
  }

  /** Trimming before an insert makes no difference to what is left after the next trim. */
  lemma KeptInsert(t: seq<Row>, r: Row, n: nat)
    requires r.id !in RowIds(t)
    ensures Kept(InsertRow(Kept(t, n), r), n) == Kept(InsertRow(t, r), n)
  {
    var k := InsertPos(Starts(t), r.startedAt);
    InsertsPlainly(t, r);
    if n <= |t| {
      KeptIds(t, n, r.id);
      InsertsPlainly(t[..n], r);
      assert Starts(t[..n]) == Starts(t)[..n];
      InsertPosInPrefix(Starts(t), r.startedAt, n);
      InsertInPrefix(t, r, k, n);
    }
  }

  lemma InsertsPlainly(t: seq<Row>, r: Row)
    requires r.id !in RowIds(t)
    ensures InsertRow(t, r) == InsertAt(t, InsertPos(Starts(t), r.startedAt), r)
  {
    forall i | 0 <= i < |t|
      ensures t[i].id != r.id
    {
      assert RowIds(t)[i] == t[i].id;
    }
    DeleteMissing(t, r.id);
  }

  lemma KeptIds(t: seq<Row>, n: nat, id: string)
    requires n <= |t|
    ensures id !in RowIds(t) ==> id !in RowIds(t[..n])
  {
    assert RowIds(t[..n]) == RowIds(t)[..n];
  }

  lemma InsertInPrefix<T>(t: seq<T>, r: T, k: nat, n: nat)
    requires k <= |t| && n <= |t|
    ensures InsertAt(t[..n], Min(k, n), r)[..n] == InsertAt(t, k, r)[..n]
  {
    var u, v := InsertAt(t[..n], Min(k, n), r), InsertAt(t, k, r);
    assert forall i :: 0 <= i < n ==> u[i] == v[i];
  }

  lemma {:induction false} UntrimmedWithout(t: seq<Row>, mem: map<string, Live>, id: string, ids: seq<string>, fn: Edit, now: int)
    requires id !in ids
    ensures Untrimmed(t, mem - {id}, ids, fn, now) == Untrimmed(t, mem, ids, fn, now)
    decreases |ids|
  {
    if ids != [] {
      var u := if ids[0] in mem then InsertRow(t, RowOf(mem, ids[0], fn, now)) else t;
      UntrimmedWithout(u, mem, id, ids[1..], fn, now);
    }
  }

  /** One Finalize, seen on tables that agree up to the cap. */
  lemma FinalizedTable(cfg: Config, s: State, u: seq<Row>, id: string, fn: Edit, now: int)
    requires Inv(s) && id in s.mem && s.table == Kept(u, cfg.maxEntries) && id !in RowIds(u)
    ensures Finalize(cfg, s, id, fn, now).table == Kept(InsertRow(u, RowOf(s.mem, id, fn, now)), cfg.maxEntries)
    ensures Finalize(cfg, s, id, fn, now).mem == s.mem - {id}
  {
    KeptInsert(u, RowOf(s.mem, id, fn, now), cfg.maxEntries);
  }

  lemma InsertedIds(t: seq<Row>, r: Row, id: string)
    requires id !in RowIds(t) && r.id !in RowIds(t) && id != r.id
    ensures id !in RowIds(InsertRow(t, r))
  {
    InsertsPlainly(t, r);
    var k := InsertPos(Starts(t), r.startedAt);
    InsertColumns(t, k, r);
    assert forall i :: 0 <= i <= |t| ==> RowIds(InsertAt(t, k, r))[i] == if i == k then r.id else RowIds(t)[if i < k then i else i - 1];
  }

  lemma {:induction false} TrimmedAlong(cfg: Config, s: State, u: seq<Row>, ids: seq<string>, fn: Edit, now: int)
    requires Inv(s) && NoDup(ids) && s.table == Kept(u, cfg.maxEntries)
    requires forall id :: id in s.mem ==> id !in RowIds(u)
    ensures FinalizeAll(cfg, s, ids, fn, now).table == Kept(Untrimmed(u, s.mem, ids, fn, now), cfg.maxEntries)
    decreases |ids|
  {
    if ids != [] {
      var id, rest := ids[0], ids[1..];
      assert ids == [id] + rest;
      NoDupCons(id, rest);
      if id in s.mem {
        var r, s1 := RowOf(s.mem, id, fn, now), Finalize(cfg, s, id, fn, now);
        FinalizedTable(cfg, s, u, id, fn, now);
        FinalizeKeepsInv(cfg, s, id, fn, now);
        forall x | x in s1.mem
          ensures x !in RowIds(InsertRow(u, r))
        {
          InsertedIds(u, r, x);
        }
        TrimmedAlong(cfg, s1, InsertRow(u, r), rest, fn, now);
        UntrimmedWithout(InsertRow(u, r), s.mem, id, rest, fn, now);
      } else {
        TrimmedAlong(cfg, s, u, rest, fn, now);
      }
    }
  }

  /** A sweep that finishes anything leaves the first maxEntries of the rows there would be without trimming. */
  lemma {:induction false} SweptTable(cfg: Config, s: State, ids: seq<string>, fn: Edit, now: int)
    requires Inv(s) && NoDup(ids) && exists id :: id in ids && id in s.mem
    ensures FinalizeAll(cfg, s, ids, fn, now).table == Kept(Untrimmed(s.table, s.mem, ids, fn, now), cfg.maxEntries)
    decreases |ids|
  {
    var id, rest := ids[0], ids[1..];
    assert ids == [id] + rest;
    NoDupCons(id, rest);
    assert forall x :: x in s.mem ==> x !in RowIds(s.table);
    if id in s.mem {
      var r, s1 := RowOf(s.mem, id, fn, now), Finalize(cfg, s, id, fn, now);
      FinalizeKeepsInv(cfg, s, id, fn, now);
      forall x | x in s1.mem
        ensures x !in RowIds(InsertRow(s.table, r))
      {
        InsertedIds(s.table, r, x);
      }
      TrimmedAlong(cfg, s1, InsertRow(s.table, r), rest, fn, now);
      UntrimmedWithout(InsertRow(s.table, r), s.mem, id, rest, fn, now);
    } else {
      SweptTable(cfg, s, rest, fn, now);
    }
  }

  /** An entry finished by a sweep is still known exactly if its place among all the rows, none trimmed, is within the
      cap. */
  lemma SweptSurvivorIsKnown(cfg: Config, s: State, ids: seq<string>, fn: Edit, now: int, id: string)
    requires Inv(s) && NoDup(ids) && id in ids && id in s.mem
    ensures Get(FinalizeAll(cfg, s, ids, fn, now), id).Ok? <==>
            Within(Untrimmed(s.table, s.mem, ids, fn, now), cfg.maxEntries, id)
  {
    SweptTable(cfg, s, ids, fn, now);
    SweepEmptiesMemory(cfg, s, ids, fn, now);
    assert id in Elements(ids);
    FoundWithin(Untrimmed(s.table, s.mem, ids, fn, now), cfg.maxEntries, id);
  }

  lemma FoundWithin(t: seq<Row>, n: nat, id: string)
    ensures FindRow(Kept(t, n), id).Some? <==> Within(t, n, id)
  {
    var v := Kept(t, n);
    var r := FindRow(v, id);
    assert forall i :: 0 <= i < |t| && i < n ==> v[i] == t[i];
    if r.Some? {
      var i :| 0 <= i < |v| && v[i] == r.value;
      assert t[i].id == id;
    }
  }

  ghost predicate SurvivesSweep(cfg: Config, s: State, order: seq<string>, message: string, now: int, id: string) {
    Within(Untrimmed(s.table, s.mem, order, TimeoutEdit(message), now), cfg.maxEntries, id)
  }

  /** What a caller can check before the call: the edit leaves the property of the entry as it is, if it keeps the entry
      at all. A sweep sets the error of the entries that had none, unless its message is empty. */
  ghost predicate PropGuard(p: Prop, cfg: Config, s: State, op: Op) {
    match op
    case OpUpdate(id, fn, _) => id in s.mem ==> PropOf(p, fn(s.mem[id].entry)) == PropOf(p, s.mem[id].entry)
    case OpFinalize(id, fn, now) =>
      id in s.mem && Survives(cfg, s, id, fn, now) ==> PropOf(p, fn(s.mem[id].entry)) == PropOf(p, s.mem[id].entry)
    case OpSweep(order, _, message, now) =>
      p == ErrorProp ==>
        forall id :: id in order && id in s.mem && SurvivesSweep(cfg, s, order, message, now, id) ==>
          s.mem[id].entry.error != "" || message == ""
    case _ => true
  }

  lemma UpdateGuard(p: Prop, s: State, id: string, fn: Edit, now: int)
    requires Inv(s) && id in s.mem
    ensures PropKept(p, s, Update(s, id, fn, now)) <==> PropOf(p, fn(s.mem[id].entry)) == PropOf(p, s.mem[id].entry)
  {
    var s' := Update(s, id, fn, now);
    assert PropOf(p, Get(s', id).value) == PropOf(p, fn(s.mem[id].entry));
    assert PropOf(p, Get(s, id).value) == PropOf(p, s.mem[id].entry);
    assert forall x :: x != id ==> Get(s', x) == Get(s, x);
  }

  lemma FinalizedGuard(p: Prop, cfg: Config, s: State, id: string, fn: Edit, now: int)
    requires Inv(s) && id in s.mem
    ensures PropKept(p, s, Finalize(cfg, s, id, fn, now)) <==>
            (Get(Finalize(cfg, s, id, fn, now), id).Ok? ==> PropOf(p, fn(s.mem[id].entry)) == PropOf(p, s.mem[id].entry))
  {
    var s' := Finalize(cfg, s, id, fn, now);
    assert PropOf(p, Get(s, id).value) == PropOf(p, s.mem[id].entry);
    forall x | Get(s', x).Ok?
      ensures Get(s, x).Ok?
      ensures PropOf(p, Get(s', x).value) == if x == id then PropOf(p, fn(s.mem[id].entry)) else PropOf(p, Get(s, x).value)
    {
      FinalizeProps(p, cfg, s, id, fn, now, x);
    }
    OneChanged(p, s, s', id, PropOf(p, fn(s.mem[id].entry)));
  }

  /** Where only one entry's property can have changed. */
  lemma OneChanged(p: Prop, s: State, s': State, id: string, v: Value)
    requires Get(s, id).Ok?
    requires forall x :: Get(s', x).Ok? ==>
               Get(s, x).Ok? && PropOf(p, Get(s', x).value) == if x == id then v else PropOf(p, Get(s, x).value)
    ensures PropKept(p, s, s') <==> (Get(s', id).Ok? ==> v == PropOf(p, Get(s, id).value))
  {
  }

  lemma FinalizeGuard(p: Prop, cfg: Config, s: State, id: string, fn: Edit, now: int)
    requires Inv(s)
    ensures PropKept(p, s, Finalize(cfg, s, id, fn, now)) <==> PropGuard(p, cfg, s, OpFinalize(id, fn, now))
  {
    if id in s.mem {
      FinalizedGuard(p, cfg, s, id, fn, now);
      SurvivorIsKnown(cfg, s, id, fn, now);
    }
  }

  lemma SweepGuard(p: Prop, cfg: Config, s: State, order: seq<string>, timeout: int, message: string, now: int)
    requires Inv(s) && Enabled(s, OpSweep(order, timeout, message, now))
    ensures PropKept(p, s, Sweep(cfg, s, order, message, now)) <==> PropGuard(p, cfg, s, OpSweep(order, timeout, message, now))
  {
    var s' := Sweep(cfg, s, order, message, now);
    forall x | Get(s', x).Ok?
      ensures Get(s, x).Ok?
      ensures PropOf(p, Get(s', x).value) ==
              PropOf(p, if x in order && x in s.mem then TimeoutEdit(message)(s.mem[x].entry) else Get(s, x).value)
      ensures x in s.mem ==> PropOf(p, Get(s, x).value) == PropOf(p, s.mem[x].entry)
    {
      FinalizeAllProps(p, cfg, s, order, TimeoutEdit(message), now, x);
    }
    forall x | x in order && x in s.mem
      ensures Get(s', x).Ok? <==> SurvivesSweep(cfg, s, order, message, now, x)
    {
      SweptSurvivorIsKnown(cfg, s, order, TimeoutEdit(message), now, x);
    }
  }

  /** A step leaves the property unchanged exactly if its guard holds. */
  lemma KeptIffGuard(p: Prop, cfg: Config, s: State, op: Op)
    requires Inv(s) && Enabled(s, op)
    ensures PropKept(p, s, Step(cfg, s, op)) <==> PropGuard(p, cfg, s, op)
  {
    match op
    case OpUpdate(id, fn, now) =>
      if id in s.mem {
        UpdateGuard(p, s, id, fn, now);
      }
    case OpFinalize(id, fn, now) => FinalizeGuard(p, cfg, s, id, fn, now);
    case OpSweep(order, timeout, message, now) => SweepGuard(p, cfg, s, order, timeout, message, now);
    case OpPut(e, newId, now) => PutKeeps(p, s, e, newId, now);
    case OpClear(order) => ClearKeeps(p, s, order);
    case _ => SameTable(p, s, Step(cfg, s, op));
  }

  lemma PutKeeps(p: Prop, s: State, e: Entry, newId: string, now: int)
    requires Enabled(s, OpPut(e, newId, now))
    ensures PropKept(p, s, Put(s, e, newId, now))
  {
    var added := AssignedId(e, newId);
    assert forall i :: 0 <= i < |s.table| ==> RowIds(s.table)[i] != added;
    assert Get(s, added).Err?;
    assert forall id :: id != added ==> Get(Put(s, e, newId, now), id) == Get(s, id);
  }

  lemma ClearKeeps(p: Prop, s: State, order: seq<string>)
    ensures PropKept(p, s, Clear(s, order))
  {
    assert forall id :: Get(Clear(s, order), id).Ok? ==> Get(Clear(s, order), id) == Get(s, id);
  }

  /** Bytes arriving change no property. */
  lemma SameTable(p: Prop, s: State, s': State)
    requires s'.table == s.table && s'.mem.Keys == s.mem.Keys
    requires forall id :: id in s.mem ==> s'.mem[id].entry == s.mem[id].entry
    ensures PropKept(p, s, s')
  {
    forall id | Get(s, id).Ok?
      ensures PropOf(p, Get(s', id).value) == PropOf(p, Get(s, id).value)
    {
      if id in s.mem {
        assert Get(s', id).value.error == Get(s, id).value.error;
      }
    }
  }

  /** After every store method, the page shows each error (or response format) as the store holds it exactly if the
      method's guard held. */
  lemma PropMirroredIffGuard(p: Prop, cfg: Config, c: Client, s: State, op: Op)
    requires Inv(s) && Mirrors(c, s) && MirrorsProp(p, c, s) && Enabled(s, op)
    ensures Follows(c, s, Step(cfg, s, op))
    ensures MirrorsProp(p, Fold(c, NewEvents(s, Step(cfg, s, op))), Step(cfg, s, op)) <==> PropGuard(p, cfg, s, op)
  {
    StepMirrorsProp(p, cfg, c, s, op);
    KeptIffGuard(p, cfg, s, op);
  }

  // --- Runs ---

  function BornIn(p: Prop, ops: seq<Op>, id: string, before: Value): Value {
    if ops == [] then before else BornIn(p, ops[1..], id, Born(p, ops[0], id, before))
  }

  /** Over any run a row goes on showing the value it was born with. */
  lemma {:induction false} RunShows(p: Prop, cfg: Config, c: Client, s: State, ops: seq<Op>, id: string, before: Value)
    requires Inv(s) && Mirrors(c, s) && EnabledRun(cfg, s, ops)
    requires id in c.rows ==> ShownProp(p, c.rows[id]) == before
    ensures Follows(c, s, Run(cfg, s, ops))
    ensures var c' := Fold(c, NewEvents(s, Run(cfg, s, ops)));
            id in c'.rows ==> ShownProp(p, c'.rows[id]) == BornIn(p, ops, id, before)
    decreases |ops|
  {
    RunFollows(cfg, c, s, ops);
    if ops == [] {
      assert NewEvents(s, s) == [];
    } else {
      var s1 := Step(cfg, s, ops[0]);
      StepShows(p, cfg, c, s, ops[0], id);
      StepKeepsInv(cfg, s, ops[0]);
      var c1 := Fold(c, NewEvents(s, s1));
      RunShows(p, cfg, c1, s1, ops[1..], id, Born(p, ops[0], id, before));
      EventsChain(c, s, s1, Run(cfg, s1, ops[1..]));
    }
  }

  lemma EventsChain(c: Client, s: State, s1: State, s2: State)
    requires s.events <= s1.events <= s2.events
    ensures Fold(c, NewEvents(s, s2)) == Fold(Fold(c, NewEvents(s, s1)), NewEvents(s1, s2))
  {
    EventsOfTwo(s, s1, s2);
    FoldAppend(c, NewEvents(s, s1), NewEvents(s1, s2));
  }

  /** After any run the page shows the property as the store holds it exactly if every entry known then holds the value
      it had when it was put, or when the page was in step. */
  lemma RunMirrorsProp(p: Prop, cfg: Config, c: Client, s: State, ops: seq<Op>)
    requires Inv(s) && Mirrors(c, s) && MirrorsProp(p, c, s) && EnabledRun(cfg, s, ops)
    ensures Follows(c, s, Run(cfg, s, ops))
    ensures var s' := Run(cfg, s, ops);
            MirrorsProp(p, Fold(c, NewEvents(s, s')), s') <==>
            forall id :: Get(s', id).Ok? ==>
              PropOf(p, Get(s', id).value) == BornIn(p, ops, id, if Get(s, id).Ok? then PropOf(p, Get(s, id).value) else Blank(p))
  {
    var s' := Run(cfg, s, ops);
    RunFollows(cfg, c, s, ops);
    var c' := Fold(c, NewEvents(s, s'));
    forall id
      ensures id in c'.rows <==> Get(s', id).Ok?
      ensures id in c'.rows ==>
                ShownProp(p, c'.rows[id]) == BornIn(p, ops, id, if Get(s, id).Ok? then PropOf(p, Get(s, id).value) else Blank(p))
    {
      MirrorsGet(c, s, id);
      MirrorsGet(c', s', id);
      RunShows(p, cfg, c, s, ops, id, if Get(s, id).Ok? then PropOf(p, Get(s, id).value) else Blank(p));
    }
  }

  /** Every step of the run meets the guard. */
  ghost predicate GuardedRun(p: Prop, cfg: Config, s: State, ops: seq<Op>)
    decreases |ops|
  {
    ops == [] || (Enabled(s, ops[0]) && PropGuard(p, cfg, s, ops[0]) && GuardedRun(p, cfg, Step(cfg, s, ops[0]), ops[1..]))
  }

  /** So where no edit touches the property, every row shows it as the store holds it. */
  lemma {:induction false} GuardedRunShows(p: Prop, cfg: Config, c: Client, s: State, ops: seq<Op>)
    requires Inv(s) && Mirrors(c, s) && MirrorsProp(p, c, s) && GuardedRun(p, cfg, s, ops)
    ensures Follows(c, s, Run(cfg, s, ops))
    ensures MirrorsProp(p, Fold(c, NewEvents(s, Run(cfg, s, ops))), Run(cfg, s, ops))
    decreases |ops|
  {
    if ops == [] {
      SameEntriesFollow(c, s, s);
      assert NewEvents(s, s) == [];
    } else {
      var s1 := Step(cfg, s, ops[0]);
      PropMirroredIffGuard(p, cfg, c, s, ops[0]);
      StepKeepsInv(cfg, s, ops[0]);
      GuardedRunShows(p, cfg, Fold(c, NewEvents(s, s1)), s1, ops[1..]);
      FollowsTwice(c, s, s1, Run(cfg, s1, ops[1..]));
      EventsChain(c, s, s1, Run(cfg, s1, ops[1..]));
    }
  }

  /** A freshly loaded list shows every property as the store holds it. */
  lemma LoadMirrorsProp(p: Prop, s: State, order: seq<string>)
    requires Inv(s) && Enumerates(order, s.mem.Keys)
    ensures MirrorsProp(p, Load(AllOf(s, order)), s)
  {
    var all := AllOf(s, order);
    IdsOfAll(s, order);
    forall id | id in Load(all).rows
      ensures Get(s, id).Ok? && ShownProp(p, Load(all).rows[id]) == PropOf(p, Get(s, id).value)
    {
      var i :| 0 <= i < |all| && Ids(all)[i] == id;
      LoadedRow(all, i);
      ListRowReads(all[i], KeyOf(p));
      ListedIsKnown(s, order, all[i]);
    }
  }

  // --- Two runs in which the page is wrong ---

  const EMPTY_CLIENT := Client(map[], [])
  const NEW_STATE := State(map[], [], map[], [])

  /** An exchange that is pending and has neither an error nor a response format yet. */
  const PENDING_ENTRY := Entry("a", About("GET", "/", NoFormat, false, false, None), Pending, 0, "", NoFormat, None,
                               NO_BODY, NO_BODY, 0, None, Times(None, None, None))

  lemma PutAlone(cfg: Config)
    ensures var put := OpPut(PENDING_ENTRY, "", 0);
            var s := Step(cfg, NEW_STATE, put);
            && Enabled(NEW_STATE, put) && Inv(NEW_STATE) && Mirrors(EMPTY_CLIENT, NEW_STATE)
            && s.mem.Keys == {"a"} && s.mem["a"].entry == PENDING_ENTRY && s.mem["a"].lastSeen == 0 && s.table == []
            && Inv(s)
  {
    StepKeepsInv(cfg, NEW_STATE, OpPut(PENDING_ENTRY, "", 0));
  }

  /** Registered, then swept: the store holds the message, and the row shows no error. */
  lemma SweptErrorIsNotShown(cfg: Config)
    requires cfg.maxEntries > 0
    ensures var ops := [OpPut(PENDING_ENTRY, "", 0), OpSweep(["a"], 1, "late", 5)];
            var s := Run(cfg, NEW_STATE, ops);
            && EnabledRun(cfg, NEW_STATE, ops)
            && Get(s, "a").Ok? && Get(s, "a").value.error == "late"
            && NEW_STATE.events <= s.events
            && var c := Fold(EMPTY_CLIENT, NewEvents(NEW_STATE, s));
            && "a" in c.rows && ShownProp(ErrorProp, c.rows["a"]) == Str("")
  {
    var put, sweep := OpPut(PENDING_ENTRY, "", 0), OpSweep(["a"], 1, "late", 5);
    var ops := [put, sweep];
    var s1 := Step(cfg, NEW_STATE, put);
    PutAlone(cfg);
    assert Elements(["a"]) == {"a"} == StaleIds(s1, 1, 5);
    TwoSteps(cfg, NEW_STATE, put, sweep);
    RunShows(ErrorProp, cfg, EMPTY_CLIENT, NEW_STATE, ops, "a", Blank(ErrorProp));
    BornInTwo(ErrorProp, put, sweep, "a");
    OnlyFinalize(cfg, s1, "a", TimeoutEdit("late"), 5);
    SurvivorIsKnown(cfg, s1, "a", TimeoutEdit("late"), 5);
    FinalizeProps(ErrorProp, cfg, s1, "a", TimeoutEdit("late"), 5, "a");
    RunKeepsKnown(cfg, EMPTY_CLIENT, NEW_STATE, ops, "a");
  }

  /** Registered, then the response format is found out: the store holds it, and the row does not show it. */
  lemma FoundFormatIsNotShown(cfg: Config)
    ensures var ops := [OpPut(PENDING_ENTRY, "", 0), OpUpdate("a", Capture.FormatEdit(Json), 5)];
            var s := Run(cfg, NEW_STATE, ops);
            && EnabledRun(cfg, NEW_STATE, ops)
            && Get(s, "a").Ok? && Get(s, "a").value.responseFormat == Json
            && NEW_STATE.events <= s.events
            && var c := Fold(EMPTY_CLIENT, NewEvents(NEW_STATE, s));
            && "a" in c.rows && ShownProp(FormatProp, c.rows["a"]) == Fmt(NoFormat)
  {
    var put, update := OpPut(PENDING_ENTRY, "", 0), OpUpdate("a", Capture.FormatEdit(Json), 5);
    PutAlone(cfg);
    TwoSteps(cfg, NEW_STATE, put, update);
    RunShows(FormatProp, cfg, EMPTY_CLIENT, NEW_STATE, [put, update], "a", Blank(FormatProp));
    BornInTwo(FormatProp, put, update, "a");
    RunKeepsKnown(cfg, EMPTY_CLIENT, NEW_STATE, [put, update], "a");
  }

  lemma TwoSteps(cfg: Config, s: State, a: Op, b: Op)
    ensures Run(cfg, s, [a, b]) == Step(cfg, Step(cfg, s, a), b)
    ensures EnabledRun(cfg, s, [a, b]) <==> Enabled(s, a) && Enabled(Step(cfg, s, a), b)
  {
    var s1 := Step(cfg, s, a);
    assert [a, b][1..] == [b] && [b][1..] == [];
    RunOne(cfg, s1, b);
    assert EnabledRun(cfg, s1, [b]) <==> Enabled(s1, b) && EnabledRun(cfg, Step(cfg, s1, b), []);
  }

  lemma BornInTwo(p: Prop, a: Op, b: Op, id: string)
    ensures BornIn(p, [a, b], id, Blank(p)) == Born(p, b, id, Born(p, a, id, Blank(p)))
  {
    assert [a, b][1..] == [b] && [b][1..] == [];
    assert BornIn(p, [b], id, Born(p, a, id, Blank(p))) == BornIn(p, [], id, Born(p, b, id, Born(p, a, id, Blank(p))));
  }

  lemma OnlyFinalize(cfg: Config, s: State, id: string, fn: Edit, now: int)
    ensures FinalizeAll(cfg, s, [id], fn, now) == Finalize(cfg, s, id, fn, now)
  {
    var s1 := Finalize(cfg, s, id, fn, now);
    assert [id][1..] == [];
    assert FinalizeAll(cfg, s1, [], fn, now) == s1;
  }

  lemma RunKeepsKnown(cfg: Config, c: Client, s: State, ops: seq<Op>, id: string)
    requires Inv(s) && Mirrors(c, s) && EnabledRun(cfg, s, ops)
    ensures Follows(c, s, Run(cfg, s, ops))
    ensures id in Fold(c, NewEvents(s, Run(cfg, s, ops))).rows <==> Get(Run(cfg, s, ops), id).Ok?
  {
    RunFollows(cfg, c, s, ops);
    MirrorsGet(Fold(c, NewEvents(s, Run(cfg, s, ops))), Run(cfg, s, ops), id);
  }
}
