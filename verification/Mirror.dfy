/** The list kept by a connected page: loaded once, then kept up to date from the event stream. */
module Mirror {
  import opened Types
  import opened RowCodec
  import opened BodyBuffers
  import opened Memory
  import opened Database
  import opened StoreSpec
  import opened Listing

  // --- Payloads ---

  /** Properties of a list row as the page sees them. */
  datatype Key =
    | Id | Verb | Url | StatusKey | StatusCode | ErrorText | RequestFormat | ResponseFormat
    | IsOllama | IsReplay | StartedMs | TtfbMs | StreamMs | TotalMs

  datatype Value = Str(s: string) | Num(n: int) | Flag(b: bool) | Stat(status: Status) | Fmt(format: Format) | Null

  /** A decoded JSON object; a property left out is not a key. */
  type Obj = map<Key, Value>

  function OrNull(v: Option<int>): Value { if v.Some? then Num(v.value) else Null }

  /** A property that is left out when it holds its zero value. */
  function OmitEmpty(k: Key, v: Value, empty: bool): Obj { if empty then map[] else map[k := v] }

  function Durations(t: Times): Obj {
    map[TtfbMs := OrNull(t.ttfbMs), StreamMs := OrNull(t.streamMs), TotalMs := OrNull(t.totalMs)]
  }

  /** The properties a row may leave out. */
  function Omittable(e: Entry): Obj {
    OmitEmpty(StatusCode, Num(e.statusCode), e.statusCode == 0)
    + OmitEmpty(ErrorText, Str(e.error), e.error == "")
    + OmitEmpty(RequestFormat, Fmt(e.about.requestFormat), e.about.requestFormat == NoFormat)
    + OmitEmpty(ResponseFormat, Fmt(e.responseFormat), e.responseFormat == NoFormat)
  }

  /** The properties every row has. */
  function Fixed(e: Entry): Obj {
    map[Id := Str(e.id), Verb := Str(e.about.verb), Url := Str(e.about.url), StatusKey := Stat(e.status),
        IsOllama := Flag(e.about.isOllama), IsReplay := Flag(e.about.isReplay), StartedMs := Num(UnixMilli(e.startedAt))]
  }

  function NewListRow(e: Entry): Obj { Fixed(e) + Omittable(e) + Durations(e.times) }

  function UpdatePayload(id: string, e: Entry): Obj {
    map[Id := Str(id), StatusKey := Stat(e.status), StatusCode := Num(e.statusCode)] + Durations(e.times)
  }

  // --- The page's state ---

  datatype Client = Client(rows: map<string, Obj>, order: seq<string>)

  /** Object.assign onto what is known of the row; a new row goes first. */
  function Upsert(c: Client, id: string, row: Obj): Client {
    var known := if id in c.rows then c.rows[id] else map[];
    Client(c.rows[id := known + row], if id in c.rows then c.order else [id] + c.order)
  }

  function Without(order: seq<string>, id: string): seq<string> {
    if order == [] then []
    else if order[0] == id then Without(order[1..], id)
    else [order[0]] + Without(order[1..], id)
  }

  function Remove(c: Client, id: string): Client {
    Client(c.rows - {id}, Without(c.order, id))
  }

  /** The handlers of the four event types; an update of an unknown row is ignored, and deltas do not touch the list. */
  function Handle(c: Client, ev: Event): Client {
    match ev
    case Created(id, e) => Upsert(c, e.id, NewListRow(e))
    case Updated(id, e) => if id in c.rows then Upsert(c, id, UpdatePayload(id, e)) else c
    case Delta(_, _) => c
    case Deleted(id) => Remove(c, id)
  }

  function Fold(c: Client, events: seq<Event>): Client
    decreases |events|
  {
    if events == [] then c else Fold(Handle(c, events[0]), events[1..])
  }

  /** What `load` makes of a list answer. */
  function Load(entries: seq<Entry>): Client {
    Client(LoadRows(entries), Ids(entries))
  }

  /** Later rows win, as with repeated Map.set. */
  function LoadRows(entries: seq<Entry>): (rows: map<string, Obj>)
    ensures rows.Keys == Elements(Ids(entries))
  {
    if entries == [] then map[]
    else
      var e := entries[|entries| - 1];
      var before := entries[..|entries| - 1];
      assert Ids(entries) == Ids(before) + [e.id];
      LoadRows(before)[e.id := NewListRow(e)]
  }

  class Page {
    var rows: map<string, Obj>
    var order: seq<string>

    ghost function View(): Client
      reads this
    {
      Client(rows, order)
    }

    constructor ()
      ensures View() == Client(map[], [])
    {
      rows, order := map[], [];
    }

    method UpsertRow(id: string, row: Obj)
      modifies this
      ensures View() == Upsert(old(View()), id, row)
    {
      var known := id in rows;
      var merged := map[];
      if known {
        merged := rows[id];
      }
      rows := rows[id := merged + row];
      if !known {
        order := [id] + order;
      }
    }

    method RemoveRow(id: string)
      modifies this
      ensures View() == Remove(old(View()), id)
    {
      rows := rows - {id};
      var kept := [];
      for i := 0 to |order|
        invariant order == old(order) && rows == old(rows) - {id}
        invariant kept + Without(order[i..], id) == Without(old(order), id)
      {
        assert order[i..][1..] == order[i + 1..];
        if order[i] != id {
          kept := kept + [order[i]];
        }
      }
      order := kept;
    }

    method OnEvent(ev: Event)
      modifies this
      ensures View() == Handle(old(View()), ev)
    {
      match ev
      case Created(_, e) => UpsertRow(e.id, NewListRow(e));
      case Updated(id, e) =>
        if id !in rows {
          return;
        }
        UpsertRow(id, UpdatePayload(id, e));
      case Delta(_, _) =>
      case Deleted(id) => RemoveRow(id);
    }

    method LoadList(entries: seq<Entry>)
      modifies this
      ensures View() == Load(entries)
    {
      rows, order := map[], [];
      for i := 0 to |entries|
        invariant rows == LoadRows(entries[..i]) && order == Ids(entries[..i])
      {
        assert entries[..i + 1][..i] == entries[..i];
        rows := rows[entries[i].id := NewListRow(entries[i])];
        order := order + [entries[i].id];
      }
      assert entries[..|entries|] == entries;
    }
  }

  // --- What a row shows ---

  /** The part of an entry that the page keeps in step. */
  datatype Face = Face(status: Status, statusCode: int, times: Times)

  function FaceOf(e: Entry): Face { Face(e.status, e.statusCode, e.times) }

  function ReadNum(o: Obj, k: Key): Option<int> {
    if k in o && o[k].Num? then Some(o[k].n) else None
  }

  /** What is read off a row; an absent status code reads as zero. */
  function Shown(o: Obj): Face {
    Face(if StatusKey in o && o[StatusKey].Stat? then o[StatusKey].status else Unset,
         if ReadNum(o, StatusCode).Some? then ReadNum(o, StatusCode).value else 0,
         Times(ReadNum(o, TtfbMs), ReadNum(o, StreamMs), ReadNum(o, TotalMs)))
  }

  lemma OmittableHolds(e: Entry)
    ensures Omittable(e).Keys <= {StatusCode, ErrorText, RequestFormat, ResponseFormat}
    ensures StatusCode in Omittable(e) <==> e.statusCode != 0
    ensures StatusCode in Omittable(e) ==> Omittable(e)[StatusCode] == Num(e.statusCode)
    ensures ErrorText in Omittable(e) <==> e.error != ""
    ensures ErrorText in Omittable(e) ==> Omittable(e)[ErrorText] == Str(e.error)
    ensures RequestFormat in Omittable(e) <==> e.about.requestFormat != NoFormat
    ensures RequestFormat in Omittable(e) ==> Omittable(e)[RequestFormat] == Fmt(e.about.requestFormat)
    ensures ResponseFormat in Omittable(e) <==> e.responseFormat != NoFormat
    ensures ResponseFormat in Omittable(e) ==> Omittable(e)[ResponseFormat] == Fmt(e.responseFormat)
  {
  }

  lemma MergedKey(a: Obj, b: Obj, c: Obj, k: Key)
    requires k !in c
    ensures k in a + b + c <==> k in a || k in b
    ensures k in b ==> (a + b + c)[k] == b[k]
    ensures k in a && k !in b ==> (a + b + c)[k] == a[k]
  {
  }

  lemma FixedReads(e: Entry, k: Key)
    requires k in {Id, Verb, Url, IsOllama, IsReplay, StartedMs}
    ensures k in Fixed(e) ==> k in NewListRow(e) && NewListRow(e)[k] == Fixed(e)[k]
  {
    OmittableHolds(e);
    NoDuration(e, k);
    MergedKey(Fixed(e), Omittable(e), Durations(e.times), k);
  }

  lemma NoDuration(e: Entry, k: Key)
    requires k !in {TtfbMs, StreamMs, TotalMs}
    ensures k !in Durations(e.times)
  {
  }

  lemma OmittableReads(e: Entry, k: Key)
    requires k in {StatusCode, ErrorText, RequestFormat, ResponseFormat}
    ensures k in NewListRow(e) <==> k in Omittable(e)
    ensures k in NewListRow(e) ==> NewListRow(e)[k] == Omittable(e)[k]
  {
    NoDuration(e, k);
    MergedKey(Fixed(e), Omittable(e), Durations(e.times), k);
  }

  /** What a list row says of the exchange itself; a format or an error is left out where there is none. */
  lemma ListRowReads(e: Entry, k: Key)
    ensures var row := NewListRow(e);
            match k
            case Id => k in row && row[k] == Str(e.id)
            case Verb => k in row && row[k] == Str(e.about.verb)
            case Url => k in row && row[k] == Str(e.about.url)
            case IsOllama => k in row && row[k] == Flag(e.about.isOllama)
            case IsReplay => k in row && row[k] == Flag(e.about.isReplay)
            case StartedMs => k in row && row[k] == Num(UnixMilli(e.startedAt))
            case RequestFormat => if k in row then row[k] == Fmt(e.about.requestFormat) else e.about.requestFormat == NoFormat
            case ResponseFormat => if k in row then row[k] == Fmt(e.responseFormat) else e.responseFormat == NoFormat
            case ErrorText => if k in row then row[k] == Str(e.error) else e.error == ""
            case _ => true
  {
    if k in {ErrorText, RequestFormat, ResponseFormat} {
      OmittableHolds(e);
      OmittableReads(e, k);
    } else if k in {Id, Verb, Url, IsOllama, IsReplay, StartedMs} {
      FixedReads(e, k);
    }
  }

  /** A row with these properties, merged over another one, shows them; a code it leaves out stays as it was. */
  predicate Faces(row: Obj, f: Face) {
    && StatusKey in row && row[StatusKey] == Stat(f.status)
    && (StatusCode in row <==> f.statusCode != 0) && (StatusCode in row ==> row[StatusCode] == Num(f.statusCode))
    && TtfbMs in row && row[TtfbMs] == OrNull(f.times.ttfbMs)
    && StreamMs in row && row[StreamMs] == OrNull(f.times.streamMs)
    && TotalMs in row && row[TotalMs] == OrNull(f.times.totalMs)
  }

  lemma MergeNothing(row: Obj)
    ensures map[] + row == row
  {
  }

  lemma ListRowFaces(e: Entry)
    ensures Faces(NewListRow(e), FaceOf(e))
  {
    OmittableHolds(e);
    assert StatusCode in NewListRow(e) <==> StatusCode in Omittable(e);
  }

  lemma MergedShows(known: Obj, row: Obj, f: Face)
    requires Faces(row, f)
    ensures Shown(known + row) == f.(statusCode := if f.statusCode == 0 then Shown(known).statusCode else f.statusCode)
  {
  }

  /** Merging a list row over a known one: the code is kept where the new row leaves it out. */
  lemma MergeShows(known: Obj, e: Entry)
    ensures Shown(known + NewListRow(e)) == FaceOf(e).(statusCode := if e.statusCode == 0 then Shown(known).statusCode else e.statusCode)
  {
    ListRowFaces(e);
    MergedShows(known, NewListRow(e), FaceOf(e));
  }

  lemma ListRowShows(e: Entry)
    ensures Shown(NewListRow(e)) == FaceOf(e)
  {
    MergeShows(map[], e);
    MergeNothing(NewListRow(e));
  }

  lemma UpdateShows(o: Obj, id: string, e: Entry)
    ensures Shown(o + UpdatePayload(id, e)) == FaceOf(e)
  {
  }

  // --- The mirror ---

  /** A list that holds each of its rows once. */
  predicate Tidy(c: Client) {
    NoDup(c.order) && Elements(c.order) == c.rows.Keys
  }

  ghost predicate ShowsPending(c: Client, mem: map<string, Live>) {
    forall id :: id in mem ==> id in c.rows && Shown(c.rows[id]) == FaceOf(mem[id].entry)
  }

  ghost predicate ShowsRows(c: Client, table: seq<Row>) {
    forall i :: 0 <= i < |table| ==> table[i].id in c.rows && Shown(c.rows[table[i].id]) == FaceOf(Decode(table[i]))
  }

  /** The page lists exactly the ids of memory and table, each once, and shows each entry's status, code and durations. */
  ghost predicate Mirrors(c: Client, s: State) {
    && c.rows.Keys == s.mem.Keys + Elements(RowIds(s.table))
    && Tidy(c)
    && ShowsPending(c, s.mem)
    && ShowsRows(c, s.table)
  }

  /** The events published between two states. */
  function NewEvents(s: State, s': State): seq<Event>
    requires s.events <= s'.events
  {
    s'.events[|s.events|..]
  }

  lemma {:induction false} FoldAppend(c: Client, a: seq<Event>, b: seq<Event>)
    ensures Fold(c, a + b) == Fold(Fold(c, a), b)
    decreases |a|
  {
    if a == [] {
      assert a + b == b;
    } else {
      assert (a + b)[0] == a[0] && (a + b)[1..] == a[1..] + b;
      FoldAppend(Handle(c, a[0]), a[1..], b);
    }
  }

  lemma FoldOne(c: Client, ev: Event)
    ensures Fold(c, [ev]) == Handle(c, ev)
  {
    assert Fold(c, [ev]) == Fold(Handle(c, ev), []);
  }

  lemma {:induction false} WithoutKeeps(order: seq<string>, id: string)
    requires NoDup(order)
    ensures NoDup(Without(order, id)) && Elements(Without(order, id)) == Elements(order) - {id}
  {
    if order != [] {
      var x, rest := order[0], order[1..];
      assert order == [x] + rest;
      NoDupCons(x, rest);
      WithoutKeeps(rest, id);
      NoDupCons(x, Without(rest, id));
      assert Elements(order) == {x} + Elements(rest);
      assert Elements([x] + Without(rest, id)) == {x} + Elements(Without(rest, id));
      assert x !in Elements(rest);
    }
  }

  lemma UpsertTidy(c: Client, id: string, row: Obj)
    requires Tidy(c)
    ensures Tidy(Upsert(c, id, row))
  {
    if id !in c.rows {
      NoDupCons(id, c.order);
      assert id !in Elements(c.order);
      assert Elements([id] + c.order) == {id} + Elements(c.order);
    }
  }

  lemma {:induction false} FoldDeleted(c: Client, ids: seq<string>)
    requires Tidy(c)
    ensures Tidy(Fold(c, DeletedEvents(ids)))
    ensures Fold(c, DeletedEvents(ids)).rows == c.rows - Elements(ids)
    decreases |ids|
  {
    if ids == [] {
      assert c.rows - Elements(ids) == c.rows;
    } else {
      WithoutKeeps(c.order, ids[0]);
      assert DeletedEvents(ids)[0] == Deleted(ids[0]) && DeletedEvents(ids)[1..] == DeletedEvents(ids[1..]);
      FoldDeleted(Handle(c, Deleted(ids[0])), ids[1..]);
      HeadAndTail(ids);
      RemoveTwice(c.rows, {ids[0]}, Elements(ids[1..]));
    }
  }

  // --- Every step keeps the mirror ---

  /** After the events of the step, the page mirrors the new state. */
  ghost predicate Follows(c: Client, s: State, s': State) {
    s.events <= s'.events && Mirrors(Fold(c, NewEvents(s, s')), s')
  }

  lemma FollowsTwice(c: Client, s: State, s1: State, s2: State)
    requires Follows(c, s, s1) && Follows(Fold(c, NewEvents(s, s1)), s1, s2)
    ensures Follows(c, s, s2)
  {
    EventsOfTwo(s, s1, s2);
    FoldAppend(c, NewEvents(s, s1), NewEvents(s1, s2));
  }

  lemma EventsOfTwo(s: State, s1: State, s2: State)
    requires s.events <= s1.events <= s2.events
    ensures NewEvents(s, s2) == NewEvents(s, s1) + NewEvents(s1, s2)
  {
  }

  lemma UpsertMirrors(c: Client, s: State, s': State, id: string, live: Live, row: Obj)
    requires Mirrors(c, s) && id !in RowIds(s.table)
    requires s'.mem == s.mem[id := live] && s'.table == s.table
    requires Shown((if id in c.rows then c.rows[id] else map[]) + row) == FaceOf(live.entry)
    ensures Mirrors(Upsert(c, id, row), s')
  {
    UpsertTidy(c, id, row);
    UpsertShowsPending(c, s.mem, id, live, row);
    UpsertOthers(c, id, row);
    OtherRowsStay(c, Upsert(c, id, row), s.table, id);
  }

  lemma UpsertOthers(c: Client, id: string, row: Obj)
    ensures Upsert(c, id, row).rows.Keys == c.rows.Keys + {id}
    ensures forall x :: x in c.rows && x != id ==> x in Upsert(c, id, row).rows && Upsert(c, id, row).rows[x] == c.rows[x]
  {
  }

  lemma UpsertShowsPending(c: Client, mem: map<string, Live>, id: string, live: Live, row: Obj)
    requires ShowsPending(c, mem)
    requires Shown((if id in c.rows then c.rows[id] else map[]) + row) == FaceOf(live.entry)
    ensures ShowsPending(Upsert(c, id, row), mem[id := live])
  {
  }

  /** Rows of other ids are shown as before. */
  lemma OtherRowsStay(c: Client, c': Client, table: seq<Row>, id: string)
    requires ShowsRows(c, table) && id !in RowIds(table)
    requires forall x :: x in c.rows && x != id ==> x in c'.rows && c'.rows[x] == c.rows[x]
    ensures ShowsRows(c', table)
  {
    forall i | 0 <= i < |table|
      ensures table[i].id != id
    {
      assert RowIds(table)[i] == table[i].id;
    }
  }

  lemma OneEvent(c: Client, s: State, s': State, ev: Event)
    requires s'.events == s.events + [ev]
    ensures s.events <= s'.events && Fold(c, NewEvents(s, s')) == Handle(c, ev)
  {
    assert NewEvents(s, s') == [ev];
    FoldOne(c, ev);
  }

  lemma CreateMirrors(c: Client, s: State, s': State, id: string, live: Live, e: Entry)
    requires Mirrors(c, s) && id !in s.mem && id !in RowIds(s.table)
    requires s'.mem == s.mem[id := live] && s'.table == s.table
    requires FaceOf(e) == FaceOf(live.entry)
    ensures Mirrors(Upsert(c, id, NewListRow(e)), s')
  {
    var row := NewListRow(e);
    assert id !in c.rows;
    MergeNothing(row);
    ListRowShows(e);
    UpsertMirrors(c, s, s', id, live, row);
  }

  lemma PutFollows(c: Client, s: State, e: Entry, newId: string, now: int)
    requires Inv(s) && Mirrors(c, s) && Enabled(s, OpPut(e, newId, now))
    ensures Follows(c, s, Put(s, e, newId, now))
  {
    var id := AssignedId(e, newId);
    var live := Live(Registered(e, newId, now), EMPTY_BUF, EMPTY_BUF, now);
    OneEvent(c, s, Put(s, e, newId, now), Created(id, Snapshot(live)));
    CreateMirrors(c, s, Put(s, e, newId, now), id, live, Snapshot(live));
  }

  lemma UpdateFollows(c: Client, s: State, id: string, fn: Edit, now: int)
    requires Inv(s) && Mirrors(c, s) && id in s.mem
    ensures Follows(c, s, Update(s, id, fn, now))
  {
    var live := Edited(s.mem[id], fn, now);
    OneEvent(c, s, Update(s, id, fn, now), Updated(id, Snapshot(live)));
    UpdateShows(c.rows[id], id, Snapshot(live));
    assert forall i :: 0 <= i < |s.table| ==> RowIds(s.table)[i] != id;
    UpsertMirrors(c, s, Update(s, id, fn, now), id, live, UpdatePayload(id, Snapshot(live)));
  }

  /** Bytes arriving change nothing the list shows. */
  lemma SameEntriesFollow(c: Client, s: State, s': State)
    requires Mirrors(c, s) && s'.table == s.table && s'.mem.Keys == s.mem.Keys
    requires forall id :: id in s.mem ==> s'.mem[id].entry == s.mem[id].entry
    requires s'.events == s.events || exists id, chunk :: s'.events == s.events + [Delta(id, chunk)]
    ensures Follows(c, s, s')
  {
    if s'.events == s.events {
      assert NewEvents(s, s') == [];
    } else {
      var id, chunk :| s'.events == s.events + [Delta(id, chunk)];
      OneEvent(c, s, s', Delta(id, chunk));
    }
  }

  lemma MovedMirrors(c: Client, s: State, s': State, id: string, e: Entry, k: nat)
    requires Inv(s) && Mirrors(c, s) && id in s.mem && e.id == id && k <= |s.table|
    requires s'.mem == s.mem - {id} && s'.table == InsertAt(s.table, k, Encode(e))
    requires Elements(RowIds(s'.table)) == Elements(RowIds(s.table)) + {id} && id !in RowIds(s.table)
    ensures Mirrors(Upsert(c, id, UpdatePayload(id, e)), s')
  {
    var row := UpdatePayload(id, e);
    var c' := Upsert(c, id, row);
    UpdateShows(c.rows[id], id, e);
    UpsertTidy(c, id, row);
    OtherRowsStay(c, c', s.table, id);
    InsertShows(c', s.table, k, Encode(e), e);
    RestShowsPending(c, s.mem, id, row);
    MovedIds(s.mem, Elements(RowIds(s.table)), id);
    UpsertOthers(c, id, row);
  }

  lemma MovedIds(mem: map<string, Live>, ids: set<string>, id: string)
    requires id in mem
    ensures (mem - {id}).Keys + (ids + {id}) == (mem.Keys + ids) + {id} == mem.Keys + ids
  {
  }

  lemma RestShowsPending(c: Client, mem: map<string, Live>, id: string, row: Obj)
    requires ShowsPending(c, mem)
    ensures ShowsPending(Upsert(c, id, row), mem - {id})
  {
  }

  lemma InsertShows(c: Client, t: seq<Row>, k: nat, r: Row, e: Entry)
    requires k <= |t| && ShowsRows(c, t) && r == Encode(e) && e.id in c.rows && Shown(c.rows[e.id]) == FaceOf(e)
    ensures ShowsRows(c, InsertAt(t, k, r))
  {
    var u := InsertAt(t, k, r);
    assert FaceOf(Decode(r)) == FaceOf(e);
    forall i | 0 <= i < |u|
      ensures u[i].id in c.rows && Shown(c.rows[u[i].id]) == FaceOf(Decode(u[i]))
    {
      if i != k {
        assert u[i] == t[if i < k then i else i - 1];
      }
    }
  }

  lemma MoveFollows(c: Client, s: State, id: string, fn: Edit, now: int)
    requires Inv(s) && Mirrors(c, s) && id in s.mem
    ensures Follows(c, s, MoveToTable(s, id, fn, now))
  {
    var e := Snapshot(Finished(s.mem[id], fn, now));
    var s' := MoveToTable(s, id, fn, now);
    OneEvent(c, s, s', Updated(id, e));
    var k, r := MovedTable(s, id, fn, now);
    MovedMirrors(c, s, s', id, e, k);
  }

  lemma TrimmedIds(s: State, k: nat)
    requires Inv(s) && k <= |s.table|
    ensures var ids := RowIds(s.table);
            && RowIds(s.table[..k]) == ids[..k]
            && s.mem.Keys + Elements(ids) - Elements(ids[k..]) == s.mem.Keys + Elements(ids[..k])
            && s.mem.Keys !! Elements(ids[k..])
            && forall i :: 0 <= i < k ==> s.table[i].id !in Elements(ids[k..])
  {
    var ids := RowIds(s.table);
    SplitIds(ids, k);
    assert forall i :: 0 <= i < |ids| ==> ids[i] !in s.mem;
    assert forall i :: 0 <= i < |ids| - k ==> ids[k..][i] == ids[k + i];
    assert forall i :: 0 <= i < k ==> ids[..k][i] in Elements(ids[..k]);
  }

  lemma TrimmedMirrors(c: Client, c': Client, s: State, s': State, k: nat)
    requires Inv(s) && Mirrors(c, s) && k <= |s.table|
    requires s'.mem == s.mem && s'.table == s.table[..k]
    requires Tidy(c') && c'.rows == c.rows - Elements(RowIds(s.table)[k..])
    ensures Mirrors(c', s')
  {
    TrimmedIds(s, k);
  }

  lemma TrimFollows(cfg: Config, c: Client, s: State)
    requires Inv(s) && Mirrors(c, s)
    ensures Follows(c, s, Trim(cfg, s))
  {
    var s', victims := Trim(cfg, s), Victims(cfg, s);
    var k := Min(cfg.maxEntries, |s.table|);
    assert NewEvents(s, s') == DeletedEvents(victims);
    FoldDeleted(c, victims);
    assert victims == RowIds(s.table)[k..];
    TrimmedMirrors(c, Fold(c, DeletedEvents(victims)), s, s', k);
  }

  lemma FinalizeFollows(cfg: Config, c: Client, s: State, id: string, fn: Edit, now: int)
    requires Inv(s) && Mirrors(c, s)
    ensures Follows(c, s, Finalize(cfg, s, id, fn, now))
  {
    if id in s.mem {
      var s1 := MoveToTable(s, id, fn, now);
      MoveFollows(c, s, id, fn, now);
      MoveKeepsInv(s, id, fn, now);
      TrimFollows(cfg, Fold(c, NewEvents(s, s1)), s1);
      FollowsTwice(c, s, s1, Trim(cfg, s1));
    } else {
      SameEntriesFollow(c, s, s);
    }
  }

  lemma {:induction false} FinalizeAllFollows(cfg: Config, c: Client, s: State, ids: seq<string>, fn: Edit, now: int)
    requires Inv(s) && Mirrors(c, s)
    ensures Follows(c, s, FinalizeAll(cfg, s, ids, fn, now))
    decreases |ids|
  {
    if ids == [] {
      SameEntriesFollow(c, s, s);
    } else {
      var s1 := Finalize(cfg, s, ids[0], fn, now);
      FinalizeFollows(cfg, c, s, ids[0], fn, now);
      FinalizeKeepsInv(cfg, s, ids[0], fn, now);
      FinalizeAllFollows(cfg, Fold(c, NewEvents(s, s1)), s1, ids[1..], fn, now);
      FollowsTwice(c, s, s1, FinalizeAll(cfg, s1, ids[1..], fn, now));
    }
  }

  lemma ClearFollows(c: Client, s: State, order: seq<string>)
    requires Inv(s) && Mirrors(c, s) && Enumerates(order, Elements(RowIds(s.table)))
    ensures Follows(c, s, Clear(s, order))
  {
    var s' := Clear(s, order);
    assert NewEvents(s, s') == DeletedEvents(order);
    FoldDeleted(c, order);
    assert forall i :: 0 <= i < |s.table| ==> RowIds(s.table)[i] !in s.mem;
  }

  lemma StepFollows(cfg: Config, c: Client, s: State, op: Op)
    requires Inv(s) && Mirrors(c, s) && Enabled(s, op)
    ensures Follows(c, s, Step(cfg, s, op))
  {
    match op
    case OpPut(e, newId, now) => PutFollows(c, s, e, newId, now);
    case OpUpdate(id, fn, now) =>
      if id in s.mem {
        UpdateFollows(c, s, id, fn, now);
      } else {
        SameEntriesFollow(c, s, s);
      }
    case OpFinalize(id, fn, now) => FinalizeFollows(cfg, c, s, id, fn, now);
    case OpClear(order) => ClearFollows(c, s, order);
    case OpSweep(order, _, message, now) => FinalizeAllFollows(cfg, c, s, order, TimeoutEdit(message), now);
    case _ => SameEntriesFollow(c, s, Step(cfg, s, op));
  }

  ghost predicate EnabledRun(cfg: Config, s: State, ops: seq<Op>)
    decreases |ops|
  {
    ops == [] || (Enabled(s, ops[0]) && EnabledRun(cfg, Step(cfg, s, ops[0]), ops[1..]))
  }

  lemma {:induction false} RunFollows(cfg: Config, c: Client, s: State, ops: seq<Op>)
    requires Inv(s) && Mirrors(c, s) && EnabledRun(cfg, s, ops)
    ensures Inv(Run(cfg, s, ops)) && Follows(c, s, Run(cfg, s, ops))
    decreases |ops|
  {
    if ops == [] {
      SameEntriesFollow(c, s, s);
    } else {
      var s1 := Step(cfg, s, ops[0]);
      StepFollows(cfg, c, s, ops[0]);
      StepKeepsInv(cfg, s, ops[0]);
      RunFollows(cfg, Fold(c, NewEvents(s, s1)), s1, ops[1..]);
      FollowsTwice(c, s, s1, Run(cfg, s1, ops[1..]));
    }
  }

  // --- Loading ---

  const PAGE_LIMIT := 200

  lemma InitIds(entries: seq<Entry>)
    requires NoDup(Ids(entries)) && entries != []
    ensures NoDup(Ids(entries[..|entries| - 1]))
    ensures forall i :: 0 <= i < |entries| - 1 ==> entries[i].id != entries[|entries| - 1].id
  {
    var n := |entries| - 1;
    assert forall j :: 0 <= j < n ==> Ids(entries)[j] == Ids(entries[..n])[j];
    forall i | 0 <= i < n
      ensures entries[i].id != entries[n].id
    {
      assert Ids(entries)[i] != Ids(entries)[n];
    }
  }

  lemma {:induction false} LoadedRow(entries: seq<Entry>, i: nat)
    requires NoDup(Ids(entries)) && i < |entries|
    ensures entries[i].id in LoadRows(entries) && LoadRows(entries)[entries[i].id] == NewListRow(entries[i])
    decreases |entries|
  {
    InitIds(entries);
    if i < |entries| - 1 {
      LoadedRow(entries[..|entries| - 1], i);
    }
  }

  lemma LoadShows(all: seq<Entry>, e: Entry)
    requires NoDup(Ids(all)) && e in all
    ensures e.id in Load(all).rows && Shown(Load(all).rows[e.id]) == FaceOf(e)
  {
    var i :| 0 <= i < |all| && all[i] == e;
    LoadedRow(all, i);
    ListRowShows(e);
  }

  lemma LoadedKeys(s: State, order: seq<string>)
    requires Inv(s) && Enumerates(order, s.mem.Keys)
    ensures Load(AllOf(s, order)).rows.Keys == s.mem.Keys + Elements(RowIds(s.table))
  {
    ListedIds(s, order);
  }

  lemma CompleteLoadMirrors(s: State, order: seq<string>)
    requires Inv(s) && Enumerates(order, s.mem.Keys)
    ensures Mirrors(Load(AllOf(s, order)), s)
  {
    var all := AllOf(s, order);
    IdsOfAll(s, order);
    LoadedKeys(s, order);
    forall id | id in s.mem
      ensures id in Load(all).rows && Shown(Load(all).rows[id]) == FaceOf(s.mem[id].entry)
    {
      PendingIsListed(s, order, id);
      LoadShows(all, Snapshot(s.mem[id]));
    }
    forall i | 0 <= i < |s.table|
      ensures s.table[i].id in Load(all).rows && Shown(Load(all).rows[s.table[i].id]) == FaceOf(Decode(s.table[i]))
    {
      RowIsListed(s, order, i);
      LoadShows(all, Decode(s.table[i]));
    }
  }

  lemma FirstPage(s: State, order: seq<string>)
    requires Inv(s) && Enumerates(order, s.mem.Keys)
    ensures List(PendingOf(s, order), s.table, PAGE_LIMIT, ZERO_TIME) == Take(AllOf(s, order), PAGE_LIMIT)
  {
    ListIsFilter(PendingOf(s, order), s.table, PAGE_LIMIT, ZERO_TIME);
    NoCursorKeepsAll(AllOf(s, order));
  }

  lemma ShortLoadMisses(s: State, entries: seq<Entry>)
    requires Inv(s) && Mirrors(Load(entries), s)
    ensures |entries| == |s.mem| + |s.table|
  {
    KnownCount(s);
    DistinctCount(Ids(entries));
  }

  /** A fresh load is complete exactly when no more entries are known than it asks for. */
  lemma LoadMirrors(s: State, order: seq<string>)
    requires Inv(s) && Enumerates(order, s.mem.Keys)
    ensures Mirrors(Load(List(PendingOf(s, order), s.table, PAGE_LIMIT, ZERO_TIME)), s) <==>
            |s.mem| + |s.table| <= PAGE_LIMIT
  {
    FirstPage(s, order);
    SizeOfAll(s, order);
    if |s.mem| + |s.table| <= PAGE_LIMIT {
      assert Take(AllOf(s, order), PAGE_LIMIT) == AllOf(s, order);
      CompleteLoadMirrors(s, order);
    } else if Mirrors(Load(Take(AllOf(s, order), PAGE_LIMIT)), s) {
      ShortLoadMisses(s, Take(AllOf(s, order), PAGE_LIMIT));
    }
  }

  /** What Get would answer is what the page shows. */
  lemma MirrorsGet(c: Client, s: State, id: string)
    requires Inv(s) && Mirrors(c, s)
    ensures id in c.rows <==> Get(s, id).Ok?
    ensures id in c.rows ==> Shown(c.rows[id]) == FaceOf(Get(s, id).value)
  {
    if id !in s.mem {
      var r := FindRow(s.table, id);
      if r.Some? {
        var i :| 0 <= i < |s.table| && s.table[i] == r.value;
        assert RowIds(s.table)[i] == id;
      } else {
        assert forall i :: 0 <= i < |s.table| ==> RowIds(s.table)[i] != id;
      }
    }
  }

  /** A page that loaded everything and then folds in every event shows, after every run of operations, exactly the
      entries of the store, each once, with their status, status code and durations. */
  lemma PageMirrorsStore(cfg: Config, s: State, order: seq<string>, ops: seq<Op>, id: string)
    requires Inv(s) && Enumerates(order, s.mem.Keys) && |s.mem| + |s.table| <= PAGE_LIMIT && EnabledRun(cfg, s, ops)
    ensures var s' := Run(cfg, s, ops);
            s.events <= s'.events &&
            var c := Fold(Load(List(PendingOf(s, order), s.table, PAGE_LIMIT, ZERO_TIME)), NewEvents(s, s'));
            && NoDup(c.order)
            && (id in c.order <==> Get(s', id).Ok?)
            && (id in c.rows <==> Get(s', id).Ok?)
            && (id in c.rows ==> Shown(c.rows[id]) == FaceOf(Get(s', id).value))
  {
    var c0, s' := Load(List(PendingOf(s, order), s.table, PAGE_LIMIT, ZERO_TIME)), Run(cfg, s, ops);
    LoadMirrors(s, order);
    RunFollows(cfg, c0, s, ops);
    var c := Fold(c0, NewEvents(s, s'));
    MirrorsGet(c, s', id);
    assert id in c.order <==> id in Elements(c.order);
  }

  /** The other properties are not kept in step: an update leaves the error, the response format and all the rest of a
      row as they were shown before. */
  lemma ErrorIsNotMirrored(c: Client, id: string, e: Entry, k: Key)
    requires id in c.rows && k !in {Id, StatusKey, StatusCode, TtfbMs, StreamMs, TotalMs}
    ensures var row := Handle(c, Updated(id, e)).rows[id];
            (k in row <==> k in c.rows[id]) && (k in row ==> row[k] == c.rows[id][k])
  {
  }
}
