/** The list request as the server answers it, and what walking and loading through it achieve. */
module ListRequests {
  import opened Types
  import opened Database
  import opened StoreSpec
  import opened Listing
  import opened Mirror
  import Stores

  /** The entries listed for the two query parameters, or None for a rejected request. */
  function Answer(s: State, order: seq<string>, limit: Param, before: Param): Option<seq<Entry>>
    requires Enumerates(order, s.mem.Keys)
  {
    match ListArguments(limit, before)
    case None => None
    case Some((n, cursor)) => Some(List(PendingOf(s, order), s.table, n, cursor))
  }

  method Respond(store: Stores.Store, limit: Param, before: Param) returns (entries: Option<seq<Entry>>, ghost order: seq<string>)
    requires store.Valid()
    ensures Enumerates(order, store.State().mem.Keys)
    ensures entries == Answer(store.State(), order, limit, before)
  {
    var arguments := ListArguments(limit, before);
    if arguments.None? {
      var live := Iterate(store.mem.entries.Keys);
      order := live;
      return None, order;
    }
    var listed;
    listed, order := store.List(arguments.value.0, arguments.value.1);
    return Some(listed), order;
  }

  // --- What the parameters come to ---

  predicate Acceptable(limit: Param) { limit.Absent? || (limit.Number? && limit.n > 0) }

  /** At most so many entries are listed: 100 unless asked otherwise, and never more than 500. */
  function Wanted(limit: Param): nat
    requires Acceptable(limit)
  {
    if limit.Absent? then 100 else if limit.n < 500 then limit.n else 500
  }

  /** Without `before`, the newest entries are listed, as many as wanted; a request is rejected exactly if a parameter
      is malformed or the limit not positive. */
  lemma PlainRequest(s: State, order: seq<string>, limit: Param, before: Param)
    requires Inv(s) && Enumerates(order, s.mem.Keys)
    ensures Answer(s, order, limit, before).None? <==> !Acceptable(limit) || before.Malformed?
    ensures Acceptable(limit) ==> Answer(s, order, limit, Absent) == Some(Take(AllOf(s, order), Wanted(limit)))
  {
    if Acceptable(limit) {
      ListIsFilter(PendingOf(s, order), s.table, Wanted(limit), ZERO_TIME);
      NoCursorKeepsAll(AllOf(s, order));
    }
  }

  /** The start a row carries, passed back as `before`. */
  function StartParam(e: Entry): Param {
    match ReadNum(NewListRow(e), StartedMs)
    case Some(ms) => Number(ms)
    case None => Absent
  }

  /** Every row carries one, and the server reads it as the cursor after that row. */
  lemma RowCursor(e: Entry, limit: Param)
    ensures StartParam(e).Number?
    ensures Acceptable(limit) ==> ListArguments(limit, StartParam(e)) == Some((Wanted(limit), CursorAfter(e)))
  {
    ListRowReads(e, StartedMs);
  }

  /** Asking for what follows a row continues right after it, exactly when the next entry started in an earlier
      millisecond and the row's own start is not the zero time. */
  lemma RequestAfterRow(s: State, order: seq<string>, limit: Param, i: nat)
    requires Inv(s) && Enumerates(order, s.mem.Keys) && Acceptable(limit) && 0 < i <= |AllOf(s, order)|
    ensures var all := AllOf(s, order);
            Answer(s, order, limit, StartParam(all[i - 1])) == Some(Take(all[i..], Wanted(limit))) <==>
            && CursorAfter(all[i - 1]) != ZERO_TIME
            && (i < |all| ==> UnixMilli(all[i].startedAt) < UnixMilli(all[i - 1].startedAt))
  {
    RowCursor(AllOf(s, order)[i - 1], limit);
    DistinctEntries(s, order);
    NextPage(PendingOf(s, order), s.table, Wanted(limit), i);
  }

  lemma DistinctEntries(s: State, order: seq<string>)
    requires Inv(s) && Enumerates(order, s.mem.Keys)
    ensures NoDup(AllOf(s, order))
  {
    IdsOfAll(s, order);
    var all := AllOf(s, order);
    forall i, j | 0 <= i < j < |all|
      ensures all[i] != all[j]
    {
      assert Ids(all)[i] != Ids(all)[j];
    }
  }

  // --- The page's own request ---

  /** The page asks for 200 entries and gives no cursor: what it makes of the answer mirrors the store exactly if no more
      are known. */
  lemma LoadRequest(s: State, order: seq<string>)
    requires Inv(s) && Enumerates(order, s.mem.Keys)
    ensures var entries := Answer(s, order, Number(200), Absent);
            entries.Some? && (Mirrors(Load(entries.value), s) <==> |s.mem| + |s.table| <= 200)
  {
    LoadMirrors(s, order);
  }

  // --- Walking through all pages ---

  /** What a caller passes as `before` after the pages fetched so far: nothing at first, then what the last row of the last
      page carries. */
  function NextBefore(pages: seq<seq<Entry>>): Param
    requires pages != [] ==> pages[|pages| - 1] != []
  {
    if pages == [] then Absent
    else
      var last := pages[|pages| - 1];
      StartParam(last[|last| - 1])
  }

  /** The page that answers the next request after those before, in some iteration order of the map. */
  ghost predicate AnswersNext(s: State, limit: Param, before: seq<seq<Entry>>, page: seq<Entry>) {
    && (before != [] ==> before[|before| - 1] != [])
    && exists order :: Enumerates(order, s.mem.Keys) && Answer(s, order, limit, NextBefore(before)) == Some(page)
  }

  /** Requests made one after the other to an unchanged store, until one is answered with no entry. */
  ghost predicate IsRequestWalk(s: State, limit: Param, pages: seq<seq<Entry>>)
    decreases |pages|
  {
    pages == [] ||
    (&& IsRequestWalk(s, limit, pages[..|pages| - 1])
     && AnswersNext(s, limit, pages[..|pages| - 1], pages[|pages| - 1]))
  }

  lemma NextRequest(s: State, order: seq<string>, limit: Param, pages: seq<seq<Entry>>)
    requires Enumerates(order, s.mem.Keys) && Acceptable(limit) && (pages != [] ==> pages[|pages| - 1] != [])
    ensures Answer(s, order, limit, NextBefore(pages)) == Some(List(PendingOf(s, order), s.table, Wanted(limit), Cursor(pages)))
  {
    NextArguments(limit, pages);
  }

  lemma NextArguments(limit: Param, pages: seq<seq<Entry>>)
    requires Acceptable(limit) && (pages != [] ==> pages[|pages| - 1] != [])
    ensures ListArguments(limit, NextBefore(pages)) == Some((Wanted(limit), Cursor(pages)))
  {
    if pages != [] {
      var last := pages[|pages| - 1];
      BothFromLast(pages, last[|last| - 1]);
      RowCursor(last[|last| - 1], limit);
    }
  }

  lemma BothFromLast(pages: seq<seq<Entry>>, e: Entry)
    requires pages != [] && pages[|pages| - 1] != [] && e == pages[|pages| - 1][|pages[|pages| - 1]| - 1]
    ensures NextBefore(pages) == StartParam(e) && Cursor(pages) == CursorAfter(e)
  {
  }

  lemma {:induction false} RequestsAreWalk(s: State, limit: Param, pages: seq<seq<Entry>>)
    requires Acceptable(limit) && IsRequestWalk(s, limit, pages)
    ensures IsWalk(s, Wanted(limit), pages)
    decreases |pages|
  {
    if pages != [] {
      RequestsAreWalk(s, limit, pages[..|pages| - 1]);
      RequestOn(s, limit, pages);
    }
  }

  lemma RequestOn(s: State, limit: Param, pages: seq<seq<Entry>>)
    requires pages != [] && Acceptable(limit) && IsWalk(s, Wanted(limit), pages[..|pages| - 1])
    requires AnswersNext(s, limit, pages[..|pages| - 1], pages[|pages| - 1])
    ensures IsWalk(s, Wanted(limit), pages)
  {
    var before := pages[..|pages| - 1];
    var order :| Enumerates(order, s.mem.Keys) && Answer(s, order, limit, NextBefore(before)) == Some(pages[|pages| - 1]);
    NextRequest(s, order, limit, before);
    WalkOn(s, Wanted(limit), pages, order);
  }

  lemma WalkOn(s: State, n: nat, pages: seq<seq<Entry>>, order: seq<string>)
    requires pages != [] && Enumerates(order, s.mem.Keys)
    requires var before := pages[..|pages| - 1];
             && IsWalk(s, n, before)
             && (before != [] ==> before[|before| - 1] != [])
             && pages[|pages| - 1] == List(PendingOf(s, order), s.table, n, Cursor(before))
    ensures IsWalk(s, n, pages)
  {
  }

  /** Such a walk lists every entry exactly once, newest first, and comes to an end. */
  lemma RequestsVisitAllOnce(s: State, limit: Param, pages: seq<seq<Entry>>, order: seq<string>)
    requires Inv(s) && Enumerates(order, s.mem.Keys) && Acceptable(limit) && IsRequestWalk(s, limit, pages)
    requires DistinctMs(AllOf(s, order)) && forall e :: e in AllOf(s, order) ==> CursorAfter(e) != ZERO_TIME
    ensures Progress(AllOf(s, order), Wanted(limit), pages)
  {
    RequestsAreWalk(s, limit, pages);
    WalkVisitsAllOnce(s, Wanted(limit), pages, order);
  }
}
