/** Merging memory and table newest first, and paging through the result with a cursor. */
module Listing {
  import opened Types
  import opened RowCodec
  import opened BodyBuffers
  import opened Memory
  import opened Database
  import opened StoreSpec

  // --- Stable sorting, newest first ---

  predicate NewestFirst(s: seq<Entry>) {
    forall i, j :: 0 <= i < j < |s| ==> s[i].startedAt >= s[j].startedAt
  }

  function InsertNewest(e: Entry, s: seq<Entry>): seq<Entry> {
    if s == [] || e.startedAt >= s[0].startedAt then [e] + s else [s[0]] + InsertNewest(e, s[1..])
  }

  /** The order left by SliceStable on StartedAt descending. */
  function SortNewest(s: seq<Entry>): seq<Entry> {
    if s == [] then [] else InsertNewest(s[0], SortNewest(s[1..]))
  }

  /** The entries started at instant t, in order. */
  function StartedAt(s: seq<Entry>, t: int): seq<Entry> {
    if s == [] then []
    else if s[0].startedAt == t then [s[0]] + StartedAt(s[1..], t)
    else StartedAt(s[1..], t)
  }

  function Merge(a: seq<Entry>, b: seq<Entry>): seq<Entry>
    decreases |a| + |b|
  {
    if a == [] then b
    else if b == [] then a
    else if a[0].startedAt >= b[0].startedAt then [a[0]] + Merge(a[1..], b)
    else [b[0]] + Merge(a, b[1..])
  }

  lemma NewestCons(e: Entry, s: seq<Entry>)
    ensures NewestFirst([e] + s) <==> NewestFirst(s) && (s != [] ==> e.startedAt >= s[0].startedAt)
  {
    var r := [e] + s;
    assert forall i :: 0 <= i < |s| ==> s[i] == r[i + 1];
    if NewestFirst(r) && s != [] {
      assert r[0].startedAt >= r[1].startedAt;
      forall i, j | 0 <= i < j < |s|
        ensures s[i].startedAt >= s[j].startedAt
      {
        assert r[i + 1].startedAt >= r[j + 1].startedAt;
      }
    }
  }

  lemma {:induction false} InsertNewestSorted(e: Entry, s: seq<Entry>)
    requires NewestFirst(s)
    ensures NewestFirst(InsertNewest(e, s))
    ensures multiset(InsertNewest(e, s)) == multiset(s) + multiset{e}
  {
    NewestCons(e, s);
    if s != [] && e.startedAt < s[0].startedAt {
      assert s == [s[0]] + s[1..];
      NewestCons(s[0], s[1..]);
      InsertNewestSorted(e, s[1..]);
      NewestCons(s[0], InsertNewest(e, s[1..]));
    }
  }

  lemma {:induction false} InsertNewestStable(e: Entry, s: seq<Entry>, t: int)
    requires NewestFirst(s)
    ensures StartedAt(InsertNewest(e, s), t) == if e.startedAt == t then [e] + StartedAt(s, t) else StartedAt(s, t)
  {
    if s == [] || e.startedAt >= s[0].startedAt {
      assert ([e] + s)[1..] == s;
    } else {
      assert s == [s[0]] + s[1..];
      NewestCons(s[0], s[1..]);
      InsertNewestStable(e, s[1..], t);
      var r := InsertNewest(e, s[1..]);
      assert ([s[0]] + r)[1..] == r;
    }
  }

  /** Sorting yields newest first and keeps every entry. */
  lemma {:induction false} SortNewestCorrect(s: seq<Entry>)
    ensures NewestFirst(SortNewest(s))
    ensures multiset(SortNewest(s)) == multiset(s)
  {
    if s != [] {
      assert s == [s[0]] + s[1..];
      SortNewestCorrect(s[1..]);
      InsertNewestSorted(s[0], SortNewest(s[1..]));
    }
  }

  /** Sorting keeps the order of the entries started at the same instant. */
  lemma {:induction false} SortNewestStable(s: seq<Entry>, t: int)
    ensures StartedAt(SortNewest(s), t) == StartedAt(s, t)
  {
    if s != [] {
      SortNewestCorrect(s[1..]);
      SortNewestStable(s[1..], t);
      InsertNewestStable(s[0], SortNewest(s[1..]), t);
    }
  }

  lemma {:induction false} SortedUnchanged(s: seq<Entry>)
    requires NewestFirst(s)
    ensures SortNewest(s) == s
  {
    if s != [] {
      assert s == [s[0]] + s[1..];
      NewestCons(s[0], s[1..]);
      SortedUnchanged(s[1..]);
    }
  }

  lemma {:induction false} InsertIntoMerge(e: Entry, a: seq<Entry>, b: seq<Entry>)
    requires NewestFirst(a) && NewestFirst(b)
    ensures InsertNewest(e, Merge(a, b)) == Merge(InsertNewest(e, a), b)
    decreases |a| + |b|
  {
    if b == [] {
    } else if a == [] {
      if e.startedAt < b[0].startedAt {
        assert b == [b[0]] + b[1..];
        NewestCons(b[0], b[1..]);
        InsertIntoMerge(e, a, b[1..]);
        assert Merge(a, b[1..]) == b[1..];
      } else {
        assert [e][1..] == [];
      }
    } else {
      assert a == [a[0]] + a[1..] && b == [b[0]] + b[1..];
      NewestCons(a[0], a[1..]);
      NewestCons(b[0], b[1..]);
      if a[0].startedAt >= b[0].startedAt {
        var m := Merge(a[1..], b);
        assert ([a[0]] + m)[1..] == m;
        if e.startedAt >= a[0].startedAt {
          assert ([e] + a)[1..] == a;
        } else {
          InsertIntoMerge(e, a[1..], b);
          var r := InsertNewest(e, a[1..]);
          assert ([a[0]] + r)[1..] == r;
        }
      } else {
        var m := Merge(a, b[1..]);
        assert ([b[0]] + m)[1..] == m;
        if e.startedAt >= b[0].startedAt {
          assert ([e] + a)[1..] == a;
        } else {
          InsertIntoMerge(e, a, b[1..]);
        }
      }
    }
  }

  /** Sorting memory followed by sorted rows is merging the sorted memory into the rows. */
  lemma {:induction false} SortIsMerge(a: seq<Entry>, b: seq<Entry>)
    requires NewestFirst(b)
    ensures SortNewest(a + b) == Merge(SortNewest(a), b)
  {
    if a == [] {
      assert a + b == b;
      SortedUnchanged(b);
    } else {
      assert (a + b)[0] == a[0] && (a + b)[1..] == a[1..] + b;
      SortIsMerge(a[1..], b);
      SortNewestCorrect(a[1..]);
      InsertIntoMerge(a[0], SortNewest(a[1..]), b);
    }
  }

  lemma {:induction false} TakeMerge(a: seq<Entry>, b: seq<Entry>, k: nat)
    ensures Take(Merge(a, b), k) == Take(Merge(a, Take(b, k)), k)
    decreases |a| + |b|
  {
    if k == 0 || a == [] || b == [] {
      if a == [] {
        assert Take(Take(b, k), k) == Take(b, k);
      }
    } else {
      var c := Take(b, k);
      assert c[0] == b[0];
      if a[0].startedAt >= b[0].startedAt {
        TakeMerge(a[1..], b, k - 1);
        TakeMerge(a[1..], c, k - 1);
        assert Take(c, k - 1) == Take(b, k - 1);
        TakeCons(a[0], Merge(a[1..], b), k);
        TakeCons(a[0], Merge(a[1..], c), k);
      } else {
        TakeMerge(a, b[1..], k - 1);
        assert c[1..] == Take(b[1..], k - 1);
        TakeCons(b[0], Merge(a, b[1..]), k);
        TakeCons(b[0], Merge(a, c[1..]), k);
      }
    }
  }

  // --- Filtering by a cursor ---

  lemma {:induction false} RowsBeforeSorted(t: seq<Row>, before: int)
    requires Descending(Starts(t))
    ensures NewestFirst(RowsBefore(t, before))
    ensures RowsBefore(t, before) != [] ==> RowsBefore(t, before)[0].startedAt <= FromMilli(t[0].startedAt)
  {
    if t != [] {
      assert Starts(t[1..]) == Starts(t)[1..];
      RowsBeforeSorted(t[1..], before);
      assert |t| > 1 ==> Starts(t)[0] >= Starts(t)[1];
      NewestCons(Decode(t[0]), RowsBefore(t[1..], before));
    }
  }

  /** Memory compares nanoseconds and the table milliseconds: they select alike exactly for whole-millisecond cursors. */
  lemma FiltersAgree(before: int)
    requires before != ZERO_TIME
    ensures (forall t :: BeforeCursor(t, before) <==> RowBeforeCursor(UnixMilli(t), before)) <==> before % NS_PER_MS == 0
  {
    if before % NS_PER_MS != 0 {
      var t := before - 1;
      assert UnixMilli(t) == UnixMilli(before);
      assert BeforeCursor(t, before) && !RowBeforeCursor(UnixMilli(t), before);
    }
  }

  function History(t: seq<Row>): seq<Entry> {
    RowsBefore(t, ZERO_TIME)
  }

  lemma {:induction false} RowsBeforeIsFilter(t: seq<Row>, before: int)
    requires before % NS_PER_MS == 0
    ensures RowsBefore(t, before) == PendingBefore(History(t), before)
  {
    if t != [] {
      RowsBeforeIsFilter(t[1..], before);
      var e, rest := Decode(t[0]), History(t[1..]);
      assert ([e] + rest)[1..] == rest;
      if before != ZERO_TIME {
        FiltersAgree(before);
        assert UnixMilli(e.startedAt) == t[0].startedAt;
        assert BeforeCursor(e.startedAt, before) <==> RowBeforeCursor(UnixMilli(e.startedAt), before);
      }
    }
  }

  lemma {:induction false} FilterInsert(e: Entry, s: seq<Entry>, before: int)
    requires NewestFirst(s)
    ensures PendingBefore(InsertNewest(e, s), before) ==
            if BeforeCursor(e.startedAt, before) then InsertNewest(e, PendingBefore(s, before)) else PendingBefore(s, before)
  {
    if s == [] || e.startedAt >= s[0].startedAt {
      assert ([e] + s)[1..] == s;
      if s != [] && BeforeCursor(e.startedAt, before) {
        assert PendingBefore(s, before)[0] == s[0];
      }
    } else {
      assert s == [s[0]] + s[1..];
      NewestCons(s[0], s[1..]);
      FilterInsert(e, s[1..], before);
      var r := InsertNewest(e, s[1..]);
      assert ([s[0]] + r)[1..] == r;
      var q := PendingBefore(s[1..], before);
      assert ([s[0]] + q)[1..] == q;
    }
  }

  /** Filtering and sorting commute. */
  lemma {:induction false} FilterSort(s: seq<Entry>, before: int)
    ensures SortNewest(PendingBefore(s, before)) == PendingBefore(SortNewest(s), before)
  {
    if s != [] {
      SortNewestCorrect(s[1..]);
      FilterSort(s[1..], before);
      FilterInsert(s[0], SortNewest(s[1..]), before);
      var q := PendingBefore(s[1..], before);
      assert ([s[0]] + q)[1..] == q;
    }
  }

  // --- Store.List ---

  function EffectiveLimit(limit: int): nat { if limit <= 0 then 100 else limit }

  /** `m` holds the pending entries in whatever order the map gave them. */
  function List(m: seq<Entry>, t: seq<Row>, limit: int, before: int): seq<Entry> {
    var n := EffectiveLimit(limit);
    Take(SortNewest(PendingBefore(m, before) + Take(RowsBefore(t, before), n)), n)
  }

  /** The same with every row fetched and nothing cut off. */
  function FullList(m: seq<Entry>, t: seq<Row>, before: int): seq<Entry> {
    SortNewest(PendingBefore(m, before) + RowsBefore(t, before))
  }

  /** Fetching only the `limit` newest rows before merging loses nothing of the first `limit` results. */
  lemma TopKMerge(m: seq<Entry>, t: seq<Row>, limit: int, before: int)
    requires Descending(Starts(t))
    ensures List(m, t, limit, before) == Take(FullList(m, t, before), EffectiveLimit(limit))
    ensures NewestFirst(List(m, t, limit, before))
  {
    var n := EffectiveLimit(limit);
    var p, r := PendingBefore(m, before), RowsBefore(t, before);
    RowsBeforeSorted(t, before);
    SortIsMerge(p, r);
    SortIsMerge(p, Take(r, n));
    TakeMerge(SortNewest(p), r, n);
    SortNewestCorrect(p + r);
  }

  /** A limit that is not positive means a hundred. */
  lemma DefaultLimit(m: seq<Entry>, t: seq<Row>, limit: int, before: int)
    requires Descending(Starts(t))
    ensures List(m, t, limit, before) == Take(FullList(m, t, before), if limit > 0 then limit else 100)
  {
    TopKMerge(m, t, limit, before);
  }

  // --- No entry is listed twice ---

  function Ids(s: seq<Entry>): (ids: seq<string>)
    ensures |ids| == |s|
    ensures forall i :: 0 <= i < |s| ==> ids[i] == s[i].id
  {
    seq(|s|, i requires 0 <= i < |s| => s[i].id)
  }

  lemma EntryIdsCons(e: Entry, s: seq<Entry>)
    ensures Ids([e] + s) == [e.id] + Ids(s)
    ensures NoDup(Ids([e] + s)) <==> e.id !in Ids(s) && NoDup(Ids(s))
  {
    assert Ids([e] + s) == [e.id] + Ids(s);
    NoDupCons(e.id, Ids(s));
  }

  lemma {:induction false} FilterIds(m: seq<Entry>, before: int)
    requires NoDup(Ids(m))
    ensures NoDup(Ids(PendingBefore(m, before)))
    ensures forall id :: id in Ids(PendingBefore(m, before)) ==> id in Ids(m)
  {
    if m != [] {
      assert m == [m[0]] + m[1..];
      EntryIdsCons(m[0], m[1..]);
      FilterIds(m[1..], before);
      EntryIdsCons(m[0], PendingBefore(m[1..], before));
    }
  }

  lemma {:induction false} RowsIds(t: seq<Row>, before: int)
    requires NoDup(RowIds(t))
    ensures NoDup(Ids(RowsBefore(t, before)))
    ensures forall id :: id in Ids(RowsBefore(t, before)) ==> id in RowIds(t)
  {
    if t != [] {
      assert t == [t[0]] + t[1..];
      IdsCons(t[0], t[1..]);
      NoDupCons(t[0].id, RowIds(t[1..]));
      RowsIds(t[1..], before);
      EntryIdsCons(Decode(t[0]), RowsBefore(t[1..], before));
    }
  }

  lemma {:induction false} InsertIds(e: Entry, s: seq<Entry>)
    requires e.id !in Ids(s) && NoDup(Ids(s))
    ensures NoDup(Ids(InsertNewest(e, s)))
    ensures forall id :: id in Ids(InsertNewest(e, s)) ==> id == e.id || id in Ids(s)
  {
    EntryIdsCons(e, s);
    if s != [] && e.startedAt < s[0].startedAt {
      assert s == [s[0]] + s[1..];
      EntryIdsCons(s[0], s[1..]);
      InsertIds(e, s[1..]);
      EntryIdsCons(s[0], InsertNewest(e, s[1..]));
    }
  }

  lemma {:induction false} SortIds(s: seq<Entry>)
    requires NoDup(Ids(s))
    ensures NoDup(Ids(SortNewest(s)))
    ensures forall id :: id in Ids(SortNewest(s)) ==> id in Ids(s)
  {
    if s != [] {
      assert s == [s[0]] + s[1..];
      EntryIdsCons(s[0], s[1..]);
      SortIds(s[1..]);
      InsertIds(s[0], SortNewest(s[1..]));
    }
  }

  lemma NoDupAppend<T>(a: seq<T>, b: seq<T>)
    requires NoDup(a) && NoDup(b) && forall x :: x in a ==> x !in b
    ensures NoDup(a + b)
  {
    var s := a + b;
    forall i, j | 0 <= i < j < |s|
      ensures s[i] != s[j]
    {
      if i < |a| <= j {
        assert s[i] in a && s[j] in b;
      }
    }
  }

  /** The pending entries, in iteration order. */
  function PendingOf(s: State, order: seq<string>): seq<Entry>
    requires Enumerates(order, s.mem.Keys)
  {
    assert forall id :: id in order ==> id in Elements(order);
    Snapshots(s.mem, order)
  }

  lemma FullIds(s: State, order: seq<string>, before: int)
    requires Inv(s) && Enumerates(order, s.mem.Keys)
    ensures NoDup(Ids(FullList(PendingOf(s, order), s.table, before)))
  {
    var m := PendingOf(s, order);
    var p, r := PendingBefore(m, before), RowsBefore(s.table, before);
    TiersApart(s, order);
    FilterIds(m, before);
    RowsIds(s.table, before);
    assert Ids(p + r) == Ids(p) + Ids(r);
    NoDupAppend(Ids(p), Ids(r));
    SortIds(p + r);
  }

  lemma TiersApart(s: State, order: seq<string>)
    requires Inv(s) && Enumerates(order, s.mem.Keys)
    ensures NoDup(Ids(PendingOf(s, order))) && forall id :: id in Ids(PendingOf(s, order)) ==> id !in RowIds(s.table)
  {
    assert forall id :: id in order <==> id in Elements(order);
    assert Ids(PendingOf(s, order)) == order;
    assert forall i :: 0 <= i < |s.table| ==> RowIds(s.table)[i] !in s.mem;
  }

  /** Memory and table never share an id, so no list shows an entry twice. */
  lemma ListHasNoDuplicates(s: State, order: seq<string>, limit: int, before: int)
    requires Inv(s) && Enumerates(order, s.mem.Keys)
    ensures NoDup(Ids(List(PendingOf(s, order), s.table, limit, before)))
  {
    var m := PendingOf(s, order);
    FullIds(s, order, before);
    TopKMerge(m, s.table, limit, before);
    TakeIds(FullList(m, s.table, before), EffectiveLimit(limit));
  }

  lemma TakeIds(s: seq<Entry>, n: nat)
    requires NoDup(Ids(s))
    ensures NoDup(Ids(Take(s, n)))
  {
    assert forall i :: 0 <= i < |Take(s, n)| ==> Ids(Take(s, n))[i] == Ids(s)[i];
  }

  // --- Paging ---

  /** What a row's `started_at` means when passed back as `before`. */
  function CursorAfter(e: Entry): int { FromMilli(UnixMilli(e.startedAt)) }

  /** Everything there is to list. */
  function Everything(m: seq<Entry>, t: seq<Row>): seq<Entry> {
    SortNewest(m + History(t))
  }

  lemma {:induction false} NoCursorKeepsAll(s: seq<Entry>)
    ensures PendingBefore(s, ZERO_TIME) == s
  {
    if s != [] {
      NoCursorKeepsAll(s[1..]);
    }
  }

  /** In a sorted list a cursor keeps a suffix. */
  lemma {:induction false} FilterSuffix(s: seq<Entry>, before: int, i: nat)
    requires NewestFirst(s) && before != ZERO_TIME && i <= |s|
    requires i > 0 ==> s[i - 1].startedAt >= before
    requires i < |s| ==> s[i].startedAt < before
    ensures PendingBefore(s, before) == s[i..]
  {
    if s != [] {
      assert s == [s[0]] + s[1..];
      NewestCons(s[0], s[1..]);
      if i > 0 {
        assert s[0].startedAt >= s[i - 1].startedAt;
        FilterSuffix(s[1..], before, i - 1);
      } else {
        FilterSuffix(s[1..], before, 0);
      }
    }
  }

  lemma ListIsFilter(m: seq<Entry>, t: seq<Row>, limit: int, before: int)
    requires Descending(Starts(t)) && before % NS_PER_MS == 0
    ensures List(m, t, limit, before) == Take(PendingBefore(Everything(m, t), before), EffectiveLimit(limit))
  {
    TopKMerge(m, t, limit, before);
    RowsBeforeIsFilter(t, before);
    PendingBeforeAppend(m, History(t), before);
    FilterSort(m + History(t), before);
  }

  /** Where a cursor cuts a sorted list. */
  lemma Boundary(s: seq<Entry>, before: int) returns (j: nat)
    requires NewestFirst(s)
    ensures j <= |s|
    ensures forall k :: 0 <= k < j ==> s[k].startedAt >= before
    ensures forall k :: j <= k < |s| ==> s[k].startedAt < before
  {
    j := 0;
    while j < |s| && s[j].startedAt >= before
      invariant j <= |s|
      invariant forall k :: 0 <= k < j ==> s[k].startedAt >= before
    {
      j := j + 1;
    }
  }

  lemma CursorCompares(e: Entry, c: Entry)
    ensures e.startedAt < CursorAfter(c) <==> UnixMilli(e.startedAt) < UnixMilli(c.startedAt)
    ensures CursorAfter(c) % NS_PER_MS == 0
  {
    MilliRoundTrip(c.startedAt);
  }

  /** A cursor equal to the zero time starts over. */
  lemma RestartedPage(all: seq<Entry>, n: nat, i: nat)
    requires NoDup(all) && 0 < i <= |all| && n > 0
    ensures Take(PendingBefore(all, ZERO_TIME), n) != Take(all[i..], n)
  {
    NoCursorKeepsAll(all);
    assert Take(all, n)[0] == all[0];
    assert i < |all| ==> Take(all[i..], n)[0] == all[i] != all[0];
  }

  lemma SuffixPage(all: seq<Entry>, n: nat, i: nat)
    requires NewestFirst(all) && NoDup(all) && 0 < i <= |all| && n > 0
    requires CursorAfter(all[i - 1]) != ZERO_TIME
    ensures Take(PendingBefore(all, CursorAfter(all[i - 1])), n) == Take(all[i..], n) <==>
            (i < |all| ==> UnixMilli(all[i].startedAt) < UnixMilli(all[i - 1].startedAt))
  {
    var before := CursorAfter(all[i - 1]);
    CursorCompares(all[i - 1], all[i - 1]);
    var j := Boundary(all, before);
    FilterSuffix(all, before, j);
    if i < |all| {
      CursorCompares(all[i], all[i - 1]);
      assert Take(all[i..], n)[0] == all[i];
      assert j > i && j < |all| ==> Take(all[j..], n)[0] == all[j] != all[i];
    }
  }

  /** The page fetched with the cursor of the i-th entry continues right after it, exactly when the next entry
      started in an earlier millisecond and the cursor is not the zero time, which would start over. */
  lemma NextPage(m: seq<Entry>, t: seq<Row>, limit: int, i: nat)
    requires Descending(Starts(t)) && NoDup(Everything(m, t)) && 0 < i <= |Everything(m, t)|
    ensures var all := Everything(m, t);
            List(m, t, limit, CursorAfter(all[i - 1])) == Take(all[i..], EffectiveLimit(limit)) <==>
            && CursorAfter(all[i - 1]) != ZERO_TIME
            && (i < |all| ==> UnixMilli(all[i].startedAt) < UnixMilli(all[i - 1].startedAt))
  {
    var all, n := Everything(m, t), EffectiveLimit(limit);
    SortNewestCorrect(m + History(t));
    CursorCompares(all[i - 1], all[i - 1]);
    ListIsFilter(m, t, limit, CursorAfter(all[i - 1]));
    if CursorAfter(all[i - 1]) == ZERO_TIME {
      RestartedPage(all, n, i);
    } else {
      SuffixPage(all, n, i);
    }
  }

  // --- The iteration order of the map does not matter ---

  predicate DistinctMs(s: seq<Entry>) {
    forall i, j :: 0 <= i < j < |s| ==> UnixMilli(s[i].startedAt) != UnixMilli(s[j].startedAt)
  }

  lemma SameHead(a: seq<Entry>, b: seq<Entry>)
    requires NewestFirst(a) && NewestFirst(b) && DistinctMs(a) && a != [] && b != []
    requires a[0] in b && b[0] in a
    ensures a[0] == b[0]
  {
    var i :| 0 <= i < |a| && a[i] == b[0];
    var j :| 0 <= j < |b| && b[j] == a[0];
    assert a[0].startedAt >= a[i].startedAt && b[0].startedAt >= b[j].startedAt;
  }

  lemma TailOf<T>(s: seq<T>)
    requires s != []
    ensures s[0] in multiset(s) && multiset(s[1..]) == multiset(s) - multiset{s[0]}
  {
    assert s == [s[0]] + s[1..];
  }

  lemma {:induction false} SortedUnique(a: seq<Entry>, b: seq<Entry>)
    requires NewestFirst(a) && NewestFirst(b) && multiset(a) == multiset(b) && DistinctMs(a)
    ensures a == b
  {
    assert |multiset(a)| == |multiset(b)|;
    if a != [] {
      TailOf(a);
      TailOf(b);
      SameHead(a, b);
      SortedUnique(a[1..], b[1..]);
    }
  }

  lemma {:induction false} CountsOne<T>(s: seq<T>, x: T)
    requires NoDup(s)
    ensures multiset(s)[x] == if x in s then 1 else 0
  {
    if s != [] {
      assert s == [s[0]] + s[1..];
      NoDupCons(s[0], s[1..]);
      CountsOne(s[1..], x);
    }
  }

  lemma SameElements(s: State, p: seq<string>, q: seq<string>, e: Entry)
    requires Inv(s) && Enumerates(p, s.mem.Keys) && Enumerates(q, s.mem.Keys)
    ensures NoDup(PendingOf(s, p))
    ensures e in PendingOf(s, p) ==> e in PendingOf(s, q)
  {
    assert forall i :: 0 <= i < |p| ==> p[i] in Elements(p) && PendingOf(s, p)[i].id == p[i];
    if e in PendingOf(s, p) {
      var i :| 0 <= i < |p| && PendingOf(s, p)[i] == e;
      assert p[i] in Elements(q);
      var j :| 0 <= j < |q| && q[j] == p[i];
      assert PendingOf(s, q)[j] == e;
    }
  }

  lemma OrderIndependent(s: State, p: seq<string>, q: seq<string>)
    requires Inv(s) && Enumerates(p, s.mem.Keys) && Enumerates(q, s.mem.Keys)
    requires DistinctMs(Everything(PendingOf(s, p), s.table))
    ensures Everything(PendingOf(s, p), s.table) == Everything(PendingOf(s, q), s.table)
  {
    var a, b, h := PendingOf(s, p), PendingOf(s, q), History(s.table);
    forall e
      ensures multiset(a)[e] == multiset(b)[e]
    {
      SameElements(s, p, q, e);
      SameElements(s, q, p, e);
      CountsOne(a, e);
      CountsOne(b, e);
    }
    assert multiset(a) == multiset(b);
    SortNewestCorrect(a + h);
    SortNewestCorrect(b + h);
    SortedUnique(SortNewest(a + h), SortNewest(b + h));
  }

  // --- Walking through all pages ---

  function Flatten(pages: seq<seq<Entry>>): seq<Entry> {
    if pages == [] then [] else Flatten(pages[..|pages| - 1]) + pages[|pages| - 1]
  }

  /** The cursor a caller passes after the pages fetched so far. */
  function Cursor(pages: seq<seq<Entry>>): int
    requires pages != [] ==> pages[|pages| - 1] != []
  {
    if pages == [] then ZERO_TIME
    else
      var last := pages[|pages| - 1];
      CursorAfter(last[|last| - 1])
  }

  /** Pages fetched one after the other from an unchanged store, until one comes back empty. */
  ghost predicate IsWalk(s: State, limit: int, pages: seq<seq<Entry>>)
    decreases |pages|
  {
    pages == [] ||
    (var before := pages[..|pages| - 1];
     && IsWalk(s, limit, before)
     && (before != [] ==> before[|before| - 1] != [])
     && exists order :: Enumerates(order, s.mem.Keys) &&
          pages[|pages| - 1] == List(PendingOf(s, order), s.table, limit, Cursor(before)))
  }

  /** What a walk has achieved: the pages so far are a beginning of the whole list, an empty or short page
      means everything has been listed, and every page but the last brings something new. */
  predicate Progress(all: seq<Entry>, n: nat, pages: seq<seq<Entry>>) {
    var seen := Flatten(pages);
    && |seen| <= |all|
    && seen == all[..|seen|]
    && |pages| <= |seen| + 1
    && (pages != [] && |pages[|pages| - 1]| < n ==> seen == all)
    && (pages != [] && pages[|pages| - 1] != [] ==> |pages| <= |seen|)
  }

  lemma PageProgress(all: seq<Entry>, n: nat, pages: seq<seq<Entry>>)
    requires pages != [] && n > 0
    requires var before := pages[..|pages| - 1];
             && Progress(all, n, before)
             && (before != [] ==> before[|before| - 1] != [])
             && pages[|pages| - 1] == Take(all[|Flatten(before)|..], n)
    ensures Progress(all, n, pages)
  {
    var before, page := pages[..|pages| - 1], pages[|pages| - 1];
    var k := |Flatten(before)|;
    assert page == all[k..k + |page|];
    assert all[..k] + all[k..k + |page|] == all[..k + |page|];
  }

  lemma PageContinues(s: State, limit: int, o: seq<string>, before: seq<seq<Entry>>)
    requires Inv(s) && Enumerates(o, s.mem.Keys)
    requires before != [] ==> before[|before| - 1] != []
    requires var all, seen := Everything(PendingOf(s, o), s.table), Flatten(before);
             && DistinctMs(all) && (forall i :: 0 <= i < |all| ==> CursorAfter(all[i]) != ZERO_TIME)
             && |seen| <= |all| && seen == all[..|seen|]
    ensures List(PendingOf(s, o), s.table, limit, Cursor(before)) ==
            Take(Everything(PendingOf(s, o), s.table)[|Flatten(before)|..], EffectiveLimit(limit))
  {
    var all, seen := Everything(PendingOf(s, o), s.table), Flatten(before);
    var m := PendingOf(s, o);
    if before == [] {
      ListIsFilter(m, s.table, limit, ZERO_TIME);
      NoCursorKeepsAll(all);
      assert all[0..] == all;
    } else {
      LastSeen(all, before);
      SortNewestCorrect(m + History(s.table));
      MilliMonotone(all, |seen|);
      NextPage(m, s.table, limit, |seen|);
    }
  }

  /** The cursor is that of the last entry seen. */
  lemma LastSeen(all: seq<Entry>, before: seq<seq<Entry>>)
    requires before != [] && before[|before| - 1] != [] && DistinctMs(all)
    requires var seen := Flatten(before); |seen| <= |all| && seen == all[..|seen|]
    ensures var seen := Flatten(before);
            0 < |seen| && all[|seen| - 1] == seen[|seen| - 1] && Cursor(before) == CursorAfter(all[|seen| - 1])
    ensures NoDup(all)
  {
    var last, seen := before[|before| - 1], Flatten(before);
    assert seen[|seen| - 1] == last[|last| - 1];
  }

  lemma MilliMonotone(all: seq<Entry>, i: nat)
    requires NewestFirst(all) && DistinctMs(all) && 0 < i <= |all|
    ensures i < |all| ==> UnixMilli(all[i].startedAt) < UnixMilli(all[i - 1].startedAt)
  {
  }

  /** The same whatever order the map is iterated in. */
  lemma AnyOrderContinues(s: State, limit: int, order: seq<string>, o: seq<string>, pages: seq<seq<Entry>>)
    requires Inv(s) && Enumerates(order, s.mem.Keys) && Enumerates(o, s.mem.Keys) && pages != []
    requires DistinctMs(Everything(PendingOf(s, order), s.table))
    requires forall e :: e in Everything(PendingOf(s, order), s.table) ==> CursorAfter(e) != ZERO_TIME
    requires var before := pages[..|pages| - 1];
             && Progress(Everything(PendingOf(s, order), s.table), EffectiveLimit(limit), before)
             && (before != [] ==> before[|before| - 1] != [])
             && pages[|pages| - 1] == List(PendingOf(s, o), s.table, limit, Cursor(before))
    ensures Progress(Everything(PendingOf(s, order), s.table), EffectiveLimit(limit), pages)
  {
    OrderIndependent(s, order, o);
    PageContinues(s, limit, o, pages[..|pages| - 1]);
    PageProgress(Everything(PendingOf(s, order), s.table), EffectiveLimit(limit), pages);
  }

  /** Each page continues where the previous one stopped, so a walk lists every entry exactly once, newest first,
      and comes to an end. */
  lemma {:induction false} WalkVisitsAllOnce(s: State, limit: int, pages: seq<seq<Entry>>, order: seq<string>)
    requires Inv(s) && Enumerates(order, s.mem.Keys) && IsWalk(s, limit, pages)
    requires DistinctMs(Everything(PendingOf(s, order), s.table))
    requires forall e :: e in Everything(PendingOf(s, order), s.table) ==> CursorAfter(e) != ZERO_TIME
    ensures Progress(Everything(PendingOf(s, order), s.table), EffectiveLimit(limit), pages)
    decreases |pages|
  {
    if pages != [] {
      var before := pages[..|pages| - 1];
      WalkVisitsAllOnce(s, limit, before, order);
      var o :| Enumerates(o, s.mem.Keys) && pages[|pages| - 1] == List(PendingOf(s, o), s.table, limit, Cursor(before));
      AnyOrderContinues(s, limit, order, o, pages);
    }
  }

  // --- List and Get agree ---

  lemma {:induction false} HistoryIsDecoded(t: seq<Row>)
    ensures |History(t)| == |t| && forall i :: 0 <= i < |t| ==> History(t)[i] == Decode(t[i])
  {
    if t != [] {
      HistoryIsDecoded(t[1..]);
      assert History(t) == [Decode(t[0])] + History(t[1..]);
    }
  }

  /** Everything there is to list, for one iteration order of the map. */
  function AllOf(s: State, order: seq<string>): seq<Entry>
    requires Enumerates(order, s.mem.Keys)
  {
    Everything(PendingOf(s, order), s.table)
  }

  lemma SizeOfAll(s: State, order: seq<string>)
    requires Inv(s) && Enumerates(order, s.mem.Keys)
    ensures |AllOf(s, order)| == |s.mem| + |s.table|
  {
    var m, h := PendingOf(s, order), History(s.table);
    HistoryIsDecoded(s.table);
    SortNewestCorrect(m + h);
    DistinctCount(order);
    assert |s.mem.Keys| == |s.mem|;
    assert |multiset(SortNewest(m + h))| == |multiset(m + h)|;
  }

  lemma IdsOfAll(s: State, order: seq<string>)
    requires Inv(s) && Enumerates(order, s.mem.Keys)
    ensures NoDup(Ids(AllOf(s, order)))
  {
    FullIds(s, order, ZERO_TIME);
    NoCursorKeepsAll(PendingOf(s, order));
  }

  lemma InAll(m: seq<Entry>, t: seq<Row>, e: Entry)
    requires e in m || e in History(t)
    ensures e in Everything(m, t)
  {
    var h := History(t);
    SortNewestCorrect(m + h);
    assert e in m + h;
    assert e in multiset(m + h);
  }

  lemma PendingIsListed(s: State, order: seq<string>, id: string)
    requires Enumerates(order, s.mem.Keys) && id in s.mem
    ensures Snapshot(s.mem[id]) in AllOf(s, order)
  {
    assert id in Elements(order);
    var i :| 0 <= i < |order| && order[i] == id;
    assert PendingOf(s, order)[i] == Snapshot(s.mem[id]);
    InAll(PendingOf(s, order), s.table, Snapshot(s.mem[id]));
  }

  lemma RowIsListed(s: State, order: seq<string>, i: nat)
    requires Enumerates(order, s.mem.Keys) && i < |s.table|
    ensures Decode(s.table[i]) in AllOf(s, order)
  {
    HistoryIsDecoded(s.table);
    assert History(s.table)[i] == Decode(s.table[i]);
    InAll(PendingOf(s, order), s.table, Decode(s.table[i]));
  }

  lemma KnownCount(s: State)
    requires Inv(s)
    ensures |s.mem.Keys + Elements(RowIds(s.table))| == |s.mem| + |s.table|
  {
    DistinctCount(RowIds(s.table));
    assert forall i :: 0 <= i < |s.table| ==> RowIds(s.table)[i] !in s.mem;
    assert s.mem.Keys !! Elements(RowIds(s.table));
    assert |s.mem.Keys| == |s.mem|;
  }

  /** Without a limit or a cursor, the list holds exactly what Get answers, id by id. */
  lemma ListAgreesWithGet(s: State, order: seq<string>, e: Entry)
    requires Inv(s) && Enumerates(order, s.mem.Keys)
    ensures e in AllOf(s, order) <==> Get(s, e.id) == Ok(e)
  {
    if e in AllOf(s, order) {
      ListedIsKnown(s, order, e);
    }
    if Get(s, e.id) == Ok(e) {
      if e.id in s.mem {
        PendingIsListed(s, order, e.id);
      } else {
        var r := FindRow(s.table, e.id).value;
        var i :| 0 <= i < |s.table| && s.table[i] == r;
        RowIsListed(s, order, i);
      }
    }
  }

  /** The ids listed are those of memory and table. */
  lemma ListedIds(s: State, order: seq<string>)
    requires Inv(s) && Enumerates(order, s.mem.Keys)
    ensures Elements(Ids(AllOf(s, order))) == s.mem.Keys + Elements(RowIds(s.table))
  {
    var all := AllOf(s, order);
    forall id | id in s.mem
      ensures id in Ids(all)
    {
      PendingIsListed(s, order, id);
      var i :| 0 <= i < |all| && all[i] == Snapshot(s.mem[id]);
      assert Ids(all)[i] == id;
    }
    forall j | 0 <= j < |s.table|
      ensures RowIds(s.table)[j] in Ids(all)
    {
      RowIsListed(s, order, j);
      var i :| 0 <= i < |all| && all[i] == Decode(s.table[j]);
      assert Ids(all)[i] == s.table[j].id;
    }
    forall i | 0 <= i < |all|
      ensures Ids(all)[i] in s.mem.Keys + Elements(RowIds(s.table))
    {
      ListedIsKnown(s, order, all[i]);
      KnownHasId(s, all[i].id);
    }
  }

  lemma KnownHasId(s: State, id: string)
    requires Get(s, id).Ok?
    ensures id in s.mem || id in RowIds(s.table)
  {
    if id !in s.mem {
      var r := FindRow(s.table, id).value;
      var i :| 0 <= i < |s.table| && s.table[i] == r;
      assert RowIds(s.table)[i] == id;
    }
  }

  lemma ListedIsKnown(s: State, order: seq<string>, e: Entry)
    requires Inv(s) && Enumerates(order, s.mem.Keys) && e in AllOf(s, order)
    ensures Get(s, e.id) == Ok(e)
  {
    var m, h := PendingOf(s, order), History(s.table);
    SortNewestCorrect(m + h);
    assert e in multiset(m + h);
    assert e in m + h;
    HistoryIsDecoded(s.table);
    if e in m {
      var i :| 0 <= i < |m| && m[i] == e;
      assert order[i] in Elements(order);
    } else {
      var i :| 0 <= i < |h| && h[i] == e;
      FindUnique(s.table, i);
    }
  }

  // --- The query parameters ---

  /** A query parameter: absent, not a number, or a number. */
  datatype Param = Absent | Malformed | Number(n: int)

  const DEFAULT_LIMIT := 100
  const MAX_LIMIT := 500

  /** The limit and cursor of a list request, or None for a rejected one. */
  function ListArguments(limit: Param, before: Param): (r: Option<(int, int)>)
    ensures r.None? <==> limit.Malformed? || before.Malformed? || (limit.Number? && limit.n <= 0)
    ensures r.Some? ==> 1 <= r.value.0 <= MAX_LIMIT && r.value.1 % NS_PER_MS == 0
    ensures r.Some? && limit.Number? ==> r.value.0 <= limit.n && (limit.n <= MAX_LIMIT ==> r.value.0 == limit.n)
    ensures r.Some? && before.Number? ==> UnixMilli(r.value.1) == before.n
    ensures r.Some? && before.Absent? ==> forall t :: BeforeCursor(t, r.value.1) && RowBeforeCursor(UnixMilli(t), r.value.1)
  {
    if limit.Malformed? || (limit.Number? && limit.n <= 0) then None
    else if before.Malformed? then None
    else Some((if limit.Absent? then DEFAULT_LIMIT else Min(limit.n, MAX_LIMIT),
               if before.Absent? then ZERO_TIME else FromMilli(before.n)))
  }
}
