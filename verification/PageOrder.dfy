/** Where the rows of a connected page stand. */
module PageOrder {
  import opened Types
  import opened Database
  import opened StoreSpec
  import opened Listing
  import opened Mirror
  import opened PageGaps

  /** The millisecond in which a known entry started. */
  function StartOf(s: State, id: string): int {
    match Get(s, id)
    case Ok(e) => UnixMilli(e.startedAt)
    case Err(_) => 0
  }

  function StartsOf(s: State, order: seq<string>): (starts: seq<int>)
    ensures |starts| == |order|
    ensures forall i :: 0 <= i < |order| ==> starts[i] == StartOf(s, order[i])
  {
    seq(|order|, i requires 0 <= i < |order| => StartOf(s, order[i]))
  }

  /** No entry stands before one that started in a later millisecond. */
  predicate NewestFirstIn(s: State, order: seq<string>) { Descending(StartsOf(s, order)) }

  lemma DescendingCons(x: int, xs: seq<int>)
    ensures Descending([x] + xs) <==> Descending(xs) && forall i :: 0 <= i < |xs| ==> x >= xs[i]
  {
    var r := [x] + xs;
    assert r[0] == x && forall i :: 0 <= i < |xs| ==> xs[i] == r[i + 1];
    if Descending(r) {
      forall i, j | 0 <= i < j < |xs|
        ensures xs[i] >= xs[j]
      {
        assert r[i + 1] >= r[j + 1];
      }
    }
  }

  lemma NewestConsIn(s: State, id: string, order: seq<string>)
    ensures NewestFirstIn(s, [id] + order) <==>
            NewestFirstIn(s, order) && forall x :: x in order ==> StartOf(s, id) >= StartOf(s, x)
  {
    var starts := StartsOf(s, order);
    assert StartsOf(s, [id] + order) == [StartOf(s, id)] + starts;
    DescendingCons(StartOf(s, id), starts);
    assert forall i :: 0 <= i < |order| ==> order[i] in order && starts[i] == StartOf(s, order[i]);
  }

  // --- What events do to it ---

  lemma {:induction false} WithoutStaysNewest(s: State, order: seq<string>, id: string)
    requires NewestFirstIn(s, order)
    ensures NewestFirstIn(s, Without(order, id)) && forall x :: x in Without(order, id) ==> x in order
  {
    if order != [] {
      assert order == [order[0]] + order[1..];
      NewestConsIn(s, order[0], order[1..]);
      WithoutStaysNewest(s, order[1..], id);
      NewestConsIn(s, order[0], Without(order[1..], id));
    }
  }

  /** Without creations nothing new enters the list, and what stays keeps its place. */
  lemma {:induction false} FoldStaysNewest(c: Client, events: seq<Event>, s: State)
    requires NoneCreated(events) && NewestFirstIn(s, c.order)
    ensures NewestFirstIn(s, Fold(c, events).order) && forall x :: x in Fold(c, events).order ==> x in c.order
    decreases |events|
  {
    if events != [] {
      if events[0].Deleted? {
        WithoutStaysNewest(s, c.order, events[0].id);
      }
      FoldStaysNewest(Handle(c, events[0]), events[1..], s);
    }
  }

  // --- One step ---

  /** A new entry starts in no earlier millisecond than any entry known. */
  ghost predicate PutIsNewest(s: State, e: Entry, newId: string, now: int) {
    forall x :: Get(s, x).Ok? ==> UnixMilli(Registered(e, newId, now).startedAt) >= StartOf(s, x)
  }

  lemma ListedIffKnown(c: Client, s: State, id: string)
    requires Inv(s) && Mirrors(c, s)
    ensures id in c.order <==> Get(s, id).Ok?
  {
    MirrorsGet(c, s, id);
    assert id in c.order <==> id in Elements(c.order);
  }

  lemma SameStarts(s: State, s': State, order: seq<string>)
    requires forall x :: x in order ==> StartOf(s', x) == StartOf(s, x)
    ensures NewestFirstIn(s', order) <==> NewestFirstIn(s, order)
  {
    assert StartsOf(s', order) == StartsOf(s, order);
  }

  lemma PutStart(s: State, e: Entry, newId: string, now: int, x: string)
    ensures StartOf(Put(s, e, newId, now), x) ==
            if x == AssignedId(e, newId) then UnixMilli(Registered(e, newId, now).startedAt) else StartOf(s, x)
  {
  }

  /** Whatever it started, what is put goes to the top of the page, and the rows below keep their order. */
  lemma NewRowIsFirst(cfg: Config, c: Client, s: State, e: Entry, newId: string, now: int)
    requires Inv(s) && Mirrors(c, s) && Enabled(s, OpPut(e, newId, now))
    ensures var s' := Step(cfg, s, OpPut(e, newId, now));
            s.events <= s'.events && Fold(c, NewEvents(s, s')).order == [AssignedId(e, newId)] + c.order
  {
    PutHandled(c, s, e, newId, now);
  }

  lemma PutOrders(c: Client, s: State, e: Entry, newId: string, now: int)
    requires Inv(s) && Mirrors(c, s) && Enabled(s, OpPut(e, newId, now)) && NewestFirstIn(s, c.order)
    ensures var s' := Put(s, e, newId, now);
            && s.events <= s'.events
            && (NewestFirstIn(s', Fold(c, NewEvents(s, s')).order) <==> PutIsNewest(s, e, newId, now))
  {
    var s', id := Put(s, e, newId, now), AssignedId(e, newId);
    PutHandled(c, s, e, newId, now);
    forall x | x in c.order
      ensures StartOf(s', x) == StartOf(s, x)
    {
      PutStart(s, e, newId, now, x);
      assert x in Elements(c.order);
    }
    PutStart(s, e, newId, now, id);
    SameStarts(s, s', c.order);
    NewestConsIn(s', id, c.order);
    forall x
      ensures x in c.order <==> Get(s, x).Ok?
    {
      ListedIffKnown(c, s, x);
    }
  }

  lemma OthersOrder(cfg: Config, c: Client, s: State, op: Op)
    requires Inv(s) && Mirrors(c, s) && Enabled(s, op) && !op.OpPut?
    requires NewestFirstIn(s, c.order) && PropGuard(StartProp, cfg, s, op)
    ensures Follows(c, s, Step(cfg, s, op))
    ensures NewestFirstIn(Step(cfg, s, op), Fold(c, NewEvents(s, Step(cfg, s, op))).order)
  {
    var s' := Step(cfg, s, op);
    StepFollows(cfg, c, s, op);
    StepKeepsInv(cfg, s, op);
    StepCreatesNone(cfg, s, op);
    KeptIffGuard(StartProp, cfg, s, op);
    KeptOrder(c, NewEvents(s, s'), s, s');
  }

  lemma KeptOrder(c: Client, events: seq<Event>, s: State, s': State)
    requires Inv(s) && Mirrors(c, s) && NewestFirstIn(s, c.order) && NoneCreated(events)
    requires Inv(s') && Mirrors(Fold(c, events), s') && PropKept(StartProp, s, s')
    ensures NewestFirstIn(s', Fold(c, events).order)
  {
    FoldStaysNewest(c, events, s);
    var c' := Fold(c, events);
    forall x | x in c'.order
      ensures StartOf(s', x) == StartOf(s, x)
    {
      ListedIffKnown(c, s, x);
      ListedIffKnown(c', s', x);
      SameStart(s, s', x);
    }
    SameStarts(s, s', c'.order);
  }

  lemma SameStart(s: State, s': State, x: string)
    requires PropKept(StartProp, s, s') && Get(s, x).Ok? && Get(s', x).Ok?
    ensures StartOf(s', x) == StartOf(s, x)
  {
    assert PropOf(StartProp, Get(s', x).value) == PropOf(StartProp, Get(s, x).value);
  }

  /** No edit moves a start, and new entries are the newest. */
  ghost predicate InOrder(cfg: Config, s: State, op: Op) {
    PropGuard(StartProp, cfg, s, op) && (op.OpPut? ==> PutIsNewest(s, op.e, op.newId, op.now))
  }

  /** Where no edit moves a start, the page stays newest first over a step exactly if what is put is the newest. */
  lemma StepOrders(cfg: Config, c: Client, s: State, op: Op)
    requires Inv(s) && Mirrors(c, s) && Enabled(s, op)
    requires NewestFirstIn(s, c.order) && PropGuard(StartProp, cfg, s, op)
    ensures Follows(c, s, Step(cfg, s, op))
    ensures NewestFirstIn(Step(cfg, s, op), Fold(c, NewEvents(s, Step(cfg, s, op))).order) <==> InOrder(cfg, s, op)
  {
    if op.OpPut? {
      PutFollows(c, s, op.e, op.newId, op.now);
      PutOrders(c, s, op.e, op.newId, op.now);
    } else {
      OthersOrder(cfg, c, s, op);
    }
  }

  // --- Runs ---

  ghost predicate InOrderRun(cfg: Config, s: State, ops: seq<Op>)
    decreases |ops|
  {
    ops == [] || (Enabled(s, ops[0]) && InOrder(cfg, s, ops[0]) && InOrderRun(cfg, Step(cfg, s, ops[0]), ops[1..]))
  }

  lemma {:induction false} InOrderIsEnabled(cfg: Config, s: State, ops: seq<Op>)
    requires InOrderRun(cfg, s, ops)
    ensures EnabledRun(cfg, s, ops)
    decreases |ops|
  {
    if ops != [] {
      InOrderIsEnabled(cfg, Step(cfg, s, ops[0]), ops[1..]);
    }
  }

  lemma {:induction false} RunOrders(cfg: Config, c: Client, s: State, ops: seq<Op>)
    requires Inv(s) && Mirrors(c, s) && NewestFirstIn(s, c.order) && InOrderRun(cfg, s, ops)
    ensures Inv(Run(cfg, s, ops)) && Follows(c, s, Run(cfg, s, ops))
    ensures NewestFirstIn(Run(cfg, s, ops), Fold(c, NewEvents(s, Run(cfg, s, ops))).order)
    decreases |ops|
  {
    InOrderIsEnabled(cfg, s, ops);
    RunFollows(cfg, c, s, ops);
    if ops == [] {
      assert NewEvents(s, s) == [];
    } else {
      var s1 := Step(cfg, s, ops[0]);
      StepOrders(cfg, c, s, ops[0]);
      StepKeepsInv(cfg, s, ops[0]);
      RunOrders(cfg, Fold(c, NewEvents(s, s1)), s1, ops[1..]);
      EventsChain(c, s, s1, Run(cfg, s1, ops[1..]));
    }
  }

  // --- Loading ---

  lemma LoadedStart(s: State, order: seq<string>, i: nat)
    requires Inv(s) && Enumerates(order, s.mem.Keys) && i < |AllOf(s, order)|
    ensures StartOf(s, Ids(AllOf(s, order))[i]) == UnixMilli(AllOf(s, order)[i].startedAt)
  {
    ListedIsKnown(s, order, AllOf(s, order)[i]);
  }

  lemma LoadOrders(s: State, order: seq<string>)
    requires Inv(s) && Enumerates(order, s.mem.Keys)
    ensures NewestFirstIn(s, Load(AllOf(s, order)).order)
  {
    var all := AllOf(s, order);
    SortNewestCorrect(PendingOf(s, order) + History(s.table));
    forall i, j | 0 <= i < j < |all|
      ensures StartOf(s, Ids(all)[i]) >= StartOf(s, Ids(all)[j])
    {
      LoadedStart(s, order, i);
      LoadedStart(s, order, j);
      assert all[i].startedAt >= all[j].startedAt;
    }
  }

  // --- The order of the page ---

  /** The page that loaded the whole list in s and has handled every event up to s'. */
  function PageAfter(s: State, order: seq<string>, s': State): Client
    requires Enumerates(order, s.mem.Keys) && s.events <= s'.events
  {
    Fold(Load(List(PendingOf(s, order), s.table, PAGE_LIMIT, ZERO_TIME)), NewEvents(s, s'))
  }

  lemma WholeList(s: State, order: seq<string>)
    requires Inv(s) && Enumerates(order, s.mem.Keys) && |s.mem| + |s.table| <= PAGE_LIMIT
    ensures List(PendingOf(s, order), s.table, PAGE_LIMIT, ZERO_TIME) == AllOf(s, order)
  {
    FirstPage(s, order);
    SizeOfAll(s, order);
  }

  lemma PageStaysNewest(cfg: Config, s: State, order: seq<string>, ops: seq<Op>)
    requires Inv(s) && Enumerates(order, s.mem.Keys) && |s.mem| + |s.table| <= PAGE_LIMIT && InOrderRun(cfg, s, ops)
    ensures Inv(Run(cfg, s, ops)) && s.events <= Run(cfg, s, ops).events
    ensures Mirrors(PageAfter(s, order, Run(cfg, s, ops)), Run(cfg, s, ops))
    ensures NewestFirstIn(Run(cfg, s, ops), PageAfter(s, order, Run(cfg, s, ops)).order)
  {
    WholeList(s, order);
    CompleteLoadMirrors(s, order);
    LoadOrders(s, order);
    RunOrders(cfg, Load(AllOf(s, order)), s, ops);
  }

  /** After every run in which new entries are the newest and no edit moves a start, the page lists the entries newest
      first, to the millisecond. */
  lemma PageListsNewestFirst(cfg: Config, s: State, order: seq<string>, ops: seq<Op>, i: nat, j: nat)
    requires Inv(s) && Enumerates(order, s.mem.Keys) && |s.mem| + |s.table| <= PAGE_LIMIT && InOrderRun(cfg, s, ops)
    ensures s.events <= Run(cfg, s, ops).events
    ensures var s' := Run(cfg, s, ops);
            var rows := PageAfter(s, order, s').order;
            i < j < |rows| ==>
              && Get(s', rows[i]).Ok? && Get(s', rows[j]).Ok?
              && UnixMilli(Get(s', rows[i]).value.startedAt) >= UnixMilli(Get(s', rows[j]).value.startedAt)
  {
    PageStaysNewest(cfg, s, order, ops);
    var s' := Run(cfg, s, ops);
    var c := PageAfter(s, order, s');
    if i < j < |c.order| {
      assert c.order[i] in c.order && c.order[j] in c.order;
      ListedIffKnown(c, s', c.order[i]);
      ListedIffKnown(c, s', c.order[j]);
      assert StartOf(s', c.order[i]) >= StartOf(s', c.order[j]);
    }
  }

  lemma EmptyAlike<T>(a: seq<T>, b: seq<T>)
    requires Elements(a) == Elements(b)
    ensures a == [] <==> b == []
  {
    if a != [] {
      assert a[0] in Elements(b);
    }
    if b != [] {
      assert b[0] in Elements(a);
    }
  }

  lemma SameFirst(s: State, a: seq<string>, b: seq<string>)
    requires a != [] && b != [] && Elements(a) == Elements(b) && NewestFirstIn(s, a) && NewestFirstIn(s, b)
    requires forall x, y :: x in a && y in a && x != y ==> StartOf(s, x) != StartOf(s, y)
    ensures a[0] == b[0]
  {
    assert a[0] in Elements(b) && b[0] in Elements(a);
    var i :| 0 <= i < |b| && b[i] == a[0];
    var j :| 0 <= j < |a| && a[j] == b[0];
    assert StartOf(s, a[0]) >= StartOf(s, a[j]) && StartOf(s, b[0]) >= StartOf(s, b[i]);
  }

  lemma {:induction false} OneOrder(s: State, a: seq<string>, b: seq<string>)
    requires NoDup(a) && NoDup(b) && Elements(a) == Elements(b) && NewestFirstIn(s, a) && NewestFirstIn(s, b)
    requires forall x, y :: x in a && y in a && x != y ==> StartOf(s, x) != StartOf(s, y)
    ensures a == b
  {
    EmptyAlike(a, b);
    if a != [] {
      SameFirst(s, a, b);
      HeadAndTail(a);
      HeadAndTail(b);
      assert a == [a[0]] + a[1..] && b == [b[0]] + b[1..];
      NoDupCons(a[0], a[1..]);
      NoDupCons(b[0], b[1..]);
      NewestConsIn(s, a[0], a[1..]);
      NewestConsIn(s, b[0], b[1..]);
      assert Elements(a[1..]) == Elements(a) - {a[0]};
      assert Elements(b[1..]) == Elements(b) - {b[0]};
      OneOrder(s, a[1..], b[1..]);
    }
  }

  lemma DistinctStarts(s: State, order: seq<string>)
    requires Inv(s) && Enumerates(order, s.mem.Keys) && DistinctMs(AllOf(s, order))
    ensures forall x, y :: x in Ids(AllOf(s, order)) && y in Ids(AllOf(s, order)) && x != y ==> StartOf(s, x) != StartOf(s, y)
  {
    var ids := Ids(AllOf(s, order));
    forall x, y | x in ids && y in ids && x != y
      ensures StartOf(s, x) != StartOf(s, y)
    {
      var i :| 0 <= i < |ids| && ids[i] == x;
      var j :| 0 <= j < |ids| && ids[j] == y;
      LoadedStart(s, order, i);
      LoadedStart(s, order, j);
      if i < j {
        assert UnixMilli(AllOf(s, order)[i].startedAt) != UnixMilli(AllOf(s, order)[j].startedAt);
      } else {
        assert UnixMilli(AllOf(s, order)[j].startedAt) != UnixMilli(AllOf(s, order)[i].startedAt);
      }
    }
  }

  /** If moreover no two entries started in the same millisecond, the page lists them just as a fresh load would. */
  lemma PageListsAsLoaded(cfg: Config, s: State, order: seq<string>, ops: seq<Op>, later: seq<string>)
    requires Inv(s) && Enumerates(order, s.mem.Keys) && |s.mem| + |s.table| <= PAGE_LIMIT && InOrderRun(cfg, s, ops)
    requires Enumerates(later, Run(cfg, s, ops).mem.Keys) && DistinctMs(AllOf(Run(cfg, s, ops), later))
    ensures s.events <= Run(cfg, s, ops).events
    ensures PageAfter(s, order, Run(cfg, s, ops)).order == Ids(AllOf(Run(cfg, s, ops), later))
  {
    var s' := Run(cfg, s, ops);
    PageStaysNewest(cfg, s, order, ops);
    CompleteLoadMirrors(s', later);
    LoadOrders(s', later);
    DistinctStarts(s', later);
    var c := PageAfter(s, order, s');
    assert Elements(c.order) == Elements(Ids(AllOf(s', later)));
    OneOrder(s', Ids(AllOf(s', later)), c.order);
  }
}
