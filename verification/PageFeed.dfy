/** A page fed through its channel: draining the queue, and loading the list while already connected. */
module PageFeed {
  import opened Types
  import opened BodyBuffers
  import opened Memory
  import opened StoreSpec
  import opened Listing
  import opened Database
  import opened Mirror
  import Brokers

  /** Handles everything queued on the channel. */
  method Drain(ch: Brokers.Channel, page: Page)
    modifies ch, page
    ensures ch.queue == [] && ch.closed == old(ch.closed)
    ensures page.View() == Fold(old(page.View()), old(ch.queue))
  {
    while ch.queue != []
      invariant ch.closed == old(ch.closed)
      invariant Fold(page.View(), ch.queue) == Fold(old(page.View()), old(ch.queue))
      decreases |ch.queue|
    {
      var ev := ch.Receive();
      page.OnEvent(ev);
    }
  }

  // --- Events come in an order that makes sense ---

  /** Rows are created when they are unknown, and updated and deleted while they are known. */
  ghost predicate Sound(c: Client, events: seq<Event>)
    decreases |events|
  {
    events == [] ||
    (&& (events[0].Created? ==> events[0].entry.id !in c.rows)
     && (events[0].Updated? || events[0].Deleted? ==> events[0].id in c.rows)
     && Sound(Handle(c, events[0]), events[1..]))
  }

  lemma {:induction false} SoundAppend(c: Client, a: seq<Event>, b: seq<Event>)
    ensures Sound(c, a + b) <==> Sound(c, a) && Sound(Fold(c, a), b)
    decreases |a|
  {
    if a == [] {
      assert a + b == b;
    } else {
      assert (a + b)[0] == a[0] && (a + b)[1..] == a[1..] + b;
      SoundAppend(Handle(c, a[0]), a[1..], b);
    }
  }

  lemma SoundOne(c: Client, ev: Event)
    requires ev.Created? ==> ev.entry.id !in c.rows
    requires ev.Updated? || ev.Deleted? ==> ev.id in c.rows
    ensures Sound(c, [ev])
  {
    assert [ev][1..] == [];
    assert Sound(Handle(c, ev), []);
  }

  lemma {:induction false} DeletionsSound(c: Client, ids: seq<string>)
    requires NoDup(ids) && forall id :: id in ids ==> id in c.rows
    ensures Sound(c, DeletedEvents(ids))
    decreases |ids|
  {
    if ids != [] {
      assert DeletedEvents(ids)[0] == Deleted(ids[0]) && DeletedEvents(ids)[1..] == DeletedEvents(ids[1..]);
      assert ids == [ids[0]] + ids[1..];
      NoDupCons(ids[0], ids[1..]);
      DeletionsSound(Handle(c, Deleted(ids[0])), ids[1..]);
    }
  }

  /** The page follows a step, and the events of the step are in order for it. */
  ghost predicate FollowsSoundly(c: Client, s: State, s': State) {
    Follows(c, s, s') && Sound(c, NewEvents(s, s'))
  }

  lemma SoundlyTwice(c: Client, s: State, s1: State, s2: State)
    requires FollowsSoundly(c, s, s1) && FollowsSoundly(Fold(c, NewEvents(s, s1)), s1, s2)
    ensures FollowsSoundly(c, s, s2)
  {
    FollowsTwice(c, s, s1, s2);
    EventsOfTwo(s, s1, s2);
    SoundAppend(c, NewEvents(s, s1), NewEvents(s1, s2));
  }

  lemma MoveSound(c: Client, s: State, id: string, fn: Edit, now: int)
    requires Inv(s) && Mirrors(c, s) && id in s.mem
    ensures FollowsSoundly(c, s, MoveToTable(s, id, fn, now))
  {
    var ev := Updated(id, Snapshot(Finished(s.mem[id], fn, now)));
    MoveFollows(c, s, id, fn, now);
    assert NewEvents(s, MoveToTable(s, id, fn, now)) == [ev];
    SoundOne(c, ev);
  }

  lemma VictimsAreKnown(cfg: Config, c: Client, s: State)
    requires Inv(s) && Mirrors(c, s)
    ensures NoDup(Victims(cfg, s)) && forall id :: id in Victims(cfg, s) ==> id in c.rows
  {
    var ids := RowIds(s.table);
    assert Victims(cfg, s) == ids[Min(cfg.maxEntries, |ids|)..];
    Suffix(ids, Min(cfg.maxEntries, |ids|));
  }

  lemma Suffix<T>(s: seq<T>, k: nat)
    requires NoDup(s) && k <= |s|
    ensures NoDup(s[k..]) && forall x :: x in s[k..] ==> x in Elements(s)
  {
    assert forall i :: 0 <= i < |s| - k ==> s[k..][i] == s[k + i];
  }

  lemma TrimSound(cfg: Config, c: Client, s: State)
    requires Inv(s) && Mirrors(c, s)
    ensures FollowsSoundly(c, s, Trim(cfg, s))
  {
    TrimFollows(cfg, c, s);
    assert NewEvents(s, Trim(cfg, s)) == DeletedEvents(Victims(cfg, s));
    VictimsAreKnown(cfg, c, s);
    DeletionsSound(c, Victims(cfg, s));
  }

  lemma FinalizeSound(cfg: Config, c: Client, s: State, id: string, fn: Edit, now: int)
    requires Inv(s) && Mirrors(c, s)
    ensures FollowsSoundly(c, s, Finalize(cfg, s, id, fn, now))
  {
    if id in s.mem {
      var s1 := MoveToTable(s, id, fn, now);
      MoveSound(c, s, id, fn, now);
      MoveKeepsInv(s, id, fn, now);
      TrimSound(cfg, Fold(c, NewEvents(s, s1)), s1);
      SoundlyTwice(c, s, s1, Trim(cfg, s1));
    } else {
      SameEntriesFollow(c, s, s);
      assert NewEvents(s, s) == [];
    }
  }

  lemma {:induction false} FinalizeAllSound(cfg: Config, c: Client, s: State, ids: seq<string>, fn: Edit, now: int)
    requires Inv(s) && Mirrors(c, s)
    ensures FollowsSoundly(c, s, FinalizeAll(cfg, s, ids, fn, now))
    decreases |ids|
  {
    if ids == [] {
      SameEntriesFollow(c, s, s);
      assert NewEvents(s, s) == [];
    } else {
      var s1 := Finalize(cfg, s, ids[0], fn, now);
      FinalizeSound(cfg, c, s, ids[0], fn, now);
      FinalizeKeepsInv(cfg, s, ids[0], fn, now);
      FinalizeAllSound(cfg, Fold(c, NewEvents(s, s1)), s1, ids[1..], fn, now);
      SoundlyTwice(c, s, s1, FinalizeAll(cfg, s1, ids[1..], fn, now));
    }
  }

  lemma AtMostOneSound(c: Client, s: State, s': State, ev: Event)
    requires s'.events == s.events + [ev] || s'.events == s.events
    requires ev.Created? ==> ev.entry.id !in c.rows
    requires ev.Updated? || ev.Deleted? ==> ev.id in c.rows
    ensures s.events <= s'.events && Sound(c, NewEvents(s, s'))
  {
    if s'.events == s.events {
      assert NewEvents(s, s') == [];
    } else {
      assert NewEvents(s, s') == [ev];
      SoundOne(c, ev);
    }
  }

  lemma StepSound(cfg: Config, c: Client, s: State, op: Op)
    requires Inv(s) && Mirrors(c, s) && Enabled(s, op)
    ensures FollowsSoundly(c, s, Step(cfg, s, op))
  {
    StepFollows(cfg, c, s, op);
    var s' := Step(cfg, s, op);
    match op
    case OpPut(e, newId, now) =>
      var live := Live(Registered(e, newId, now), EMPTY_BUF, EMPTY_BUF, now);
      AtMostOneSound(c, s, s', Created(AssignedId(e, newId), Snapshot(live)));
    case OpUpdate(id, fn, now) =>
      AtMostOneSound(c, s, s', if id in s.mem then Updated(id, Snapshot(Edited(s.mem[id], fn, now))) else Delta(id, []));
    case OpSetRequestBody(id, _) => AtMostOneSound(c, s, s', Delta(id, []));
    case OpAppendResponse(id, chunk, _, _) => AtMostOneSound(c, s, s', Delta(id, chunk));
    case OpFinalize(id, fn, now) => FinalizeSound(cfg, c, s, id, fn, now);
    case OpClear(order) =>
      assert NewEvents(s, s') == DeletedEvents(order);
      assert forall id :: id in order ==> id in Elements(order);
      DeletionsSound(c, order);
    case OpSweep(order, _, message, now) => FinalizeAllSound(cfg, c, s, order, TimeoutEdit(message), now);
  }

  lemma {:induction false} RunSound(cfg: Config, c: Client, s: State, ops: seq<Op>)
    requires Inv(s) && Mirrors(c, s) && EnabledRun(cfg, s, ops)
    ensures Inv(Run(cfg, s, ops)) && FollowsSoundly(c, s, Run(cfg, s, ops))
    decreases |ops|
  {
    if ops == [] {
      SameEntriesFollow(c, s, s);
      assert NewEvents(s, s) == [];
    } else {
      var s1 := Step(cfg, s, ops[0]);
      StepSound(cfg, c, s, ops[0]);
      StepKeepsInv(cfg, s, ops[0]);
      RunSound(cfg, Fold(c, NewEvents(s, s1)), s1, ops[1..]);
      SoundlyTwice(c, s, s1, Run(cfg, s1, ops[1..]));
    }
  }

  // --- Events a loaded list already reflects ---

  /** Row by row, a page d that loaded the list of `loaded` and is handling earlier events is either still as loaded,
      or has caught up with a page c that saw the events alone, save for a status code it may keep from the load. */
  ghost predicate AsLoaded(d: Client, loaded: Client, id: string) {
    && (id in d.rows <==> id in loaded.rows)
    && (id in d.rows ==> Shown(d.rows[id]) == Shown(loaded.rows[id]))
  }

  ghost predicate CaughtUp(d: Client, c: Client, loaded: Client, id: string) {
    && (id in d.rows <==> id in c.rows)
    && (id in d.rows ==>
          var f, g := Shown(d.rows[id]), Shown(c.rows[id]);
          && f.status == g.status && f.times == g.times
          && (f.statusCode == g.statusCode || (id in loaded.rows && f.statusCode == Shown(loaded.rows[id]).statusCode)))
  }

  ghost predicate Catching(d: Client, c: Client, loaded: Client) {
    Tidy(d) && forall id :: AsLoaded(d, loaded, id) || CaughtUp(d, c, loaded, id)
  }

  lemma HandleTidy(c: Client, ev: Event)
    requires Tidy(c)
    ensures Tidy(Handle(c, ev))
  {
    match ev
    case Created(_, e) => UpsertTidy(c, e.id, NewListRow(e));
    case Updated(id, e) => UpsertTidy(c, id, UpdatePayload(id, e));
    case Deleted(id) => WithoutKeeps(c.order, id);
    case Delta(_, _) =>
  }

  lemma CreatedCatches(d: Client, c: Client, loaded: Client, e: Entry)
    requires AsLoaded(d, loaded, e.id) || CaughtUp(d, c, loaded, e.id)
    requires e.id !in c.rows
    ensures CaughtUp(Upsert(d, e.id, NewListRow(e)), Upsert(c, e.id, NewListRow(e)), loaded, e.id)
  {
    MergeShows(if e.id in d.rows then d.rows[e.id] else map[], e);
    MergeShows(map[], e);
  }

  lemma UpdatedCatches(d: Client, c: Client, loaded: Client, id: string, e: Entry)
    requires AsLoaded(d, loaded, id) || CaughtUp(d, c, loaded, id)
    requires id in c.rows
    ensures var d', c' := Handle(d, Updated(id, e)), Handle(c, Updated(id, e));
            AsLoaded(d', loaded, id) || CaughtUp(d', c', loaded, id)
  {
    UpdateShows(c.rows[id], id, e);
    if id in d.rows {
      UpdateShows(d.rows[id], id, e);
    }
  }

  lemma HandleOthers(c: Client, ev: Event, id: string)
    requires id != (if ev.Created? then ev.entry.id else ev.id)
    ensures id in Handle(c, ev).rows <==> id in c.rows
    ensures id in c.rows ==> Handle(c, ev).rows[id] == c.rows[id]
  {
  }

  lemma CatchStep(d: Client, c: Client, loaded: Client, ev: Event)
    requires Catching(d, c, loaded) && Sound(c, [ev])
    ensures Catching(Handle(d, ev), Handle(c, ev), loaded)
  {
    HandleTidy(d, ev);
    var touched := if ev.Created? then ev.entry.id else ev.id;
    forall id
      ensures AsLoaded(Handle(d, ev), loaded, id) || CaughtUp(Handle(d, ev), Handle(c, ev), loaded, id)
    {
      assert AsLoaded(d, loaded, id) || CaughtUp(d, c, loaded, id);
      if id != touched {
        HandleOthers(d, ev, id);
        HandleOthers(c, ev, id);
      } else {
        match ev
        case Created(_, e) => CreatedCatches(d, c, loaded, e);
        case Updated(_, e) => UpdatedCatches(d, c, loaded, id, e);
        case _ =>
      }
    }
  }

  lemma {:induction false} CatchUp(d: Client, c: Client, loaded: Client, events: seq<Event>)
    requires Catching(d, c, loaded) && Sound(c, events)
    ensures Catching(Fold(d, events), Fold(c, events), loaded)
    decreases |events|
  {
    if events != [] {
      SoundOne(c, events[0]);
      CatchStep(d, c, loaded, events[0]);
      CatchUp(Handle(d, events[0]), Handle(c, events[0]), loaded, events[1..]);
    }
  }

  /** Caught up with a page that mirrors the state it loaded, the page mirrors it too. */
  lemma CaughtUpMirrors(d: Client, c: Client, loaded: Client, s: State)
    requires Catching(d, c, loaded) && Mirrors(c, s) && Mirrors(loaded, s) && Inv(s)
    ensures Mirrors(d, s)
  {
    forall id
      ensures id in d.rows <==> id in c.rows
      ensures id in d.rows ==> Shown(d.rows[id]) == Shown(c.rows[id])
    {
      assert AsLoaded(d, loaded, id) || CaughtUp(d, c, loaded, id);
      MirrorsGet(c, s, id);
      MirrorsGet(loaded, s, id);
    }
    assert d.rows.Keys == c.rows.Keys;
  }

  /** Handling events again that the loaded list already reflects does no lasting harm. */
  lemma StaleEventsHeal(c: Client, loaded: Client, s: State, events: seq<Event>)
    requires Sound(c, events) && Mirrors(Fold(c, events), s) && Mirrors(loaded, s) && Inv(s)
    ensures Mirrors(Fold(loaded, events), s)
  {
    assert forall id :: AsLoaded(loaded, loaded, id);
    CatchUp(loaded, c, loaded, events);
    CaughtUpMirrors(Fold(loaded, events), Fold(c, events), loaded, s);
  }

  // --- Loading while connected ---

  /** The events of a run, cut at a position. */
  lemma SplitEvents(c: Client, events: seq<Event>, p: nat)
    requires p <= |events| && Sound(c, events)
    ensures Sound(Fold(c, events[..p]), events[p..])
    ensures Fold(Fold(c, events[..p]), events[p..]) == Fold(c, events)
  {
    assert events == events[..p] + events[p..];
    SoundAppend(c, events[..p], events[p..]);
    FoldAppend(c, events[..p], events[p..]);
  }

  /** Up to the state in which the list request was answered. */
  lemma LoadedMirrors(cfg: Config, s0: State, order0: seq<string>, before: seq<Op>, order: seq<string>, p: nat)
    requires Inv(s0) && Enumerates(order0, s0.mem.Keys) && EnabledRun(cfg, s0, before)
    requires var s1 := Run(cfg, s0, before);
             && Enumerates(order, s1.mem.Keys) && |s1.mem| + |s1.table| <= PAGE_LIMIT
             && s0.events <= s1.events && p <= |NewEvents(s0, s1)|
    ensures var s1 := Run(cfg, s0, before);
            var answer := List(PendingOf(s1, order), s1.table, PAGE_LIMIT, ZERO_TIME);
            Inv(s1) && Mirrors(Fold(Load(answer), NewEvents(s0, s1)[p..]), s1)
  {
    var s1 := Run(cfg, s0, before);
    var c0, events := Load(AllOf(s0, order0)), NewEvents(s0, s1);
    CompleteLoadMirrors(s0, order0);
    RunSound(cfg, c0, s0, before);
    var answer := List(PendingOf(s1, order), s1.table, PAGE_LIMIT, ZERO_TIME);
    LoadMirrors(s1, order);
    SplitEvents(c0, events, p);
    StaleEventsHeal(Fold(c0, events[..p]), Load(answer), s1, events[p..]);
  }

  lemma LaterEvents(s0: State, s1: State, s2: State, p: nat)
    requires s0.events <= s1.events <= s2.events && p <= |NewEvents(s0, s1)|
    ensures NewEvents(s0, s2)[p..] == NewEvents(s0, s1)[p..] + NewEvents(s1, s2)
  {
  }

  /** And from there on. */
  lemma ThenFollows(cfg: Config, c: Client, s0: State, s1: State, after: seq<Op>, p: nat)
    requires s0.events <= s1.events && p <= |NewEvents(s0, s1)| && EnabledRun(cfg, s1, after)
    requires Inv(s1) && Mirrors(Fold(c, NewEvents(s0, s1)[p..]), s1)
    ensures var s2 := Run(cfg, s1, after);
            && s0.events <= s1.events <= s2.events
            && Inv(s2) && Mirrors(Fold(c, NewEvents(s0, s2)[p..]), s2)
  {
    var s2 := Run(cfg, s1, after);
    var events := NewEvents(s0, s1);
    RunFollows(cfg, Fold(c, events[p..]), s1, after);
    LaterEvents(s0, s1, s2, p);
    FoldAppend(c, events[p..], NewEvents(s1, s2));
  }

  /** A page subscribes while the store is in s0; its list request is answered in s1. It handles the first p events,
      then takes over the answer, throwing away what it had, and then handles the other events, up to s2. If the p
      events were published before the answer was made up, it ends up mirroring the store. */
  lemma LoadWhileConnected(cfg: Config, s0: State, order0: seq<string>, before: seq<Op>, order: seq<string>, after: seq<Op>, p: nat)
    requires Inv(s0) && Enumerates(order0, s0.mem.Keys) && EnabledRun(cfg, s0, before)
    requires var s1 := Run(cfg, s0, before);
             && Enumerates(order, s1.mem.Keys) && |s1.mem| + |s1.table| <= PAGE_LIMIT
             && EnabledRun(cfg, s1, after)
             && s0.events <= s1.events && p <= |NewEvents(s0, s1)|
    ensures var s1 := Run(cfg, s0, before);
            var s2 := Run(cfg, s1, after);
            && s0.events <= s1.events <= s2.events
            && var answer := List(PendingOf(s1, order), s1.table, PAGE_LIMIT, ZERO_TIME);
            && Inv(s2) && Mirrors(Fold(Load(answer), NewEvents(s0, s2)[p..]), s2)
  {
    var s1 := Run(cfg, s0, before);
    var answer := List(PendingOf(s1, order), s1.table, PAGE_LIMIT, ZERO_TIME);
    LoadedMirrors(cfg, s0, order0, before, order, p);
    ThenFollows(cfg, Load(answer), s0, s1, after, p);
  }
}
