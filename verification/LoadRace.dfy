/** The list answer of a page that is already connected: exactly when it does no harm that it came late. */
module LoadRace {
  import opened Types
  import opened RowCodec
  import opened BodyBuffers
  import opened Memory
  import opened Database
  import opened StoreSpec
  import opened Listing
  import opened Mirror
  import opened PageGaps
  import opened PageFeed
  import Brokers
  import Capture

  // --- Events about one entry ---

  datatype Kind = Creation | Change | Deletion

  predicate IsOf(ev: Event, kind: Kind, id: string) {
    match kind
    case Creation => ev.Created? && ev.entry.id == id
    case Change => ev.Updated? && ev.id == id
    case Deletion => ev.Deleted? && ev.id == id
  }

  predicate Has(events: seq<Event>, kind: Kind, id: string) {
    exists i :: 0 <= i < |events| && IsOf(events[i], kind, id)
  }

  lemma HasCons(events: seq<Event>, kind: Kind, id: string)
    requires events != []
    ensures Has(events, kind, id) <==> IsOf(events[0], kind, id) || Has(events[1..], kind, id)
  {
    if Has(events, kind, id) {
      var i :| 0 <= i < |events| && IsOf(events[i], kind, id);
      if i > 0 {
        assert IsOf(events[1..][i - 1], kind, id);
      }
    }
    if Has(events[1..], kind, id) {
      var i :| 0 <= i < |events| - 1 && IsOf(events[1..][i], kind, id);
      assert IsOf(events[i + 1], kind, id);
    }
  }

  predicate Untouched(ev: Event, id: string) {
    !IsOf(ev, Creation, id) && !IsOf(ev, Change, id) && !IsOf(ev, Deletion, id)
  }

  lemma UntouchedStays(c: Client, ev: Event, id: string)
    requires Untouched(ev, id)
    ensures id in Handle(c, ev).rows <==> id in c.rows
    ensures id in c.rows ==> Handle(c, ev).rows[id] == c.rows[id]
  {
  }

  lemma {:induction false} UnknownStaysUnknown(c: Client, events: seq<Event>, id: string)
    requires id !in c.rows && !Has(events, Creation, id)
    ensures id !in Fold(c, events).rows
    decreases |events|
  {
    if events != [] {
      HasCons(events, Creation, id);
      UnknownStaysUnknown(Handle(c, events[0]), events[1..], id);
    }
  }

  lemma {:induction false} KnownStaysKnown(c: Client, events: seq<Event>, id: string)
    requires id in c.rows && !Has(events, Deletion, id)
    ensures id in Fold(c, events).rows
    decreases |events|
  {
    if events != [] {
      HasCons(events, Deletion, id);
      KnownStaysKnown(Handle(c, events[0]), events[1..], id);
    }
  }

  lemma {:induction false} UnchangedStays(c: Client, events: seq<Event>, id: string)
    requires id in c.rows && !Has(events, Creation, id) && !Has(events, Change, id) && !Has(events, Deletion, id)
    ensures id in Fold(c, events).rows && Fold(c, events).rows[id] == c.rows[id]
    decreases |events|
  {
    if events != [] {
      HasCons(events, Creation, id);
      HasCons(events, Change, id);
      HasCons(events, Deletion, id);
      UntouchedStays(c, events[0], id);
      UnchangedStays(Handle(c, events[0]), events[1..], id);
    }
  }

  lemma {:induction false} DeletedIsGone(c: Client, events: seq<Event>, id: string)
    requires Has(events, Deletion, id) && !Has(events, Creation, id)
    ensures id !in Fold(c, events).rows
    decreases |events|
  {
    HasCons(events, Creation, id);
    HasCons(events, Deletion, id);
    if Has(events[1..], Deletion, id) {
      DeletedIsGone(Handle(c, events[0]), events[1..], id);
    } else {
      UnknownStaysUnknown(Handle(c, events[0]), events[1..], id);
    }
  }

  lemma {:induction false} UnknownIsNotDeleted(c: Client, events: seq<Event>, id: string)
    requires id !in c.rows && Sound(c, events) && !Has(events, Creation, id)
    ensures !Has(events, Deletion, id)
    decreases |events|
  {
    if events != [] {
      HasCons(events, Creation, id);
      HasCons(events, Deletion, id);
      assert id !in Handle(c, events[0]).rows;
      UnknownIsNotDeleted(Handle(c, events[0]), events[1..], id);
    }
  }

  // --- Two pages, one entry ---

  ghost predicate SameRow(c: Client, d: Client, id: string) {
    && (id in c.rows <==> id in d.rows)
    && (id in c.rows ==> Shown(c.rows[id]) == Shown(d.rows[id]))
  }

  lemma HandleAlike(c: Client, d: Client, ev: Event, id: string)
    requires SameRow(c, d, id)
    ensures SameRow(Handle(c, ev), Handle(d, ev), id)
  {
    if Untouched(ev, id) {
      UntouchedStays(c, ev, id);
      UntouchedStays(d, ev, id);
    } else if ev.Created? {
      MergeShows(if id in c.rows then c.rows[id] else map[], ev.entry);
      MergeShows(if id in d.rows then d.rows[id] else map[], ev.entry);
    } else if ev.Updated? && id in c.rows {
      UpdateShows(c.rows[id], id, ev.entry);
      UpdateShows(d.rows[id], id, ev.entry);
    }
  }

  /** Pages that agree on a row go on agreeing on it. */
  lemma {:induction false} FoldAlike(c: Client, d: Client, events: seq<Event>, id: string)
    requires SameRow(c, d, id)
    ensures SameRow(Fold(c, events), Fold(d, events), id)
    decreases |events|
  {
    if events != [] {
      HandleAlike(c, d, events[0], id);
      FoldAlike(Handle(c, events[0]), Handle(d, events[0]), events[1..], id);
    }
  }

  /** Pages that both know a row agree on it after its next change. */
  lemma {:induction false} ChangeAligns(c: Client, d: Client, events: seq<Event>, id: string)
    requires id in c.rows && id in d.rows
    requires !Has(events, Creation, id) && !Has(events, Deletion, id) && Has(events, Change, id)
    ensures SameRow(Fold(c, events), Fold(d, events), id)
    decreases |events|
  {
    var ev := events[0];
    HasCons(events, Creation, id);
    HasCons(events, Deletion, id);
    HasCons(events, Change, id);
    if IsOf(ev, Change, id) {
      UpdateShows(c.rows[id], id, ev.entry);
      UpdateShows(d.rows[id], id, ev.entry);
      FoldAlike(Handle(c, ev), Handle(d, ev), events[1..], id);
    } else {
      UntouchedStays(c, ev, id);
      UntouchedStays(d, ev, id);
      ChangeAligns(Handle(c, ev), Handle(d, ev), events[1..], id);
    }
  }

  /** A page that starts from c but misses the events in `missed`, set against one that handled all of them: whether
      they end up with the same row. */
  ghost predicate NothingMissed(c: Client, missed: seq<Event>, handled: seq<Event>, id: string) {
    var all := Fold(Fold(c, missed), handled);
    && (id in all.rows ==> !Has(missed, Creation, id))
    && (id in c.rows ==> !Has(missed, Deletion, id))
    && (id in c.rows && id in all.rows && !Has(handled, Change, id) ==> Shown(all.rows[id]) == Shown(c.rows[id]))
  }

  /** An entry that was not there to begin with is right unless its creation was missed and it is still there. */
  lemma NewRowMissed(c: Client, missed: seq<Event>, handled: seq<Event>, id: string)
    requires id !in c.rows && (Has(missed, Creation, id) ==> !Has(handled, Creation, id))
    ensures SameRow(Fold(c, handled), Fold(Fold(c, missed), handled), id) <==> NothingMissed(c, missed, handled, id)
  {
    if Has(missed, Creation, id) {
      UnknownStaysUnknown(c, handled, id);
    } else {
      UnknownStaysUnknown(c, missed, id);
      FoldAlike(c, Fold(c, missed), handled, id);
    }
  }

  /** An entry that was there is wrong if its deletion was missed, or if its last change was. */
  lemma OldRowMissed(c: Client, missed: seq<Event>, handled: seq<Event>, id: string)
    requires id in c.rows && !Has(missed, Creation, id) && !Has(handled, Creation, id)
    requires Sound(Fold(c, missed), handled)
    ensures SameRow(Fold(c, handled), Fold(Fold(c, missed), handled), id) <==> NothingMissed(c, missed, handled, id)
  {
    var b := Fold(c, missed);
    if Has(missed, Deletion, id) {
      DeletedIsGone(c, missed, id);
      UnknownStaysUnknown(b, handled, id);
      UnknownIsNotDeleted(b, handled, id);
      KnownStaysKnown(c, handled, id);
    } else {
      KnownStaysKnown(c, missed, id);
      if Has(handled, Deletion, id) {
        DeletedIsGone(c, handled, id);
        DeletedIsGone(b, handled, id);
      } else if Has(handled, Change, id) {
        ChangeAligns(c, b, handled, id);
      } else {
        UnchangedStays(c, handled, id);
        UnchangedStays(b, handled, id);
      }
    }
  }

  /** How an entry that was there comes out: never missing, there against the facts exactly if its deletion was missed,
      and out of date exactly if a change was missed and none follows. */
  lemma OldRowErrors(c: Client, missed: seq<Event>, handled: seq<Event>, id: string)
    requires id in c.rows && !Has(missed, Creation, id) && !Has(handled, Creation, id)
    requires Sound(Fold(c, missed), handled)
    ensures var d, m := Fold(c, handled), Fold(Fold(c, missed), handled);
            && (id in m.rows ==> id in d.rows)
            && (id in d.rows && id !in m.rows <==> Has(missed, Deletion, id))
            && (id in m.rows && Shown(d.rows[id]) != Shown(m.rows[id]) <==>
                  id in m.rows && !Has(handled, Change, id) && Shown(m.rows[id]) != Shown(c.rows[id]))
  {
    OldRowMissed(c, missed, handled, id);
    var b := Fold(c, missed);
    if Has(missed, Deletion, id) {
      DeletedIsGone(c, missed, id);
      UnknownStaysUnknown(b, handled, id);
      UnknownIsNotDeleted(b, handled, id);
      KnownStaysKnown(c, handled, id);
    } else {
      KnownStaysKnown(c, missed, id);
      if Has(handled, Deletion, id) {
        DeletedIsGone(c, handled, id);
        DeletedIsGone(b, handled, id);
      } else {
        KnownStaysKnown(c, handled, id);
        KnownStaysKnown(b, handled, id);
      }
    }
  }

  /** How one that was not there comes out: missing exactly if its creation was missed and it is there, and otherwise
      right. */
  lemma NewRowErrors(c: Client, missed: seq<Event>, handled: seq<Event>, id: string)
    requires id !in c.rows && (Has(missed, Creation, id) ==> !Has(handled, Creation, id))
    ensures var d, m := Fold(c, handled), Fold(Fold(c, missed), handled);
            && (id in d.rows ==> id in m.rows && Shown(d.rows[id]) == Shown(m.rows[id]))
            && (id !in d.rows && id in m.rows <==> id in m.rows && Has(missed, Creation, id))
  {
    NewRowMissed(c, missed, handled, id);
    if Has(missed, Creation, id) {
      UnknownStaysUnknown(c, handled, id);
    }
  }

  // --- Ids are put once ---

  function PutCount(ops: seq<Op>, id: string): nat {
    if ops == [] then 0
    else (if ops[0].OpPut? && AssignedId(ops[0].e, ops[0].newId) == id then 1 else 0) + PutCount(ops[1..], id)
  }

  function CreationCount(events: seq<Event>, id: string): nat {
    if events == [] then 0
    else (if IsOf(events[0], Creation, id) then 1 else 0) + CreationCount(events[1..], id)
  }

  /** No id is put twice, the entries already known included. */
  ghost predicate PutOnce(s: State, ops: seq<Op>) {
    forall id :: PutCount(ops, id) + (if Get(s, id).Ok? then 1 else 0) <= 1
  }

  lemma {:induction false} CreationCountAppend(a: seq<Event>, b: seq<Event>, id: string)
    ensures CreationCount(a + b, id) == CreationCount(a, id) + CreationCount(b, id)
  {
    if a == [] {
      assert a + b == b;
    } else {
      assert (a + b)[0] == a[0] && (a + b)[1..] == a[1..] + b;
      CreationCountAppend(a[1..], b, id);
    }
  }

  lemma {:induction false} HasCounts(events: seq<Event>, id: string)
    ensures Has(events, Creation, id) <==> CreationCount(events, id) > 0
  {
    if events != [] {
      HasCons(events, Creation, id);
      HasCounts(events[1..], id);
    }
  }

  lemma StepCreates(cfg: Config, c: Client, s: State, op: Op, id: string)
    requires Inv(s) && Mirrors(c, s) && Enabled(s, op)
    ensures s.events <= Step(cfg, s, op).events
    ensures CreationCount(NewEvents(s, Step(cfg, s, op)), id) == PutCount([op], id)
  {
    assert PutCount([op], id) == (if op.OpPut? && AssignedId(op.e, op.newId) == id then 1 else 0) + PutCount([], id);
    StepFollows(cfg, c, s, op);
    var events := NewEvents(s, Step(cfg, s, op));
    if op.OpPut? {
      var live := Live(Registered(op.e, op.newId, op.now), EMPTY_BUF, EMPTY_BUF, op.now);
      var ev := Created(AssignedId(op.e, op.newId), Snapshot(live));
      assert events == [ev];
      assert CreationCount([ev], id) == (if IsOf(ev, Creation, id) then 1 else 0) + CreationCount([], id);
    } else {
      StepCreatesNone(cfg, s, op);
      HasCounts(events, id);
    }
  }

  lemma {:induction false} RunCreates(cfg: Config, c: Client, s: State, ops: seq<Op>, id: string)
    requires Inv(s) && Mirrors(c, s) && EnabledRun(cfg, s, ops)
    ensures s.events <= Run(cfg, s, ops).events
    ensures CreationCount(NewEvents(s, Run(cfg, s, ops)), id) == PutCount(ops, id)
    decreases |ops|
  {
    if ops == [] {
      assert NewEvents(s, s) == [];
    } else {
      var s1 := Step(cfg, s, ops[0]);
      StepCreates(cfg, c, s, ops[0], id);
      StepFollows(cfg, c, s, ops[0]);
      StepKeepsInv(cfg, s, ops[0]);
      RunCreates(cfg, Fold(c, NewEvents(s, s1)), s1, ops[1..], id);
      EventsOfTwo(s, s1, Run(cfg, s1, ops[1..]));
      CreationCountAppend(NewEvents(s, s1), NewEvents(s1, Run(cfg, s1, ops[1..])), id);
      assert PutCount([ops[0]], id) == (if ops[0].OpPut? && AssignedId(ops[0].e, ops[0].newId) == id then 1 else 0) + PutCount([], id);
    }
  }

  // --- Against the store ---

  ghost predicate RowRight(c: Client, s: State, id: string) {
    && (id in c.rows <==> Get(s, id).Ok?)
    && (id in c.rows ==> Shown(c.rows[id]) == FaceOf(Get(s, id).value))
  }

  lemma {:induction false} FoldTidy(c: Client, events: seq<Event>)
    requires Tidy(c)
    ensures Tidy(Fold(c, events))
    decreases |events|
  {
    if events != [] {
      HandleTidy(c, events[0]);
      FoldTidy(Handle(c, events[0]), events[1..]);
    }
  }

  /** Against a page m that mirrors the store: a page is right about an entry if it agrees with m. */
  lemma RightIfSame(c: Client, m: Client, s: State, id: string)
    requires Inv(s) && Mirrors(m, s)
    ensures RowRight(c, s, id) <==> SameRow(c, m, id)
  {
    MirrorsGet(m, s, id);
  }

  lemma MirrorsIffRight(c: Client, m: Client, s: State)
    requires Inv(s) && Mirrors(m, s) && Tidy(c)
    ensures Mirrors(c, s) <==> forall id :: RowRight(c, s, id)
  {
    if Mirrors(c, s) {
      forall id
        ensures RowRight(c, s, id)
      {
        MirrorsGet(c, s, id);
      }
    }
    if forall id :: RowRight(c, s, id) {
      forall id
        ensures SameRow(c, m, id)
      {
        assert RowRight(c, s, id);
        RightIfSame(c, m, s, id);
      }
      AllSameMirrors(c, m, s);
    }
  }

  lemma AllSameMirrors(c: Client, m: Client, s: State)
    requires Mirrors(m, s) && Tidy(c) && forall id :: SameRow(c, m, id)
    ensures Mirrors(c, s)
  {
    forall id
      ensures id in c.rows <==> id in m.rows
      ensures id in c.rows ==> Shown(c.rows[id]) == Shown(m.rows[id])
    {
      assert SameRow(c, m, id);
    }
    assert c.rows.Keys == m.rows.Keys;
  }

  /** What it takes for an entry that the first k of the events after the answer had been handled, and so were thrown
      away, when the answer was taken over. If it is known in the end, its creation is not among them; if it was known
      when the answer was made up, its deletion is not; and if it is known both times and no change follows, it looks the
      same both times. */
  ghost predicate Harmless(s1: State, s2: State, k: nat, id: string)
    requires s1.events <= s2.events && k <= |NewEvents(s1, s2)|
  {
    var events := NewEvents(s1, s2);
    && (Get(s2, id).Ok? ==> !Has(events[..k], Creation, id))
    && (Get(s1, id).Ok? ==> !Has(events[..k], Deletion, id))
    && (Get(s1, id).Ok? && Get(s2, id).Ok? && !Has(events[k..], Change, id) ==>
          FaceOf(Get(s2, id).value) == FaceOf(Get(s1, id).value))
  }

  /** The answer, complete, and the events of the run that follows it. */
  ghost predicate Answered(cfg: Config, s1: State, order: seq<string>, after: seq<Op>) {
    && Inv(s1) && Enumerates(order, s1.mem.Keys) && |s1.mem| + |s1.table| <= PAGE_LIMIT
    && EnabledRun(cfg, s1, after) && PutOnce(s1, after)
    && s1.events <= Run(cfg, s1, after).events
  }

  function AnswerOf(s: State, order: seq<string>): seq<Entry>
    requires Enumerates(order, s.mem.Keys)
  {
    List(PendingOf(s, order), s.table, PAGE_LIMIT, ZERO_TIME)
  }

  /** The page that took over the answer after k of the events that followed it, once it has handled the others. */
  ghost function LatePage(cfg: Config, s1: State, order: seq<string>, after: seq<Op>, k: nat): Client
    requires Enumerates(order, s1.mem.Keys) && s1.events <= Run(cfg, s1, after).events
    requires k <= |NewEvents(s1, Run(cfg, s1, after))|
  {
    Fold(Load(AnswerOf(s1, order)), NewEvents(s1, Run(cfg, s1, after))[k..])
  }

  lemma SplitCounts(events: seq<Event>, k: nat, id: string)
    requires k <= |events| && CreationCount(events, id) <= 1
    ensures Has(events[..k], Creation, id) ==> !Has(events[k..], Creation, id)
    ensures CreationCount(events, id) == 0 ==> !Has(events[..k], Creation, id) && !Has(events[k..], Creation, id)
  {
    Rejoin(events, k);
    CreationCountAppend(events[..k], events[k..], id);
    HasCounts(events[..k], id);
    HasCounts(events[k..], id);
  }

  lemma CreatedOnce(cfg: Config, s1: State, order: seq<string>, after: seq<Op>, id: string)
    requires Answered(cfg, s1, order, after)
    ensures CreationCount(NewEvents(s1, Run(cfg, s1, after)), id) <= if Get(s1, id).Ok? then 0 else 1
  {
    LoadMirrors(s1, order);
    RunCreates(cfg, Load(AnswerOf(s1, order)), s1, after, id);
    assert PutCount(after, id) + (if Get(s1, id).Ok? then 1 else 0) <= 1;
  }

  /** Such a page is right about an entry exactly if missing those events was harmless for it. */
  lemma RightIffHarmless(cfg: Config, s1: State, order: seq<string>, after: seq<Op>, k: nat, id: string)
    requires Answered(cfg, s1, order, after) && k <= |NewEvents(s1, Run(cfg, s1, after))|
    ensures var s2 := Run(cfg, s1, after);
            RowRight(LatePage(cfg, s1, order, after, k), s2, id) <==> Harmless(s1, s2, k, id)
  {
    var s2, c := Run(cfg, s1, after), Load(AnswerOf(s1, order));
    var events := NewEvents(s1, s2);
    LoadMirrors(s1, order);
    RunSound(cfg, c, s1, after);
    SplitEvents(c, events, k);
    CreatedOnce(cfg, s1, order, after, id);
    SplitCounts(events, k, id);
    MirrorsGet(c, s1, id);
    if id in c.rows {
      OldRowMissed(c, events[..k], events[k..], id);
    } else {
      NewRowMissed(c, events[..k], events[k..], id);
    }
    var m := Fold(c, events);
    RightIfSame(LatePage(cfg, s1, order, after, k), m, s2, id);
    MirrorsGet(m, s2, id);
  }

  lemma LatePageIsRight(cfg: Config, s1: State, order: seq<string>, after: seq<Op>, k: nat)
    requires Answered(cfg, s1, order, after) && k <= |NewEvents(s1, Run(cfg, s1, after))|
    ensures var s2 := Run(cfg, s1, after);
            Mirrors(LatePage(cfg, s1, order, after, k), s2) <==>
            forall id :: RowRight(LatePage(cfg, s1, order, after, k), s2, id)
  {
    var s2, c := Run(cfg, s1, after), Load(AnswerOf(s1, order));
    LoadMirrors(s1, order);
    RunFollows(cfg, c, s1, after);
    FoldTidy(c, NewEvents(s1, s2)[k..]);
    MirrorsIffRight(LatePage(cfg, s1, order, after, k), Fold(c, NewEvents(s1, s2)), s2);
  }

  /** It mirrors the store exactly if it was harmless for every entry. */
  lemma LateAnswerMirrors(cfg: Config, s1: State, order: seq<string>, after: seq<Op>, k: nat)
    requires Answered(cfg, s1, order, after) && k <= |NewEvents(s1, Run(cfg, s1, after))|
    ensures var s2 := Run(cfg, s1, after);
            Mirrors(LatePage(cfg, s1, order, after, k), s2) <==> forall id :: Harmless(s1, s2, k, id)
  {
    LatePageIsRight(cfg, s1, order, after, k);
    forall id
      ensures RowRight(LatePage(cfg, s1, order, after, k), Run(cfg, s1, after), id) <==> Harmless(s1, Run(cfg, s1, after), k, id)
    {
      RightIffHarmless(cfg, s1, order, after, k, id);
    }
  }

  // --- What goes wrong with one entry ---

  /** The three ways to be wrong: an entry is missing exactly if its creation was thrown away and it is still there, a
      deleted one is shown exactly if its deletion was, and one still there looks out of date exactly if it changed
      and nothing about it followed. */
  lemma LateAnswerErrors(cfg: Config, s1: State, order: seq<string>, after: seq<Op>, k: nat, id: string)
    requires Answered(cfg, s1, order, after) && k <= |NewEvents(s1, Run(cfg, s1, after))|
    ensures var s2, page := Run(cfg, s1, after), LatePage(cfg, s1, order, after, k);
            var events := NewEvents(s1, s2);
            && (id !in page.rows && Get(s2, id).Ok? <==> Get(s2, id).Ok? && Has(events[..k], Creation, id))
            && (id in page.rows && Get(s2, id).Err? <==> Get(s1, id).Ok? && Has(events[..k], Deletion, id))
            && (id in page.rows && Get(s2, id).Ok? && Shown(page.rows[id]) != FaceOf(Get(s2, id).value) <==>
                  && Get(s1, id).Ok? && Get(s2, id).Ok? && !Has(events[k..], Change, id)
                  && FaceOf(Get(s2, id).value) != FaceOf(Get(s1, id).value))
  {
    var s2, c := Run(cfg, s1, after), Load(AnswerOf(s1, order));
    var events := NewEvents(s1, s2);
    LoadMirrors(s1, order);
    RunSound(cfg, c, s1, after);
    SplitEvents(c, events, k);
    CreatedOnce(cfg, s1, order, after, id);
    SplitCounts(events, k, id);
    MirrorsGet(c, s1, id);
    MirrorsGet(Fold(c, events), s2, id);
    if id in c.rows {
      OldRowErrors(c, events[..k], events[k..], id);
    } else {
      NewRowErrors(c, events[..k], events[k..], id);
    }
  }

  /** Missing nothing but response fragments is harmless. */
  lemma DeltasAreHarmless(cfg: Config, s1: State, order: seq<string>, after: seq<Op>, k: nat)
    requires Answered(cfg, s1, order, after) && k <= |NewEvents(s1, Run(cfg, s1, after))|
    requires forall i :: 0 <= i < k ==> NewEvents(s1, Run(cfg, s1, after))[i].Delta?
    ensures Mirrors(LatePage(cfg, s1, order, after, k), Run(cfg, s1, after))
  {
    var c := Load(AnswerOf(s1, order));
    LoadMirrors(s1, order);
    RunFollows(cfg, c, s1, after);
    DeltasMissed(c, NewEvents(s1, Run(cfg, s1, after)), k);
  }

  lemma DeltasMissed(c: Client, events: seq<Event>, k: nat)
    requires k <= |events| && forall i :: 0 <= i < k ==> events[i].Delta?
    ensures Fold(c, events[k..]) == Fold(c, events)
  {
    FoldParts(c, events, k);
    DeltasFold(c, events[..k]);
  }

  lemma FoldParts(c: Client, events: seq<Event>, k: nat)
    requires k <= |events|
    ensures Fold(c, events) == Fold(Fold(c, events[..k]), events[k..])
  {
    Rejoin(events, k);
    FoldAppend(c, events[..k], events[k..]);
  }

  lemma {:induction false} DeltasFold(c: Client, events: seq<Event>)
    requires forall i :: 0 <= i < |events| ==> events[i].Delta?
    ensures Fold(c, events) == c
    decreases |events|
  {
    if events != [] {
      DeltasFold(Handle(c, events[0]), events[1..]);
    }
  }

  // --- From the subscription on ---

  /** How many of the first p events since s0 came after s1. */
  function Missed(s0: State, s1: State, p: nat): nat
    requires s0.events <= s1.events
  {
    if p <= |NewEvents(s0, s1)| then 0 else p - |NewEvents(s0, s1)|
  }

  /** The page's own history: it subscribes in s0, its list request is answered in s1 and taken over after p of the
      events up to s2. */
  ghost predicate Connected(cfg: Config, s0: State, order0: seq<string>, before: seq<Op>, s1: State, order: seq<string>,
                            after: seq<Op>, s2: State, p: nat) {
    && Inv(s0) && Enumerates(order0, s0.mem.Keys) && EnabledRun(cfg, s0, before) && s1 == Run(cfg, s0, before)
    && Answered(cfg, s1, order, after) && s2 == Run(cfg, s1, after)
    && s0.events <= s1.events <= s2.events && p <= |NewEvents(s0, s2)|
  }

  lemma TakenOverLate(s0: State, s1: State, s2: State, p: nat)
    requires s0.events <= s1.events <= s2.events && |NewEvents(s0, s1)| <= p <= |NewEvents(s0, s2)|
    ensures NewEvents(s0, s2)[p..] == NewEvents(s1, s2)[p - |NewEvents(s0, s1)|..]
  {
  }

  lemma NothingMissedIsHarmless(cfg: Config, s1: State, order: seq<string>, after: seq<Op>)
    requires Answered(cfg, s1, order, after)
    ensures forall id :: Harmless(s1, Run(cfg, s1, after), 0, id)
  {
    DeltasAreHarmless(cfg, s1, order, after, 0);
    LateAnswerMirrors(cfg, s1, order, after, 0);
  }

  /** The page mirrors the store exactly if missing the first k events was harmless, and always if k is 0. */
  ghost predicate MirrorsIfHarmless(page: Client, s1: State, s2: State, k: nat)
    requires s1.events <= s2.events && k <= |NewEvents(s1, s2)|
  {
    && (Mirrors(page, s2) <==> forall id :: Harmless(s1, s2, k, id))
    && (k == 0 ==> Mirrors(page, s2))
  }

  lemma MissedIsLater(s0: State, s1: State, s2: State, p: nat)
    requires s0.events <= s1.events <= s2.events && p <= |NewEvents(s0, s2)|
    ensures Missed(s0, s1, p) <= |NewEvents(s1, s2)|
    ensures |NewEvents(s0, s1)| < p ==> NewEvents(s0, s2)[p..] == NewEvents(s1, s2)[Missed(s0, s1, p)..]
  {
    if |NewEvents(s0, s1)| < p {
      TakenOverLate(s0, s1, s2, p);
    }
  }

  lemma LateMirrors(cfg: Config, s0: State, order0: seq<string>, before: seq<Op>, s1: State, order: seq<string>,
                    after: seq<Op>, s2: State, p: nat)
    requires Connected(cfg, s0, order0, before, s1, order, after, s2, p) && p > |NewEvents(s0, s1)|
    ensures Missed(s0, s1, p) <= |NewEvents(s1, s2)|
    ensures MirrorsIfHarmless(Fold(Load(AnswerOf(s1, order)), NewEvents(s1, s2)[Missed(s0, s1, p)..]), s1, s2, Missed(s0, s1, p))
  {
    MissedIsLater(s0, s1, s2, p);
    LateAnswerMirrors(cfg, s1, order, after, Missed(s0, s1, p));
  }

  lemma InTimeMirrors(cfg: Config, s0: State, order0: seq<string>, before: seq<Op>, s1: State, order: seq<string>,
                      after: seq<Op>, s2: State, p: nat)
    requires Connected(cfg, s0, order0, before, s1, order, after, s2, p) && p <= |NewEvents(s0, s1)|
    ensures MirrorsIfHarmless(Fold(Load(AnswerOf(s1, order)), NewEvents(s0, s2)[p..]), s1, s2, 0)
  {
    LoadWhileConnected(cfg, s0, order0, before, order, after, p);
    NothingMissedIsHarmless(cfg, s1, order, after);
  }

  /** Whatever p, the page ends up mirroring the store exactly if the events later than the answer that it had handled
      before taking it over were harmless; if there were none, it always does. */
  lemma TakeOverMirrors(cfg: Config, s0: State, order0: seq<string>, before: seq<Op>, s1: State, order: seq<string>,
                        after: seq<Op>, s2: State, p: nat)
    requires Connected(cfg, s0, order0, before, s1, order, after, s2, p)
    ensures Missed(s0, s1, p) <= |NewEvents(s1, s2)|
    ensures MirrorsIfHarmless(Fold(Load(AnswerOf(s1, order)), NewEvents(s0, s2)[p..]), s1, s2, Missed(s0, s1, p))
  {
    MissedIsLater(s0, s1, s2, p);
    if p <= |NewEvents(s0, s1)| {
      InTimeMirrors(cfg, s0, order0, before, s1, order, after, s2, p);
    } else {
      LateMirrors(cfg, s0, order0, before, s1, order, after, s2, p);
    }
  }

  /** A page whose channel was subscribed in s0 and not cut off since, once the queue is drained, has received exactly
      the events in between, whatever else happened at the broker. So it mirrors the store under the same condition. */
  lemma ConnectedPageMirrors(cfg: Config, s0: State, order0: seq<string>, before: seq<Op>, s1: State, order: seq<string>,
                             after: seq<Op>, s2: State, p: nat,
                             broker: Brokers.Broker, ch: Brokers.Channel, acts: seq<Brokers.Act<Brokers.Channel>>)
    requires broker.Valid() && ch in broker.handedOut && ch.queue == []
    requires Brokers.HubPlayable(broker.View(), acts)
    requires var hub := Brokers.HubRun(broker.View(), acts);
             ch in hub.subs && ch in hub.chans && hub.chans[ch].queue == []
    requires Connected(cfg, s0, order0, before, s1, order, after, s2, p)
    requires Brokers.PublishedBy(broker.View(), acts) == NewEvents(s0, s2)
    ensures var received := Brokers.ReceivedBy(broker.View(), acts, ch);
            && p <= |received| && Missed(s0, s1, p) <= |NewEvents(s1, s2)|
            && MirrorsIfHarmless(Fold(Load(AnswerOf(s1, order)), received[p..]), s1, s2, Missed(s0, s1, p))
  {
    broker.ChannelSees(ch, acts);
    var received := Brokers.ReceivedBy(broker.View(), acts, ch);
    assert received + [] == received;
    assert [] + NewEvents(s0, s2) == NewEvents(s0, s2);
    TakeOverMirrors(cfg, s0, order0, before, s1, order, after, s2, p);
  }

  // --- One run for each way to be wrong ---

  const PUT := OpPut(PENDING_ENTRY, "", 0)

  /** The end of the exchange, as the reader's Close reports it. */
  const FINISH := OpFinalize("a", Capture.StreamEdit(None), 5)

  lemma OnePending(cfg: Config) returns (s: State)
    ensures s == Run(cfg, NEW_STATE, [PUT]) && EnabledRun(cfg, NEW_STATE, [PUT])
    ensures Inv(s) && s.mem.Keys == {"a"} && s.mem["a"].entry == PENDING_ENTRY && s.table == [] && |s.mem| == 1
  {
    PutAlone(cfg);
    RunOne(cfg, NEW_STATE, PUT);
    s := Step(cfg, NEW_STATE, PUT);
    assert [PUT][1..] == [];
    assert |s.mem.Keys| == |s.mem|;
  }

  /** Finalizing the only entry of a store without rows. */
  lemma FinalizedAlone(cfg: Config, s: State, id: string, fn: Edit, now: int) returns (e: Entry)
    requires cfg.maxEntries > 0 && s.mem.Keys == {id} && s.table == []
    ensures e == Snapshot(Finished(s.mem[id], fn, now))
    ensures Finalize(cfg, s, id, fn, now) == State(map[], [Encode(e)], s.files, s.events + [Updated(id, e)])
  {
    e := Snapshot(Finished(s.mem[id], fn, now));
    InsertIntoEmpty(Encode(e));
    var s1 := MoveToTable(s, id, fn, now);
    assert s1.table == [Encode(e)];
    NothingToTrim(cfg, s1);
    assert s.mem - {id} == map[];
  }

  lemma NothingToTrim(cfg: Config, s: State)
    requires |s.table| <= cfg.maxEntries
    ensures Trim(cfg, s) == s
  {
    assert Victims(cfg, s) == [];
    assert DeletedEvents([]) == [] && BlobsOf([]) == {};
    assert s.files - {} == s.files;
  }

  lemma OneFinished(cfg: Config, s: State) returns (s': State)
    requires cfg.maxEntries > 0 && s == Run(cfg, NEW_STATE, [PUT])
    ensures s' == Step(cfg, s, FINISH) && Enabled(s, FINISH)
    ensures Inv(s') && s'.mem == map[] && |s'.table| == 1 && s'.table[0].id == "a" && s'.table[0].status == Done
    ensures exists e :: s'.events == s.events + [Updated("a", e)]
  {
    var t := OnePending(cfg);
    var e := FinalizedAlone(cfg, s, "a", Capture.StreamEdit(None), 5);
    s' := Step(cfg, s, FINISH);
    StepKeepsInv(cfg, s, FINISH);
    assert e.status == Done && e.id == "a";
  }

  lemma NoPuts(s: State, op: Op)
    requires !op.OpPut?
    ensures PutOnce(s, [op])
  {
    assert forall id :: PutCount([op], id) == PutCount([op][1..], id) == 0;
  }

  lemma OneStepRun(cfg: Config, s: State, op: Op)
    requires Enabled(s, op)
    ensures EnabledRun(cfg, s, [op]) && Run(cfg, s, [op]) == Step(cfg, s, op)
  {
    RunOne(cfg, s, op);
    assert [op][1..] == [];
  }

  lemma OnlyEvent(s: State, s': State, ev: Event)
    requires s'.events == s.events + [ev]
    ensures s.events <= s'.events && NewEvents(s, s') == [ev]
    ensures NewEvents(s, s')[..1] == [ev] && NewEvents(s, s')[1..] == []
  {
  }

  lemma HasOne(ev: Event, kind: Kind, id: string)
    requires IsOf(ev, kind, id)
    ensures Has([ev], kind, id)
  {
    assert IsOf([ev][0], kind, id);
  }

  /** The list request of an empty store is answered, an entry is put and announced, and then the answer is taken over:
      the entry is missing. */
  lemma MissingRow(cfg: Config)
    ensures Answered(cfg, NEW_STATE, [], [PUT]) && |NewEvents(NEW_STATE, Run(cfg, NEW_STATE, [PUT]))| == 1
    ensures "a" !in LatePage(cfg, NEW_STATE, [], [PUT], 1).rows && Get(Run(cfg, NEW_STATE, [PUT]), "a").Ok?
  {
    var s2 := OnePending(cfg);
    PutAlone(cfg);
    var live := Live(Registered(PUT.e, PUT.newId, PUT.now), EMPTY_BUF, EMPTY_BUF, PUT.now);
    RunOne(cfg, NEW_STATE, PUT);
    var ev := Created("a", Snapshot(live));
    OnlyEvent(NEW_STATE, s2, ev);
    HasOne(ev, Creation, "a");
    assert Elements<string>([]) == {};
    assert forall id :: PutCount([PUT], id) == (if "a" == id then 1 else 0) + PutCount([PUT][1..], id);
    LateAnswerErrors(cfg, NEW_STATE, [], [PUT], 1, "a");
  }

  /** The answer shows a finished entry, history is cleared and that announced, and then the answer is taken over: the
      entry is still shown. */
  lemma GhostRow(cfg: Config) returns (s1: State)
    requires cfg.maxEntries > 0
    ensures EnabledRun(cfg, NEW_STATE, [PUT, FINISH]) && s1 == Run(cfg, NEW_STATE, [PUT, FINISH])
    ensures var clear := [OpClear(["a"])];
            && Answered(cfg, s1, [], clear) && |NewEvents(s1, Run(cfg, s1, clear))| == 1
            && "a" in LatePage(cfg, s1, [], clear, 1).rows && Get(Run(cfg, s1, clear), "a") == Err(NotFound)
  {
    var s := OnePending(cfg);
    s1 := OneFinished(cfg, s);
    TwoSteps(cfg, NEW_STATE, PUT, FINISH);
    RunOne(cfg, NEW_STATE, PUT);
    var clear := OpClear(["a"]);
    assert RowIds(s1.table) == ["a"];
    assert Elements(["a"]) == {"a"} && Elements<string>([]) == {};
    OneStepRun(cfg, s1, clear);
    NoPuts(s1, clear);
    var s2 := Step(cfg, s1, clear);
    assert DeletedEvents(["a"]) == [Deleted("a")];
    OnlyEvent(s1, s2, Deleted("a"));
    HasOne(Deleted("a"), Deletion, "a");
    assert Get(s1, "a").Ok?;
    LateAnswerErrors(cfg, s1, [], [clear], 1, "a");
  }

  /** The answer shows an entry in flight, the entry is finished and that announced, and then the answer is taken over:
      it goes on being shown as pending. */
  lemma StaleRow(cfg: Config) returns (s1: State)
    requires cfg.maxEntries > 0
    ensures EnabledRun(cfg, NEW_STATE, [PUT]) && s1 == Run(cfg, NEW_STATE, [PUT])
    ensures Enumerates(["a"], s1.mem.Keys) && Answered(cfg, s1, ["a"], [FINISH]) && |NewEvents(s1, Run(cfg, s1, [FINISH]))| == 1
    ensures var page, s2 := LatePage(cfg, s1, ["a"], [FINISH], 1), Run(cfg, s1, [FINISH]);
            && Get(s2, "a").Ok? && Get(s2, "a").value.status == Done
            && "a" in page.rows && Shown(page.rows["a"]).status == Pending
  {
    s1 := OnePending(cfg);
    var s2 := OneFinished(cfg, s1);
    OneStepRun(cfg, s1, FINISH);
    NoPuts(s1, FINISH);
    var e :| s2.events == s1.events + [Updated("a", e)];
    OnlyEvent(s1, s2, Updated("a", e));
    assert Elements(["a"]) == {"a"};
    LoadMirrors(s1, ["a"]);
    var c := Load(AnswerOf(s1, ["a"]));
    assert Fold(c, []) == c;
  }
}
