/** The steps of one call, taken in order with nothing in between, are the atomic operation. */
module CallSteps {
  import opened Types
  import opened RowCodec
  import opened BodyBuffers
  import opened Memory
  import opened Database
  import opened Interleaving
  import Listing
  import S = StoreSpec

  /** The same ids in memory and the same rows. */
  ghost predicate Tiers(s: S.State, w: World) { w.mem == s.mem.Keys && w.rows == s.table }

  // --- Finalize ---

  function DeleteActs(k: nat, n: nat): seq<Act> {
    if n == 0 then [] else [DeleteStep(k)] + DeleteActs(k, n - 1)
  }

  /** All of one Finalize that has its row to write and n victims to delete. */
  function FinalizeActs(k: nat, row: Row, n: nat): seq<Act> {
    [BeginFinalize(k, row.id)] + ([InsertStep(k, row)] + ([DropStep(k)] + ([AskStep(k)] + (DeleteActs(k, n) + [FinishStep(k)]))))
  }

  lemma One(maxEntries: nat, w: World, act: Act)
    requires Possible(w, act)
    ensures Schedule(maxEntries, w, [act]) && Play(maxEntries, w, [act]) == Do(maxEntries, w, act)
  {
    Continue(maxEntries, w, [act], []);
  }

  /** Deleting the victims one by one. */
  lemma {:induction false} DeletesAre(maxEntries: nat, w: World, k: nat, t: seq<Row>, n: nat, i: nat)
    requires NoDup(RowIds(t)) && n + i <= |t| && k in w.calls && w.calls[k].Trimming?
    requires w.calls[k].todo == RowIds(t)[n + i..] && w.rows == t[..n] + t[n + i..]
    ensures Schedule(maxEntries, w, DeleteActs(k, |t| - n - i))
    ensures var v := Play(maxEntries, w, DeleteActs(k, |t| - n - i));
            && v.rows == t[..n] && v.mem == w.mem
            && k in v.calls && v.calls[k].Trimming? && v.calls[k].todo == []
    decreases |t| - n - i
  {
    if n + i == |t| {
      assert t[..n] + t[n + i..] == t[..n];
    } else {
      var act := DeleteStep(k);
      var w1 := Do(maxEntries, w, act);
      assert w.calls[k].todo[0] == t[n + i].id;
      DeleteNext(t, n, i);
      assert RowIds(t)[n + i..][1..] == RowIds(t)[n + i + 1..];
      DeletesAre(maxEntries, w1, k, t, n, i + 1);
      Then(maxEntries, w, act, DeleteActs(k, |t| - n - i - 1));
    }
  }

  lemma Victims(t: seq<Row>, maxEntries: nat)
    ensures var n := Min(maxEntries, |t|);
            Kept(t, maxEntries) == t[..n] && Overflow(t, maxEntries) == RowIds(t)[n..] && t[..n] + t[n..] == t
  {
    var n := Min(maxEntries, |t|);
    assert RowIds(t[n..]) == RowIds(t)[n..];
  }

  /** From the query to the end. */
  lemma TrimmingIs(maxEntries: nat, w: World, k: nat)
    requires NoDup(RowIds(w.rows)) && k in w.calls && w.calls[k].Dropped?
    ensures var acts := [AskStep(k)] + (DeleteActs(k, |Overflow(w.rows, maxEntries)|) + [FinishStep(k)]);
            Schedule(maxEntries, w, acts) &&
            var v := Play(maxEntries, w, acts);
            v.rows == Kept(w.rows, maxEntries) && v.mem == w.mem
  {
    var w1 := Do(maxEntries, w, AskStep(k));
    Victims(w.rows, maxEntries);
    DeletesAre(maxEntries, w1, k, w.rows, Min(maxEntries, |w.rows|), 0);
    FinishIs(maxEntries, w1, k, DeleteActs(k, |Overflow(w.rows, maxEntries)|));
    Then(maxEntries, w, AskStep(k), DeleteActs(k, |Overflow(w.rows, maxEntries)|) + [FinishStep(k)]);
  }

  lemma FinishIs(maxEntries: nat, w: World, k: nat, deletes: seq<Act>)
    requires Schedule(maxEntries, w, deletes)
    requires var v := Play(maxEntries, w, deletes); k in v.calls && v.calls[k].Trimming? && v.calls[k].todo == []
    ensures Schedule(maxEntries, w, deletes + [FinishStep(k)])
    ensures var v, u := Play(maxEntries, w, deletes), Play(maxEntries, w, deletes + [FinishStep(k)]);
            u.rows == v.rows && u.mem == v.mem
  {
    var v := Play(maxEntries, w, deletes);
    One(maxEntries, v, FinishStep(k));
    ScheduleAppend(maxEntries, w, deletes, [FinishStep(k)]);
  }

  /** A Finalize that nothing interrupts. */
  lemma FinalizeCallIsFinalize(cfg: S.Config, s: S.State, w: World, k: nat, id: string, fn: Edit, now: int)
    requires S.Inv(s) && Tiers(s, w) && id in s.mem && k !in w.calls
    ensures var row := Encode(Snapshot(Memory.Finished(s.mem[id], fn, now)));
            var acts := FinalizeActs(k, row, |Overflow(InsertRow(s.table, row), cfg.maxEntries)|);
            Schedule(cfg.maxEntries, w, acts) && Tiers(S.Finalize(cfg, s, id, fn, now), Play(cfg.maxEntries, w, acts))
  {
    var cap, row := cfg.maxEntries, Encode(Snapshot(Memory.Finished(s.mem[id], fn, now)));
    S.MoveKeepsInv(s, id, fn, now);
    var w1 := Do(cap, w, BeginFinalize(k, id));
    var w2 := Do(cap, w1, InsertStep(k, row));
    var w3 := Do(cap, w2, DropStep(k));
    S.FinalizedTable(cfg, s, id, fn, now);
    TrimmingIs(cap, w3, k);
    var rest := [AskStep(k)] + (DeleteActs(k, |Overflow(w3.rows, cap)|) + [FinishStep(k)]);
    Then(cap, w2, DropStep(k), rest);
    Then(cap, w1, InsertStep(k, row), [DropStep(k)] + rest);
    Then(cap, w, BeginFinalize(k, id), [InsertStep(k, row)] + ([DropStep(k)] + rest));
  }

  // --- Get, List and Clear ---

  function GetActs(s: S.State, k: nat, id: string): seq<Act> {
    [BeginGet(k, id)] + ([LookStep(k)] + if id in s.mem then [] else [ReadStep(k)])
  }

  /** A Get that nothing interrupts finds exactly what the atomic one does. */
  lemma GetCallIsGet(maxEntries: nat, s: S.State, w: World, k: nat, id: string)
    requires Tiers(s, w) && k !in w.calls
    ensures Schedule(maxEntries, w, GetActs(s, k, id))
    ensures var v := Play(maxEntries, w, GetActs(s, k, id));
            k in v.calls && v.calls[k].Answered? && (v.calls[k].found <==> S.Get(s, id).Ok?) && Tiers(s, v)
  {
    var w1 := Do(maxEntries, w, BeginGet(k, id));
    var w2 := Do(maxEntries, w1, LookStep(k));
    var rest := if id in s.mem then [] else [ReadStep(k)];
    if id !in s.mem {
      One(maxEntries, w2, ReadStep(k));
    }
    Then(maxEntries, w1, LookStep(k), rest);
    Then(maxEntries, w, BeginGet(k, id), [LookStep(k)] + rest);
  }

  /** A List that nothing interrupts comes across exactly the ids the atomic one lists. */
  lemma ListCallIsList(maxEntries: nat, s: S.State, w: World, k: nat, order: seq<string>)
    requires S.Inv(s) && Tiers(s, w) && k !in w.lists && Enumerates(order, s.mem.Keys)
    ensures Schedule(maxEntries, w, [ScanStep(k)] + [MergeStep(k)])
    ensures var v := Play(maxEntries, w, [ScanStep(k)] + [MergeStep(k)]);
            k in v.lists && v.lists[k] == Listed(Elements(Listing.Ids(Listing.AllOf(s, order)))) && Tiers(s, v)
  {
    var w1 := Do(maxEntries, w, ScanStep(k));
    One(maxEntries, w1, MergeStep(k));
    Then(maxEntries, w, ScanStep(k), [MergeStep(k)]);
    Listing.ListedIds(s, order);
  }

  /** A Clear that nothing interrupts leaves what the atomic one leaves, and announces every id whose row it deletes. */
  lemma ClearCallIsClear(maxEntries: nat, s: S.State, w: World, k: nat, order: seq<string>)
    requires Tiers(s, w) && k !in w.clears && Enumerates(order, Elements(RowIds(s.table)))
    ensures Schedule(maxEntries, w, [ListIdsStep(k), WipeStep(k)])
    ensures var v := Play(maxEntries, w, [ListIdsStep(k), WipeStep(k)]);
            && Tiers(S.Clear(s, order), v)
            && k in v.clears && v.clears[k] == Wiped(Elements(order), Elements(order))
            && S.Clear(s, order).events == s.events + S.DeletedEvents(order)
  {
    var w1 := Do(maxEntries, w, ListIdsStep(k));
    var v := ClearUndisturbed(maxEntries, w, k);
    One(maxEntries, w1, WipeStep(k));
    Then(maxEntries, w, ListIdsStep(k), [WipeStep(k)]);
    assert [ListIdsStep(k)] + [WipeStep(k)] == [ListIdsStep(k), WipeStep(k)];
  }
}
