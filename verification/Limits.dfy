/** The two limits a store is opened with, as its callers notice them. */
module Limits {
  import opened Types
  import opened RowCodec
  import opened BodyBuffers
  import opened Memory
  import opened Database
  import opened StoreSpec
  import opened Mirror

  // --- Which bodies spill ---

  predicate BufSized(maxInline: nat, b: Buf) { Writable(b) && (b.path != "" <==> b.size > maxInline) }

  predicate RowSized(maxInline: nat, r: Row) {
    && (r.request.path.Some? <==> r.request.size > maxInline)
    && (r.response.path.Some? <==> r.response.size > maxInline)
  }

  ghost predicate MemSized(maxInline: nat, mem: map<string, Live>) {
    forall id :: id in mem ==> BufSized(maxInline, mem[id].req) && BufSized(maxInline, mem[id].resp)
  }

  /** Rows found when the store was opened may stem from another limit. */
  ghost predicate TableSized(maxInline: nat, t: seq<Row>, found: set<string>) {
    forall i :: 0 <= i < |t| && t[i].id !in found ==> RowSized(maxInline, t[i])
  }

  ghost predicate Sized(cfg: Config, s: State, found: set<string>) {
    MemSized(cfg.maxInline, s.mem) && TableSized(cfg.maxInline, s.table, found)
  }

  lemma WriteSized(b: Buf, disk: Disk, name: string, maxInline: nat, p: Bytes)
    requires BufSized(maxInline, b) && name != ""
    ensures BufSized(maxInline, BufWrite(b, disk, name, maxInline, p).0)
  {
  }

  lemma MovedSized(cfg: Config, s: State, id: string, fn: Edit, now: int, found: set<string>)
    requires Inv(s) && id in s.mem && Sized(cfg, s, found)
    ensures Sized(cfg, MoveToTable(s, id, fn, now), found)
  {
    var k, r := MovedTable(s, id, fn, now);
    var u := InsertAt(s.table, k, r);
    assert RowSized(cfg.maxInline, r);
    forall i | 0 <= i < |u| && u[i].id !in found
      ensures RowSized(cfg.maxInline, u[i])
    {
      if i != k {
        assert u[i] == s.table[if i < k then i else i - 1];
      }
    }
  }

  lemma FinalizeSized(cfg: Config, s: State, id: string, fn: Edit, now: int, found: set<string>)
    requires Inv(s) && Sized(cfg, s, found)
    ensures Sized(cfg, Finalize(cfg, s, id, fn, now), found)
  {
    if id in s.mem {
      MovedSized(cfg, s, id, fn, now, found);
    }
  }

  lemma {:induction false} FinalizeAllSized(cfg: Config, s: State, ids: seq<string>, fn: Edit, now: int, found: set<string>)
    requires Inv(s) && Sized(cfg, s, found)
    ensures Sized(cfg, FinalizeAll(cfg, s, ids, fn, now), found)
    decreases |ids|
  {
    if ids != [] {
      FinalizeSized(cfg, s, ids[0], fn, now, found);
      FinalizeKeepsInv(cfg, s, ids[0], fn, now);
      FinalizeAllSized(cfg, Finalize(cfg, s, ids[0], fn, now), ids[1..], fn, now, found);
    }
  }

  lemma StepSized(cfg: Config, s: State, op: Op, found: set<string>)
    requires Inv(s) && Sized(cfg, s, found)
    ensures Sized(cfg, Step(cfg, s, op), found)
  {
    match op
    case OpSetRequestBody(id, body) =>
      if id in s.mem {
        WriteSized(s.mem[id].req, s.files, BlobName(id, Request), cfg.maxInline, body);
      }
    case OpAppendResponse(id, chunk, _, _) =>
      if id in s.mem {
        WriteSized(s.mem[id].resp, s.files, BlobName(id, Response), cfg.maxInline, chunk);
      }
    case OpFinalize(id, fn, now) => FinalizeSized(cfg, s, id, fn, now, found);
    case OpSweep(order, _, message, now) => FinalizeAllSized(cfg, s, order, TimeoutEdit(message), now, found);
    case _ =>
  }

  lemma {:induction false} RunSized(cfg: Config, s: State, ops: seq<Op>, found: set<string>)
    requires Inv(s) && Sized(cfg, s, found) && EnabledRun(cfg, s, ops)
    ensures Inv(Run(cfg, s, ops)) && Sized(cfg, Run(cfg, s, ops), found)
    decreases |ops|
  {
    if ops != [] {
      StepSized(cfg, s, ops[0], found);
      StepKeepsInv(cfg, s, ops[0]);
      RunSized(cfg, Step(cfg, s, ops[0]), ops[1..], found);
    }
  }

  lemma GetSized(cfg: Config, s: State, found: set<string>, id: string, side: Side)
    requires Sized(cfg, s, found) && id !in found && Get(s, id).Ok?
    ensures var b := Get(s, id).value.BodyOf(side);
            b.spilled <==> b.size > cfg.maxInline
  {
    if id !in s.mem {
      var r := FindRow(s.table, id).value;
      var i :| 0 <= i < |s.table| && s.table[i] == r;
      assert RowSized(cfg.maxInline, s.table[i]);
    }
  }

  // --- How many rows stay ---

  /** A Finalize adds one row and leaves no more than the cap, and drops none before the cap is reached. */
  lemma RowsAfterFinalize(cfg: Config, s: State, id: string, fn: Edit, now: int)
    requires Inv(s) && id in s.mem
    ensures |Finalize(cfg, s, id, fn, now).table| == Min(cfg.maxEntries, |s.table| + 1)
  {
    var k, r := MovedTable(s, id, fn, now);
  }

  // --- In terms of what the caller asked for ---

  /** What a limit comes to when the caller leaves it open. */
  function Or(limit: int, default: nat): nat { if limit > 0 then limit else default }

  /** A store opened on any rows and files: after every run, a body captured since is in a file exactly if it is longer
      than the inline limit asked for, or than 1 MiB, and a Finalize leaves as many rows as the cap asked for, or
      1000, allows. */
  lemma LimitsAsGiven(maxInlineBodySize: int, maxEntries: int, table: seq<Row>, files: Disk, ops: seq<Op>,
                      id: string, side: Side, fn: Edit, now: int)
    requires Inv(Reopen(table, files))
    requires EnabledRun(Effective(maxInlineBodySize, maxEntries), Reopen(table, files), ops)
    ensures var cfg := Effective(maxInlineBodySize, maxEntries);
            var s := Run(cfg, Reopen(table, files), ops);
            && (Get(s, id).Ok? && id !in RowIds(table) ==>
                  var b := Get(s, id).value.BodyOf(side);
                  b.spilled <==> b.size > Or(maxInlineBodySize, 1048576))
            && (id in s.mem ==> |Finalize(cfg, s, id, fn, now).table| == Min(Or(maxEntries, 1000), |s.table| + 1))
  {
    var cfg, s0 := Effective(maxInlineBodySize, maxEntries), Reopen(table, files);
    var found := Elements(RowIds(table));
    assert forall i :: 0 <= i < |table| ==> RowIds(table)[i] in found;
    RunSized(cfg, s0, ops, found);
    var s := Run(cfg, s0, ops);
    if Get(s, id).Ok? && id !in RowIds(table) {
      GetSized(cfg, s, found, id, side);
    }
    if id in s.mem {
      RowsAfterFinalize(cfg, s, id, fn, now);
    }
  }
}
