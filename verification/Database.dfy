/** The `requests` table: rows in index order, with the statements the store issues. */
module Database {
  import opened Types
  import opened RowCodec

  function RowIds(t: seq<Row>): (ids: seq<string>)
    ensures |ids| == |t|
    ensures forall i :: 0 <= i < |t| ==> ids[i] == t[i].id
  {
    seq(|t|, i requires 0 <= i < |t| => t[i].id)
  }

  function Starts(t: seq<Row>): (starts: seq<int>)
    ensures |starts| == |t|
    ensures forall i :: 0 <= i < |t| ==> starts[i] == t[i].startedAt
  {
    seq(|t|, i requires 0 <= i < |t| => t[i].startedAt)
  }

  predicate Descending(starts: seq<int>) {
    forall i, j :: 0 <= i < j < |starts| ==> starts[i] >= starts[j]
  }

  /** Where the index puts a new row: after every row at least as recent. */
  function InsertPos(starts: seq<int>, x: int): (k: nat)
    ensures k <= |starts|
    ensures forall i :: 0 <= i < k ==> starts[i] >= x
    ensures k < |starts| ==> starts[k] < x
  {
    if starts == [] || starts[0] < x then 0 else 1 + InsertPos(starts[1..], x)
  }

  function InsertAt<T>(s: seq<T>, k: nat, x: T): (r: seq<T>)
    requires k <= |s|
    ensures |r| == |s| + 1 && r[k] == x
    ensures forall i :: 0 <= i < k ==> r[i] == s[i]
    ensures forall i :: k < i <= |s| ==> r[i] == s[i - 1]
  {
    s[..k] + [x] + s[k..]
  }

  /** DELETE FROM requests WHERE id = ? */
  function DeleteRow(t: seq<Row>, id: string): seq<Row> {
    if t == [] then []
    else if t[0].id == id then DeleteRow(t[1..], id)
    else [t[0]] + DeleteRow(t[1..], id)
  }

  /** INSERT OR REPLACE INTO requests */
  function InsertRow(t: seq<Row>, r: Row): seq<Row> {
    var u := DeleteRow(t, r.id);
    InsertAt(u, InsertPos(Starts(u), r.startedAt), r)
  }

  /** SELECT ... WHERE id = ? */
  function FindRow(t: seq<Row>, id: string): (r: Option<Row>)
    ensures r.Some? ==> r.value in t && r.value.id == id
    ensures r.None? ==> forall i :: 0 <= i < |t| ==> t[i].id != id
  {
    if t == [] then None
    else if t[0].id == id then Some(t[0])
    else FindRow(t[1..], id)
  }

  /** SELECT id ... ORDER BY started_at DESC LIMIT -1 OFFSET maxEntries */
  function Overflow(t: seq<Row>, maxEntries: nat): seq<string> {
    if maxEntries <= |t| then RowIds(t[maxEntries..]) else []
  }

  function Kept(t: seq<Row>, maxEntries: nat): seq<Row> {
    if maxEntries <= |t| then t[..maxEntries] else t
  }

  /** A cursor is compared in whole milliseconds. */
  predicate RowBeforeCursor(ms: int, before: int) { before == ZERO_TIME || ms < UnixMilli(before) }

  /** SELECT ... WHERE started_at < ? ORDER BY started_at DESC, without the LIMIT. */
  function RowsBefore(t: seq<Row>, before: int): seq<Entry> {
    if t == [] then []
    else if RowBeforeCursor(t[0].startedAt, before) then [Decode(t[0])] + RowsBefore(t[1..], before)
    else RowsBefore(t[1..], before)
  }

  function Take<T>(s: seq<T>, k: nat): seq<T> {
    if k <= |s| then s[..k] else s
  }

  lemma TakeCons<T>(x: T, s: seq<T>, k: nat)
    requires k > 0
    ensures Take([x] + s, k) == [x] + Take(s, k - 1)
  {
  }

  lemma AppendAssoc<T>(a: seq<T>, x: T, b: seq<T>)
    ensures (a + [x]) + b == a + ([x] + b)
  {
  }

  lemma NextSelected(t: seq<Row>, i: nat, before: int, limit: nat)
    requires i < |t| && limit > 0
    ensures Take(RowsBefore(t[i..], before), limit) ==
            if RowBeforeCursor(t[i].startedAt, before) then [Decode(t[i])] + Take(RowsBefore(t[i + 1..], before), limit - 1)
            else Take(RowsBefore(t[i + 1..], before), limit)
  {
    assert t[i..][1..] == t[i + 1..];
    TakeCons(Decode(t[i]), RowsBefore(t[i + 1..], before), limit);
  }

  lemma {:induction false} DeleteMissing(t: seq<Row>, id: string)
    requires forall i :: 0 <= i < |t| ==> t[i].id != id
    ensures DeleteRow(t, id) == t
  {
    if t != [] {
      DeleteMissing(t[1..], id);
    }
  }

  lemma {:induction false} FindUnique(t: seq<Row>, i: nat)
    requires NoDup(RowIds(t)) && i < |t|
    ensures FindRow(t, t[i].id) == Some(t[i])
  {
    var r := FindRow(t, t[i].id);
    if r.None? {
      assert false;
    } else {
      var j :| 0 <= j < |t| && t[j] == r.value;
      assert RowIds(t)[i] == RowIds(t)[j];
    }
  }

  lemma FindKept(t: seq<Row>, k: nat, x: string)
    requires NoDup(RowIds(t)) && k <= |t|
    ensures FindRow(t[..k], x).Some? ==> FindRow(t, x) == FindRow(t[..k], x)
  {
    var f := FindRow(t[..k], x);
    if f.Some? {
      var i :| 0 <= i < k && t[..k][i] == f.value;
      FindUnique(t, i);
    }
  }

  lemma InsertDescending(starts: seq<int>, x: int)
    requires Descending(starts)
    ensures Descending(InsertAt(starts, InsertPos(starts, x), x))
  {
    var k := InsertPos(starts, x);
    assert forall i :: k <= i < |starts| ==> starts[i] < x;
  }

  lemma InsertNoDup<T>(s: seq<T>, k: nat, x: T)
    requires NoDup(s) && x !in s && k <= |s|
    ensures NoDup(InsertAt(s, k, x))
    ensures Elements(InsertAt(s, k, x)) == Elements(s) + {x}
  {
    var r := InsertAt(s, k, x);
    forall y | y in s
      ensures y in r
    {
      var i :| 0 <= i < |s| && s[i] == y;
      assert r[if i < k then i else i + 1] == y;
    }
  }

  lemma InsertColumns(t: seq<Row>, k: nat, r: Row)
    requires k <= |t|
    ensures Starts(InsertAt(t, k, r)) == InsertAt(Starts(t), k, r.startedAt)
    ensures RowIds(InsertAt(t, k, r)) == InsertAt(RowIds(t), k, r.id)
  {
  }

  /** Inserting at its position keeps the table newest first and keyed by id. */
  lemma InsertKeepsOrder(t: seq<Row>, r: Row)
    requires NoDup(RowIds(t)) && Descending(Starts(t)) && r.id !in RowIds(t)
    ensures InsertRow(t, r) == InsertAt(t, InsertPos(Starts(t), r.startedAt), r)
    ensures NoDup(RowIds(InsertRow(t, r))) && Descending(Starts(InsertRow(t, r)))
    ensures Elements(RowIds(InsertRow(t, r))) == Elements(RowIds(t)) + {r.id}
  {
    assert forall i :: 0 <= i < |t| ==> t[i].id == RowIds(t)[i];
    DeleteMissing(t, r.id);
    var k := InsertPos(Starts(t), r.startedAt);
    InsertColumns(t, k, r);
    InsertDescending(Starts(t), r.startedAt);
    InsertNoDup(RowIds(t), k, r.id);
  }

  lemma {:induction false} DeleteAt(t: seq<Row>, j: nat)
    requires NoDup(RowIds(t)) && j < |t|
    ensures DeleteRow(t, t[j].id) == t[..j] + t[j + 1..]
  {
    assert RowIds(t)[j] == t[j].id;
    if j == 0 {
      assert forall i :: 0 <= i < |t| - 1 ==> t[1..][i].id == RowIds(t)[i + 1];
      DeleteMissing(t[1..], t[0].id);
    } else {
      assert RowIds(t[1..]) == RowIds(t)[1..];
      assert RowIds(t)[0] == t[0].id;
      DeleteAt(t[1..], j - 1);
      assert t[..j] == [t[0]] + t[1..][..j - 1];
    }
  }

  lemma NoDupCons<T>(x: T, s: seq<T>)
    ensures NoDup([x] + s) <==> x !in s && NoDup(s)
  {
    var r := [x] + s;
    assert forall i :: 0 <= i < |s| ==> s[i] == r[i + 1];
    if NoDup(r) {
      forall i | 0 <= i < |s|
        ensures s[i] != x
      {
        assert r[i + 1] != r[0];
      }
    }
  }

  lemma {:induction false} DistinctCount<T>(s: seq<T>)
    requires NoDup(s)
    ensures |Elements(s)| == |s|
  {
    if s != [] {
      assert s == [s[0]] + s[1..];
      NoDupCons(s[0], s[1..]);
      DistinctCount(s[1..]);
      assert Elements(s) == {s[0]} + Elements(s[1..]);
    }
  }

  lemma IdsCons(r: Row, t: seq<Row>)
    ensures RowIds([r] + t) == [r.id] + RowIds(t)
  {
  }

  lemma {:induction false} DeleteKeepsKeyed(t: seq<Row>, id: string)
    requires NoDup(RowIds(t))
    ensures NoDup(RowIds(DeleteRow(t, id)))
    ensures id !in RowIds(DeleteRow(t, id))
    ensures forall x :: x in RowIds(DeleteRow(t, id)) ==> x in RowIds(t)
  {
    if t != [] {
      assert t == [t[0]] + t[1..];
      IdsCons(t[0], t[1..]);
      NoDupCons(t[0].id, RowIds(t[1..]));
      DeleteKeepsKeyed(t[1..], id);
      IdsCons(t[0], DeleteRow(t[1..], id));
      NoDupCons(t[0].id, RowIds(DeleteRow(t[1..], id)));
    }
  }

  lemma InsertKeepsKeyed(t: seq<Row>, r: Row)
    requires NoDup(RowIds(t))
    ensures NoDup(RowIds(InsertRow(t, r)))
  {
    DeleteKeepsKeyed(t, r.id);
    var u := DeleteRow(t, r.id);
    var k := InsertPos(Starts(u), r.startedAt);
    InsertColumns(u, k, r);
    InsertNoDup(RowIds(u), k, r.id);
  }

  lemma InsertIntoEmpty(r: Row)
    ensures InsertRow([], r) == [r]
  {
  }

  /** Deleting the first of the remaining victims leaves the kept rows and the other victims. */
  lemma DeleteNext(t: seq<Row>, k: nat, i: nat)
    requires NoDup(RowIds(t)) && k + i < |t|
    ensures DeleteRow(t[..k] + t[k + i..], t[k + i].id) == t[..k] + t[k + i + 1..]
  {
    var u := t[..k] + t[k + i..];
    assert forall j :: 0 <= j < |u| ==> RowIds(u)[j] == RowIds(t)[if j < k then j else j + i];
    assert u[k] == t[k + i];
    DeleteAt(u, k);
    assert u[..k] == t[..k] && u[k + 1..] == t[k + i + 1..];
  }

  lemma DropNext(t: seq<Row>, rows: seq<Row>, k: nat, i: nat)
    requires NoDup(RowIds(t)) && k + i < |t| && rows == t[..k] + t[k + i..] && NoDup(RowIds(rows))
    ensures var left := DeleteRow(rows, t[k + i].id);
            left == t[..k] + t[k + i + 1..] && NoDup(RowIds(left))
  {
    DeleteNext(t, k, i);
    DeleteKeepsKeyed(rows, t[k + i].id);
  }

  class SqlDB {
    var rows: seq<Row>

    /** `id` is the primary key. */
    ghost predicate Valid()
      reads this
    {
      NoDup(RowIds(rows))
    }

    constructor (rows: seq<Row>)
      requires NoDup(RowIds(rows))
      ensures Valid() && this.rows == rows
    {
      this.rows := rows;
    }

    method Insert(e: Entry)
      requires Valid()
      modifies this
      ensures Valid() && rows == InsertRow(old(rows), Encode(e))
    {
      InsertKeepsKeyed(rows, Encode(e));
      rows := InsertRow(rows, Encode(e));
    }

    method Get(id: string) returns (r: Option<Entry>)
      ensures r == match FindRow(rows, id) case Some(row) => Some(Decode(row)) case None => None
    {
      match FindRow(rows, id)
      case Some(row) => r := Some(Decode(row));
      case None => r := None;
    }

    /** The `limit` newest rows before the cursor, decoded. */
    method List(limit: nat, before: int) returns (out: seq<Entry>)
      ensures out == Take(RowsBefore(rows, before), limit)
    {
      out := [];
      ghost var goal := Take(RowsBefore(rows, before), limit);
      for i := 0 to |rows|
        invariant |out| <= limit
        invariant out + Take(RowsBefore(rows[i..], before), limit - |out|) == goal
      {
        if |out| == limit {
          return;
        }
        NextSelected(rows, i, before, limit - |out|);
        if before == ZERO_TIME || rows[i].startedAt < UnixMilli(before) {
          var e := Decode(rows[i]);
          AppendAssoc(out, e, Take(RowsBefore(rows[i + 1..], before), limit - |out| - 1));
          out := out + [e];
        }
      }
    }

    method OverflowIds(maxEntries: nat) returns (victims: seq<string>)
      ensures victims == Overflow(rows, maxEntries)
    {
      victims := [];
      if maxEntries <= |rows| {
        for i := maxEntries to |rows|
          invariant victims == RowIds(rows[maxEntries..i])
        {
          victims := victims + [rows[i].id];
        }
        assert rows[maxEntries..|rows|] == rows[maxEntries..];
      }
    }

    /** One DELETE for each id past the cap; the same ids are the result. */
    method ApplyRetention(maxEntries: nat) returns (victims: seq<string>)
      requires Valid()
      modifies this
      ensures Valid() && victims == Overflow(old(rows), maxEntries) && rows == Kept(old(rows), maxEntries)
    {
      var t := rows;
      victims := OverflowIds(maxEntries);
      for i := 0 to |victims|
        invariant Valid()
        invariant i < |victims| ==> maxEntries + i < |t| && victims[i] == t[maxEntries + i].id
        invariant rows == if maxEntries <= |t| then t[..maxEntries] + t[maxEntries + i..] else t
      {
        DropNext(t, rows, maxEntries, i);
        rows := DeleteRow(rows, victims[i]);
      }
    }

    method Clear() returns (ids: seq<string>)
      modifies this
      ensures Valid() && rows == [] && Enumerates(ids, Elements(RowIds(old(rows))))
    {
      ids := Iterate(Elements(RowIds(rows)));
      rows := [];
    }
  }
}
