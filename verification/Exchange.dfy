/** A whole exchange, its Close included: what the reads and the Close of one reader leave in the store. */
module Exchanges {
  import opened Types
  import opened RowCodec
  import opened Memory
  import opened StoreSpec
  import opened Archives
  import opened Capture
  import opened EndToEnd
  import opened CaptureReaders

  // --- When the bytes came ---

  /** The time of the first read that yielded anything, and of the last one; the zero time if none did. */
  function FirstAt(parts: seq<(Bytes, int)>): int {
    if parts == [] then ZERO_TIME
    else if parts[0].0 != [] && parts[0].1 != ZERO_TIME then parts[0].1
    else FirstAt(parts[1..])
  }

  function LastAt(parts: seq<(Bytes, int)>): int {
    if parts == [] then ZERO_TIME
    else if parts[|parts| - 1].0 != [] then parts[|parts| - 1].1
    else LastAt(parts[..|parts| - 1])
  }

  lemma ReadAllLast(lib: Text, r: Reader, parts: seq<(Bytes, int)>, chunk: Bytes, now: int)
    ensures var (r1, ops1) := ReadAll(lib, r, parts);
            ReadAll(lib, r, parts + [(chunk, now)]) == (Reading(lib, r1, chunk, now).0, ops1 + Reading(lib, r1, chunk, now).1)
    decreases |parts|
  {
    var all := parts + [(chunk, now)];
    if parts == [] {
      var (r2, ops2) := Reading(lib, r, chunk, now);
      assert all[1..] == [] && ReadAll(lib, r2, []) == (r2, []);
      assert ops2 + [] == ops2 == [] + ops2;
    } else {
      var (r0, ops0) := Reading(lib, r, parts[0].0, parts[0].1);
      assert all[0] == parts[0] && all[1..] == parts[1..] + [(chunk, now)];
      ReadAllLast(lib, r0, parts[1..], chunk, now);
      var (r1, ops1) := ReadAll(lib, r0, parts[1..]);
      Assoc(ops0, ops1, Reading(lib, r1, chunk, now).1);
    }
  }

  lemma {:induction false} FirstAtKept(lib: Text, r: Reader, parts: seq<(Bytes, int)>)
    ensures ReadAll(lib, r, parts).0.firstAt == if r.firstAt == ZERO_TIME then FirstAt(parts) else r.firstAt
    decreases |parts|
  {
    if parts != [] {
      FirstAtKept(lib, Reading(lib, r, parts[0].0, parts[0].1).0, parts[1..]);
    }
  }

  lemma {:induction false} LastAtKept(lib: Text, r: Reader, parts: seq<(Bytes, int)>)
    requires r.lastAt == ZERO_TIME
    ensures ReadAll(lib, r, parts).0.lastAt == LastAt(parts)
    decreases |parts|
  {
    if parts != [] {
      var n := |parts| - 1;
      assert parts == parts[..n] + [(parts[n].0, parts[n].1)];
      ReadAllLast(lib, r, parts[..n], parts[n].0, parts[n].1);
      LastAtKept(lib, r, parts[..n]);
    }
  }

  // --- What the reader ends up as ---

  lemma {:induction false} StreamKept(lib: Text, r: Reader, parts: seq<(Bytes, int)>)
    requires r.sniffed || FirstChunk(parts) == []
    ensures ReadAll(lib, r, parts).0.stream == r.stream
    decreases |parts|
  {
    if parts != [] {
      StreamKept(lib, Reading(lib, r, parts[0].0, parts[0].1).0, parts[1..]);
    }
  }

  lemma {:induction false} StreamSniffed(lib: Text, r: Reader, parts: seq<(Bytes, int)>)
    requires !r.sniffed && !r.stream && FirstChunk(parts) != []
    ensures ReadAll(lib, r, parts).0.stream == IsStreaming(SniffFormat(lib, FirstChunk(parts)))
    decreases |parts|
  {
    var r1 := Reading(lib, r, parts[0].0, parts[0].1).0;
    if parts[0].0 == [] {
      StreamSniffed(lib, r1, parts[1..]);
    } else {
      assert r1.stream == IsStreaming(SniffFormat(lib, parts[0].0));
      StreamKept(lib, r1, parts[1..]);
    }
  }

  predicate Streams(f: Format) { f == Ndjson || f == Sse }

  lemma StreamIsFormat(lib: Text, id: string, format: Format, parts: seq<(Bytes, int)>)
    requires lib.Sane()
    ensures ReadAll(lib, NewReader(id, format), parts).0.stream == Streams(CaptureFormat(lib, format, parts))
  {
    if format == Raw && FirstChunk(parts) != [] {
      StreamSniffed(lib, NewReader(id, format), parts);
    } else {
      StreamKept(lib, NewReader(id, format), parts);
    }
  }

  /** The duration of the stream: from the first byte to the last, for a streamed format and if there were any. */
  function StreamTime(lib: Text, format: Format, parts: seq<(Bytes, int)>): Option<int> {
    if Streams(CaptureFormat(lib, format, parts)) && FirstAt(parts) != ZERO_TIME
    then Some(DurationMs(SubTime(LastAt(parts), FirstAt(parts)))) else None
  }

  lemma StreamTimeIsKept(lib: Text, id: string, format: Format, parts: seq<(Bytes, int)>)
    requires lib.Sane()
    ensures StreamMs(ReadAll(lib, NewReader(id, format), parts).0) == StreamTime(lib, format, parts)
  {
    StreamIsFormat(lib, id, format, parts);
    FirstAtKept(lib, NewReader(id, format), parts);
    LastAtKept(lib, NewReader(id, format), parts);
  }

  lemma StreamTimeInMs(lib: Text, format: Format, parts: seq<(Bytes, int)>)
    requires StreamTime(lib, format, parts).Some? && 0 <= LastAt(parts) - FirstAt(parts) <= MAX_DURATION
    ensures var ms := StreamTime(lib, format, parts).value;
            ms * NS_PER_MS <= LastAt(parts) - FirstAt(parts) < (ms + 1) * NS_PER_MS
  {
  }

  // --- The operations of a reader, its Close included ---

  /** Everything one reader does to the store. */
  function ExchangeOps(lib: Text, id: string, format: Format, parts: seq<(Bytes, int)>, end: int): seq<Op> {
    var (r, ops) := ReadAll(lib, NewReader(id, format), parts);
    ops + CloseOps(r, end)
  }

  /** The capture comes first, with its last partial line, and then the end of the exchange. */
  lemma ExchangeIsCapture(lib: Text, id: string, format: Format, parts: seq<(Bytes, int)>, end: int)
    requires lib.Sane()
    ensures ExchangeOps(lib, id, format, parts, end) ==
            CaptureOps(lib, id, format, parts, end) + [OpFinalize(id, StreamEdit(StreamTime(lib, format, parts)), end)]
  {
    var (r, ops) := ReadAll(lib, NewReader(id, format), parts);
    ReadAllConserves(lib, NewReader(id, format), parts);
    StreamTimeIsKept(lib, id, format, parts);
    Assoc(ops, FlushOps(r, end), [OpFinalize(id, StreamEdit(StreamTime(lib, format, parts)), end)]);
  }

  // --- Finding them in a run ---

  predicate IsEnd(op: Op, id: string) {
    (op.OpAppendResponse? && op.id == id) || (op.OpFinalize? && op.id == id)
  }

  /** The operations of a run that append to the response of one entry or finalize it. */
  function EndsOf(ops: seq<Op>, id: string): seq<Op> {
    if ops == [] then []
    else (if IsEnd(ops[0], id) then [ops[0]] else []) + EndsOf(ops[1..], id)
  }

  lemma {:induction false} EndsOfAppend(a: seq<Op>, b: seq<Op>, id: string)
    ensures EndsOf(a + b, id) == EndsOf(a, id) + EndsOf(b, id)
  {
    if a == [] {
      assert a + b == b;
    } else {
      assert (a + b)[0] == a[0] && (a + b)[1..] == a[1..] + b;
      EndsOfAppend(a[1..], b, id);
    }
  }

  lemma EndsOfOne(op: Op, id: string)
    ensures EndsOf([op], id) == if IsEnd(op, id) then [op] else []
  {
    assert [op][1..] == [];
  }

  /** They tell what is appended, and what is published of it. */
  lemma {:induction false} EndsTell(ops: seq<Op>, id: string)
    ensures AppendsOf(EndsOf(ops, id), id) == AppendsOf(ops, id)
    ensures DeltasOf(EndsOf(ops, id), id) == DeltasOf(ops, id)
  {
    if ops != [] {
      EndsTell(ops[1..], id);
      var rest := EndsOf(ops[1..], id);
      EndsOfOne(ops[0], id);
      if IsEnd(ops[0], id) {
        AppendsOfAppend([ops[0]], rest, id);
        DeltasOfAppend([ops[0]], rest, id);
        assert [ops[0]][1..] == [];
      } else {
        assert EndsOf(ops, id) == rest;
      }
    }
  }

  /** Where the last of them is. */
  lemma {:induction false} LastEnd(ops: seq<Op>, id: string, before: seq<Op>, last: Op) returns (k: nat)
    requires EndsOf(ops, id) == before + [last]
    ensures k < |ops| && ops[k] == last && EndsOf(ops[..k], id) == before && EndsOf(ops[k + 1..], id) == []
    decreases |ops|
  {
    var rest := ops[1..];
    if IsEnd(ops[0], id) && before == [] {
      k := 0;
      assert EndsOf(ops, id)[0] == ops[0] && (before + [last])[0] == last;
      assert EndsOf(rest, id) == (before + [last])[1..];
    } else {
      var now := if IsEnd(ops[0], id) then [ops[0]] else [];
      var later := before[|now|..];
      assert before + [last] == now + EndsOf(rest, id);
      assert EndsOf(rest, id) == (before + [last])[|now|..] == later + [last];
      var j := LastEnd(rest, id, later, last);
      k := j + 1;
      assert ops[k + 1..] == rest[j + 1..];
      EndsUpTo(ops, id, j);
      assert before == now + later;
    }
  }

  lemma EndsUpTo(ops: seq<Op>, id: string, j: nat)
    requires j < |ops|
    ensures EndsOf(ops[..j + 1], id) == (if IsEnd(ops[0], id) then [ops[0]] else []) + EndsOf(ops[1..][..j], id)
  {
    assert ops[..j + 1] == [ops[0]] + ops[1..][..j];
    EndsOfAppend([ops[0]], ops[1..][..j], id);
    EndsOfOne(ops[0], id);
  }

  predicate NoFinalize(ops: seq<Op>, id: string) {
    forall i :: 0 <= i < |ops| ==> !(ops[i].OpFinalize? && ops[i].id == id)
  }

  lemma FinalizeCons(op: Op, ops: seq<Op>, id: string)
    ensures NoFinalize([op] + ops, id) <==> !(op.OpFinalize? && op.id == id) && NoFinalize(ops, id)
  {
    var all := [op] + ops;
    assert all[0] == op && forall i :: 0 <= i < |ops| ==> all[i + 1] == ops[i];
  }

  lemma {:induction false} EndsFinalize(ops: seq<Op>, id: string)
    ensures NoFinalize(EndsOf(ops, id), id) <==> NoFinalize(ops, id)
  {
    if ops != [] {
      EndsFinalize(ops[1..], id);
      assert ops == [ops[0]] + ops[1..];
      FinalizeCons(ops[0], ops[1..], id);
      FinalizeCons(ops[0], EndsOf(ops[1..], id), id);
      assert !IsEnd(ops[0], id) ==> EndsOf(ops, id) == EndsOf(ops[1..], id);
    }
  }

  lemma {:induction false} AppendOpsFinalizeNone(id: string, pieces: seq<Bytes>, emit: bool, now: int)
    ensures NoFinalize(AppendOps(id, pieces, emit, now), id)
  {
    if pieces != [] {
      AppendOpsFinalizeNone(id, pieces[1..], emit, now);
    }
  }

  lemma {:induction false} ReadsFinalizeNone(lib: Text, r: Reader, parts: seq<(Bytes, int)>)
    ensures NoFinalize(ReadAll(lib, r, parts).1, r.id)
    decreases |parts|
  {
    if parts != [] {
      var chunk, now := parts[0].0, parts[0].1;
      var (r1, ops1) := Reading(lib, r, chunk, now);
      ReadFinalizesNone(lib, r, chunk, now);
      ReadsFinalizeNone(lib, r1, parts[1..]);
    }
  }

  lemma ReadFinalizesNone(lib: Text, r: Reader, chunk: Bytes, now: int)
    ensures NoFinalize(Reading(lib, r, chunk, now).1, r.id) && Reading(lib, r, chunk, now).0.id == r.id
  {
    if chunk != [] {
      var r0 := r.(firstAt := if r.firstAt == ZERO_TIME then now else r.firstAt, lastAt := now);
      var r1 := Sniffed(lib, r0, chunk, now).0;
      AppendOpsFinalizeNone(r.id, Cut(r1.pending + chunk).0, true, now);
    }
  }

  // --- While it is going on ---

  predicate NotSwept(ops: seq<Op>, id: string) {
    forall i :: 0 <= i < |ops| && ops[i].OpSweep? ==> id !in ops[i].order
  }

  /** An entry stays in flight until it is finalized or swept. */
  lemma {:induction false} StaysPending(cfg: Config, s: State, ops: seq<Op>, id: string)
    requires id in s.mem && NoFinalize(ops, id) && NotSwept(ops, id)
    ensures id in Run(cfg, s, ops).mem
    decreases |ops|
  {
    if ops != [] {
      var op := ops[0];
      if op.OpSweep? {
        SweepEmptiesMemory(cfg, s, op.order, TimeoutEdit(op.message), op.now);
      }
      assert id in Step(cfg, s, op).mem;
      StaysPending(cfg, Step(cfg, s, op), ops[1..], id);
    }
  }

  lemma {:induction false} GoodParts(cfg: Config, s: State, a: seq<Op>, b: seq<Op>)
    ensures GoodRun(cfg, s, a + b) <==> GoodRun(cfg, s, a) && GoodRun(cfg, Run(cfg, s, a), b)
    decreases |a|
  {
    if a == [] {
      assert a + b == b;
    } else {
      assert (a + b)[0] == a[0] && (a + b)[1..] == a[1..] + b;
      GoodParts(cfg, Step(cfg, s, a[0]), a[1..], b);
    }
  }

  /** A run in which one reader reads and is closed, anything else interleaved: of what appends to the entry's response or
      finalizes it, everything is the reader's doing. */
  ghost predicate Carries(traffic: seq<Op>, lib: Text, id: string, format: Format, parts: seq<(Bytes, int)>, end: int) {
    NoPut(traffic, id) && EndsOf(traffic, id) == EndsOf(ExchangeOps(lib, id, format, parts, end), id)
  }

  function EndOp(lib: Text, id: string, format: Format, parts: seq<(Bytes, int)>, end: int): Op {
    OpFinalize(id, StreamEdit(StreamTime(lib, format, parts)), end)
  }

  lemma FindEnd(traffic: seq<Op>, lib: Text, id: string, format: Format, parts: seq<(Bytes, int)>, end: int) returns (k: nat)
    requires lib.Sane() && Carries(traffic, lib, id, format, parts, end)
    ensures k < |traffic| && traffic[k] == EndOp(lib, id, format, parts, end)
    ensures EndsOf(traffic[..k], id) == EndsOf(CaptureOps(lib, id, format, parts, end), id)
    ensures EndsOf(traffic[k + 1..], id) == []
  {
    var capture, fin := CaptureOps(lib, id, format, parts, end), EndOp(lib, id, format, parts, end);
    ExchangeIsCapture(lib, id, format, parts, end);
    EndsOfAppend(capture, [fin], id);
    EndsOfOne(fin, id);
    k := LastEnd(traffic, id, EndsOf(capture, id), fin);
  }

  /** Runs that treat the response alike. */
  lemma SameEnds(a: seq<Op>, b: seq<Op>, id: string)
    requires EndsOf(a, id) == EndsOf(b, id)
    ensures AppendsOf(a, id) == AppendsOf(b, id) && DeltasOf(a, id) == DeltasOf(b, id)
    ensures NoFinalize(a, id) <==> NoFinalize(b, id)
  {
    EndsTell(a, id);
    EndsTell(b, id);
    EndsFinalize(a, id);
    EndsFinalize(b, id);
  }

  lemma PutParts(ops: seq<Op>, k: nat, id: string)
    requires NoPut(ops, id) && k < |ops|
    ensures NoPut(ops[..k], id) && NoPut(ops[k + 1..], id)
  {
  }

  /** The exchange ends at k, and not before. */
  ghost predicate EndsAt(traffic: seq<Op>, id: string, k: nat) {
    && k < |traffic| && traffic[k].OpFinalize? && traffic[k].id == id
    && NoPut(traffic[..k], id) && NoPut(traffic[k + 1..], id) && NoFinalize(traffic[..k], id)
  }

  /** Such a run, cut at the end of the exchange. */
  lemma CutAtEnd(traffic: seq<Op>, lib: Text, id: string, format: Format, parts: seq<(Bytes, int)>, end: int) returns (k: nat)
    requires lib.Sane() && Carries(traffic, lib, id, format, parts, end)
    ensures EndsAt(traffic, id, k) && traffic[k] == EndOp(lib, id, format, parts, end)
    ensures AppendsOf(traffic[..k], id) == AppendsOf(CaptureOps(lib, id, format, parts, end), id)
    ensures DeltasOf(traffic[..k], id) == DeltasOf(CaptureOps(lib, id, format, parts, end), id)
  {
    k := FindEnd(traffic, lib, id, format, parts, end);
    SameEnds(traffic[..k], CaptureOps(lib, id, format, parts, end), id);
    CaptureFinalizesNone(lib, id, format, parts, end);
    PutParts(traffic, k, id);
  }

  lemma CaptureFinalizesNone(lib: Text, id: string, format: Format, parts: seq<(Bytes, int)>, end: int)
    ensures NoFinalize(CaptureOps(lib, id, format, parts, end), id)
  {
    ReadsFinalizeNone(lib, NewReader(id, format), parts);
    ReadAllConserves(lib, NewReader(id, format), parts);
  }

  lemma CutRun(cfg: Config, s: State, traffic: seq<Op>, id: string, k: nat)
    requires EndsAt(traffic, id, k)
    ensures var ended := Finalize(cfg, Run(cfg, s, traffic[..k]), id, traffic[k].fn, traffic[k].now);
            && Run(cfg, s, traffic) == Run(cfg, ended, traffic[k + 1..])
            && (GoodRun(cfg, s, traffic) ==> GoodRun(cfg, s, traffic[..k]) && GoodRun(cfg, ended, traffic[k + 1..]))
  {
    var a, b := traffic[..k], [traffic[k]] + traffic[k + 1..];
    assert traffic == a + b;
    RunAppend(cfg, s, a, b);
    GoodParts(cfg, s, a, b);
    assert b[0] == traffic[k] && b[1..] == traffic[k + 1..];
    StepFinalizes(cfg, Run(cfg, s, a), traffic[k]);
  }

  lemma StepFinalizes(cfg: Config, s: State, op: Op)
    requires op.OpFinalize?
    ensures Step(cfg, s, op) == Finalize(cfg, s, op.id, op.fn, op.now)
  {
  }

  // --- What is left ---

  /** Whatever the chunking, the format and the other traffic: after the reads and the Close the entry is not in flight any
      more, and Body serves exactly the upstream bytes for as long as the entry is kept, or the first of them if it was
      swept on the way. */
  lemma ExchangeIsServed(cfg: Config, s: State, a: Archive, traffic: seq<Op>, lib: Text, id: string, format: Format,
                         parts: seq<(Bytes, int)>, end: int)
    requires Inv(s) && Represents(cfg, s, a) && IsPending(a, id) && a.records[id].resp == [] && lib.Sane()
    requires Carries(traffic, lib, id, format, parts, end) && GoodRun(cfg, s, traffic)
    ensures var s2 := Run(cfg, s, traffic);
            && id !in s2.mem
            && (Get(s2, id).Ok? ==>
                  exists w :: Served(cfg, s2, id, w) && w <= BytesOf(parts) && (NotSwept(traffic, id) ==> w == BytesOf(parts)))
  {
    var k := CutAtEnd(traffic, lib, id, format, parts, end);
    CutIsServed(cfg, s, a, traffic, id, k);
    CaptureConserves(lib, id, format, parts, end);
  }

  lemma CutIsServed(cfg: Config, s: State, a: Archive, traffic: seq<Op>, id: string, k: nat)
    requires Inv(s) && Represents(cfg, s, a) && IsPending(a, id) && a.records[id].resp == [] && GoodRun(cfg, s, traffic)
    requires EndsAt(traffic, id, k)
    ensures var s2, all := Run(cfg, s, traffic), Concat(AppendsOf(traffic[..k], id));
            && id !in s2.mem
            && (Get(s2, id).Ok? ==> exists w :: Served(cfg, s2, id, w) && w <= all && (NotSwept(traffic, id) ==> w == all))
  {
    var during, after, fin := traffic[..k], traffic[k + 1..], traffic[k];
    var s1, s2 := Run(cfg, s, during), Run(cfg, s, traffic);
    CutRun(cfg, s, traffic, id, k);
    KnownIds(cfg, s, a, id);
    StillPending(cfg, s, traffic, id, k, s1);
    ServedFrom(cfg, s, a, id, during, fin.fn, fin.now, after, s1, s2);
  }

  lemma StillPending(cfg: Config, s: State, traffic: seq<Op>, id: string, k: nat, s1: State)
    requires id in s.mem && k < |traffic| && NoFinalize(traffic[..k], id) && s1 == Run(cfg, s, traffic[..k])
    ensures NotSwept(traffic, id) ==> id in s1.mem
  {
    if NotSwept(traffic, id) {
      StaysPending(cfg, s, traffic[..k], id);
    }
  }

  lemma ServedFrom(cfg: Config, s: State, a: Archive, id: string, during: seq<Op>, fn: Edit, t: int, after: seq<Op>,
                   s1: State, s2: State)
    requires Inv(s) && Represents(cfg, s, a) && id in a.records && a.records[id].resp == []
    requires NoPut(during, id) && NoPut(after, id) && GoodRun(cfg, s, during) && s1 == Run(cfg, s, during)
    requires GoodRun(cfg, Finalize(cfg, s1, id, fn, t), after) && s2 == Run(cfg, Finalize(cfg, s1, id, fn, t), after)
    ensures id !in s2.mem
    ensures var all := Concat(AppendsOf(during, id));
            Get(s2, id).Ok? ==> exists w :: Served(cfg, s2, id, w) && w <= all && (id in s1.mem ==> w == all)
  {
    EndedIsServed(cfg, s, a, id, during, fn, t, after);
    GoneFromMemory(cfg, Finalize(cfg, s1, id, fn, t), after, id);
  }

  lemma {:induction false} GoneFromMemory(cfg: Config, s: State, ops: seq<Op>, id: string)
    requires id !in s.mem && NoPut(ops, id)
    ensures id !in Run(cfg, s, ops).mem
    decreases |ops|
  {
    if ops != [] {
      assert ops == [ops[0]] + ops[1..];
      assert NoPut([ops[0]], id) && NoPut(ops[1..], id);
      StepDeltas(cfg, s, ops[0], id);
      GoneFromMemory(cfg, Step(cfg, s, ops[0]), ops[1..], id);
    }
  }

  /** And subscribers have been sent exactly the fragments of those bytes if the format streams, and nothing otherwise; or
      the first of them if the entry was swept on the way. */
  lemma ExchangeIsPublished(cfg: Config, s: State, traffic: seq<Op>, lib: Text, id: string, format: Format,
                            parts: seq<(Bytes, int)>, end: int)
    requires id in s.mem && lib.Sane() && Carries(traffic, lib, id, format, parts, end)
    ensures var was, published := DeltasIn(s.events, id), DeltasIn(Run(cfg, s, traffic).events, id);
            var fragments := if Streams(CaptureFormat(lib, format, parts)) then Fragments(BytesOf(parts)) else [];
            && was <= published <= was + fragments
            && (NotSwept(traffic, id) ==> published == was + fragments)
  {
    var k := CutAtEnd(traffic, lib, id, format, parts, end);
    CutIsPublished(cfg, s, traffic, id, k);
    DeltasAsFragments(lib, id, format, parts, end);
  }

  lemma CutIsPublished(cfg: Config, s: State, traffic: seq<Op>, id: string, k: nat)
    requires id in s.mem && EndsAt(traffic, id, k)
    ensures var was, published := DeltasIn(s.events, id), DeltasIn(Run(cfg, s, traffic).events, id);
            var asked := DeltasOf(traffic[..k], id);
            was <= published <= was + asked && (NotSwept(traffic, id) ==> published == was + asked)
  {
    CutRun(cfg, s, traffic, id, k);
    StillPending(cfg, s, traffic, id, k, Run(cfg, s, traffic[..k]));
    EndedIsPublished(cfg, s, id, traffic[..k], traffic[k].fn, traffic[k].now, traffic[k + 1..]);
  }

  lemma DeltasAsFragments(lib: Text, id: string, format: Format, parts: seq<(Bytes, int)>, end: int)
    requires lib.Sane()
    ensures DeltasOf(CaptureOps(lib, id, format, parts, end), id) ==
            if Streams(CaptureFormat(lib, format, parts)) then Fragments(BytesOf(parts)) else []
  {
    DeltasCanonical(lib, id, format, parts, end);
  }

  lemma EndedIsPublished(cfg: Config, s: State, id: string, during: seq<Op>, fn: Edit, t: int, after: seq<Op>)
    requires id in s.mem && NoPut(during, id) && NoPut(after, id)
    ensures var s1 := Run(cfg, s, during);
            var was, published := DeltasIn(s.events, id), DeltasIn(Run(cfg, Finalize(cfg, s1, id, fn, t), after).events, id);
            was <= published <= was + DeltasOf(during, id) && (id in s1.mem ==> published == was + DeltasOf(during, id))
  {
    var s1 := Run(cfg, s, during);
    RunDeltas(cfg, s, during, id);
    FinalizeIsNoDelta(cfg, s1, id, fn, t, id);
    RunDeltas(cfg, Finalize(cfg, s1, id, fn, t), after, id);
  }

  /** Its record says how long the stream took, from the first byte to the last. */
  lemma ExchangeIsTimed(cfg: Config, s: State, a: Archive, traffic: seq<Op>, lib: Text, id: string, format: Format,
                        parts: seq<(Bytes, int)>, end: int)
    requires Inv(s) && Represents(cfg, s, a) && IsPending(a, id) && lib.Sane()
    requires Carries(traffic, lib, id, format, parts, end) && GoodRun(cfg, s, traffic) && NotSwept(traffic, id)
    ensures var s2 := Run(cfg, s, traffic);
            Get(s2, id).Ok? ==> Get(s2, id).value.times.streamMs == StreamTime(lib, format, parts)
  {
    var k := CutAtEnd(traffic, lib, id, format, parts, end);
    CutIsTimed(cfg, s, a, traffic, id, k, StreamTime(lib, format, parts));
  }

  lemma CutIsTimed(cfg: Config, s: State, a: Archive, traffic: seq<Op>, id: string, k: nat, streamMs: Option<int>)
    requires Inv(s) && Represents(cfg, s, a) && IsPending(a, id) && GoodRun(cfg, s, traffic) && NotSwept(traffic, id)
    requires EndsAt(traffic, id, k) && traffic[k].fn == StreamEdit(streamMs)
    ensures Get(Run(cfg, s, traffic), id).Ok? ==> Get(Run(cfg, s, traffic), id).value.times.streamMs == streamMs
  {
    var s1, s2 := Run(cfg, s, traffic[..k]), Run(cfg, s, traffic);
    CutRun(cfg, s, traffic, id, k);
    KnownIds(cfg, s, a, id);
    StillPending(cfg, s, traffic, id, k, s1);
    TimedFrom(cfg, s, a, id, traffic[..k], streamMs, traffic[k].now, traffic[k + 1..], s1, s2);
  }

  lemma TimedFrom(cfg: Config, s: State, a: Archive, id: string, during: seq<Op>, streamMs: Option<int>, t: int, after: seq<Op>,
                  s1: State, s2: State)
    requires Inv(s) && Represents(cfg, s, a) && NoPut(after, id) && GoodRun(cfg, s, during)
    requires s1 == Run(cfg, s, during) && id in s1.mem
    requires GoodRun(cfg, Finalize(cfg, s1, id, StreamEdit(streamMs), t), after)
    requires s2 == Run(cfg, Finalize(cfg, s1, id, StreamEdit(streamMs), t), after)
    ensures Get(s2, id).Ok? ==> Get(s2, id).value.times.streamMs == streamMs
  {
    var fn := StreamEdit(streamMs);
    ExchangeSimulates(cfg, s, a, id, during, fn, t, after);
    var a1 := ArchiveRun(cfg, a, during);
    var b := ArchiveFinalize(cfg, a1, id, fn, t);
    FinalizeTimes(cfg, a1, id, fn, t);
    RunFixes(cfg, b, after, id);
    GetAgrees(cfg, s2, ArchiveRun(cfg, b, after), id);
  }

  lemma FinalizeTimes(cfg: Config, a: Archive, id: string, fn: Edit, now: int)
    requires IsPending(a, id)
    ensures var b := ArchiveFinalize(cfg, a, id, fn, now);
            id in b.records ==>
              && b.records[id].archived
              && b.records[id].entry.times.streamMs == fn(a.records[id].entry).times.streamMs
  {
    SettledIsComplete(a.records[id].entry, fn, now);
  }

  // --- What the reads find out ---

  lemma {:induction false} AppendsKeepEntry(cfg: Config, s: State, id: string, pieces: seq<Bytes>, emit: bool, now: int)
    requires Inv(s) && id in s.mem
    ensures var s' := Run(cfg, s, AppendOps(id, pieces, emit, now));
            Inv(s') && id in s'.mem && s'.mem[id].entry == s.mem[id].entry
    decreases |pieces|
  {
    if pieces != [] {
      var op, rest := OpAppendResponse(id, pieces[0], emit, now), AppendOps(id, pieces[1..], emit, now);
      assert ([op] + rest)[0] == op && ([op] + rest)[1..] == rest;
      StepKeepsInv(cfg, s, op);
      AppendsKeepEntry(cfg, Step(cfg, s, op), id, pieces[1..], emit, now);
    }
  }

  lemma StoredKeepsEntry(cfg: Config, s: State, r: Reader, chunk: Bytes, now: int)
    requires Inv(s) && r.id in s.mem
    ensures var s' := Run(cfg, s, Stored(r, chunk, now).1);
            Inv(s') && r.id in s'.mem && s'.mem[r.id].entry == s.mem[r.id].entry
    ensures Stored(r, chunk, now).0.id == r.id && Stored(r, chunk, now).0.sniffed == r.sniffed
  {
    if r.stream {
      AppendsKeepEntry(cfg, s, r.id, Cut(r.pending + chunk).0, true, now);
    } else {
      RunOne(cfg, s, OpAppendResponse(r.id, chunk, false, now));
      StepKeepsInv(cfg, s, OpAppendResponse(r.id, chunk, false, now));
    }
  }

  /** The response format an entry is left with: what the first chunk looks like, if the header said nothing. */
  function Found(lib: Text, sniffed: bool, chunk: Bytes, before: Format): Format {
    if sniffed || SniffFormat(lib, chunk) == Raw then before else SniffFormat(lib, chunk)
  }

  lemma ReadingFinds(cfg: Config, s: State, lib: Text, r: Reader, chunk: Bytes, now: int)
    requires Inv(s) && r.id in s.mem && chunk != []
    ensures var s', e := Run(cfg, s, Reading(lib, r, chunk, now).1), s.mem[r.id].entry;
            && Inv(s') && r.id in s'.mem
            && s'.mem[r.id].entry == e.(responseFormat := Found(lib, r.sniffed, chunk, e.responseFormat))
    ensures Reading(lib, r, chunk, now).0.id == r.id && Reading(lib, r, chunk, now).0.sniffed
  {
    var r0 := r.(firstAt := if r.firstAt == ZERO_TIME then now else r.firstAt, lastAt := now);
    var (r1, ops1) := Sniffed(lib, r0, chunk, now);
    RunAppend(cfg, s, ops1, Stored(r1, chunk, now).1);
    if ops1 != [] {
      RunOne(cfg, s, ops1[0]);
      assert ops1 == [ops1[0]];
      StepKeepsInv(cfg, s, ops1[0]);
    }
    StoredKeepsEntry(cfg, Run(cfg, s, ops1), r1, chunk, now);
  }

  /** Over all the reads, nothing else about the entry changes. */
  lemma {:induction false} ReadsFind(cfg: Config, s: State, lib: Text, r: Reader, parts: seq<(Bytes, int)>)
    requires Inv(s) && r.id in s.mem && lib.Sane()
    ensures var s', e := Run(cfg, s, ReadAll(lib, r, parts).1), s.mem[r.id].entry;
            && Inv(s') && r.id in s'.mem
            && s'.mem[r.id].entry == e.(responseFormat := Found(lib, r.sniffed, FirstChunk(parts), e.responseFormat))
    decreases |parts|
  {
    if parts != [] {
      var (r1, ops1) := Reading(lib, r, parts[0].0, parts[0].1);
      RunAppend(cfg, s, ops1, ReadAll(lib, r1, parts[1..]).1);
      if parts[0].0 != [] {
        ReadingFinds(cfg, s, lib, r, parts[0].0, parts[0].1);
      }
      ReadsFind(cfg, Run(cfg, s, ops1), lib, r1, parts[1..]);
    }
  }

  lemma FlushKeepsEntry(cfg: Config, s: State, r: Reader, now: int)
    requires Inv(s) && r.id in s.mem
    ensures var s' := Run(cfg, s, FlushOps(r, now));
            Inv(s') && r.id in s'.mem && s'.mem[r.id].entry == s.mem[r.id].entry
  {
    var op := OpAppendResponse(r.id, r.pending, true, now);
    RunOne(cfg, s, op);
    StepKeepsInv(cfg, s, op);
    assert r.pending == [] ==> FlushOps(r, now) == [];
  }

  /** The state in which Close finalizes the entry. */
  function BeforeEnd(cfg: Config, s: State, lib: Text, id: string, format: Format, parts: seq<(Bytes, int)>, end: int): State {
    var (r, ops) := ReadAll(lib, NewReader(id, format), parts);
    Run(cfg, Run(cfg, s, ops), FlushOps(r, end))
  }

  lemma EntryAtEnd(cfg: Config, s: State, lib: Text, id: string, format: Format, parts: seq<(Bytes, int)>, end: int)
    requires Inv(s) && id in s.mem && lib.Sane()
    ensures var s2, e := BeforeEnd(cfg, s, lib, id, format, parts, end), s.mem[id].entry;
            && Inv(s2) && id in s2.mem
            && s2.mem[id].entry == e.(responseFormat := Found(lib, format != Raw, FirstChunk(parts), e.responseFormat))
  {
    var (r, ops) := ReadAll(lib, NewReader(id, format), parts);
    ReadAllConserves(lib, NewReader(id, format), parts);
    ReadsFind(cfg, s, lib, NewReader(id, format), parts);
    FlushKeepsEntry(cfg, Run(cfg, s, ops), r, end);
  }

  lemma ExchangeEnds(cfg: Config, s: State, lib: Text, id: string, format: Format, parts: seq<(Bytes, int)>, end: int)
    requires lib.Sane()
    ensures Run(cfg, s, ExchangeOps(lib, id, format, parts, end)) ==
            Finalize(cfg, BeforeEnd(cfg, s, lib, id, format, parts, end), id, StreamEdit(StreamTime(lib, format, parts)), end)
  {
    var (r, ops) := ReadAll(lib, NewReader(id, format), parts);
    ExchangeIsCapture(lib, id, format, parts, end);
    RunThree(cfg, s, ops, FlushOps(r, end), OpFinalize(id, StreamEdit(StreamTime(lib, format, parts)), end));
  }

  lemma RunThree(cfg: Config, s: State, a: seq<Op>, b: seq<Op>, last: Op)
    ensures Run(cfg, s, a + b + [last]) == Step(cfg, Run(cfg, Run(cfg, s, a), b), last)
  {
    RunAppend(cfg, s, a + b, [last]);
    RunAppend(cfg, s, a, b);
    RunOne(cfg, Run(cfg, s, a + b), last);
  }

  /** Without other traffic: what is on record of an exchange once its reader is closed. The edit of its Close and what was
      sniffed are all that changed, and the entry is settled. */
  lemma ExchangeOnRecord(cfg: Config, s: State, lib: Text, id: string, format: Format, parts: seq<(Bytes, int)>, end: int)
    requires Inv(s) && id in s.mem && lib.Sane()
    requires Get(Run(cfg, s, ExchangeOps(lib, id, format, parts, end)), id).Ok?
    ensures var r, e := Get(Run(cfg, s, ExchangeOps(lib, id, format, parts, end)), id).value, s.mem[id].entry;
            && r.responseFormat == Found(lib, format != Raw, FirstChunk(parts), e.responseFormat)
            && r.times.streamMs == StreamTime(lib, format, parts) && r.times.ttfbMs == e.times.ttfbMs
            && r.status == (if e.status == Pending then Done else e.status)
            && r.statusCode == e.statusCode && r.error == e.error && r.startedAt == FloorToMilli(e.startedAt)
            && r.finishedAt == Some(FloorToMilli(if e.finishedAt.Some? then e.finishedAt.value else end))
  {
    EntryAtEnd(cfg, s, lib, id, format, parts, end);
    ExchangeEnds(cfg, s, lib, id, format, parts, end);
    FinalizeEdits(cfg, BeforeEnd(cfg, s, lib, id, format, parts, end), id, StreamEdit(StreamTime(lib, format, parts)), end);
  }

  // --- One reader alone, as an object ---

  predicate Plain(op: Op) { op.OpAppendResponse? || op.OpUpdate? || op.OpFinalize? }

  predicate AllPlain(ops: seq<Op>) { forall i :: 0 <= i < |ops| ==> Plain(ops[i]) }

  lemma {:induction false} AppendOpsPlain(id: string, pieces: seq<Bytes>, emit: bool, now: int)
    ensures AllPlain(AppendOps(id, pieces, emit, now))
  {
    if pieces != [] {
      AppendOpsPlain(id, pieces[1..], emit, now);
    }
  }

  lemma ReadingPlain(lib: Text, r: Reader, chunk: Bytes, now: int)
    ensures AllPlain(Reading(lib, r, chunk, now).1)
  {
    if chunk != [] {
      var r0 := r.(firstAt := if r.firstAt == ZERO_TIME then now else r.firstAt, lastAt := now);
      var r1 := Sniffed(lib, r0, chunk, now).0;
      AppendOpsPlain(r.id, Cut(r1.pending + chunk).0, true, now);
    }
  }

  lemma {:induction false} ReadsPlain(lib: Text, r: Reader, parts: seq<(Bytes, int)>)
    ensures AllPlain(ReadAll(lib, r, parts).1)
    decreases |parts|
  {
    if parts != [] {
      ReadingPlain(lib, r, parts[0].0, parts[0].1);
      ReadsPlain(lib, Reading(lib, r, parts[0].0, parts[0].1).0, parts[1..]);
    }
  }

  lemma {:induction false} PlainIsGood(cfg: Config, s: State, ops: seq<Op>, id: string)
    requires AllPlain(ops)
    ensures GoodRun(cfg, s, ops) && NoPut(ops, id) && NotSwept(ops, id)
    decreases |ops|
  {
    if ops != [] {
      PlainIsGood(cfg, Step(cfg, s, ops[0]), ops[1..], id);
    }
  }

  lemma ExchangePlain(lib: Text, id: string, format: Format, parts: seq<(Bytes, int)>, end: int)
    ensures AllPlain(ExchangeOps(lib, id, format, parts, end))
  {
    ReadsPlain(lib, NewReader(id, format), parts);
  }

  lemma PlainCarries(ops: seq<Op>, lib: Text, id: string, format: Format, parts: seq<(Bytes, int)>, end: int)
    requires ops == ExchangeOps(lib, id, format, parts, end) && NoPut(ops, id)
    ensures Carries(ops, lib, id, format, parts, end)
  {
  }

  /** Without other traffic the entry cannot be swept: Body serves all the bytes, and all their fragments are published. */
  lemma AloneIsServed(cfg: Config, s: State, a: Archive, lib: Text, id: string, format: Format, parts: seq<(Bytes, int)>, end: int)
    requires Inv(s) && Represents(cfg, s, a) && IsPending(a, id) && a.records[id].resp == [] && lib.Sane()
    ensures var s2 := Run(cfg, s, ExchangeOps(lib, id, format, parts, end));
            && id !in s2.mem
            && (Get(s2, id).Ok? ==> Served(cfg, s2, id, BytesOf(parts)))
            && DeltasIn(s2.events, id) == DeltasIn(s.events, id) +
                 if Streams(CaptureFormat(lib, format, parts)) then Fragments(BytesOf(parts)) else []
  {
    var ops := ExchangeOps(lib, id, format, parts, end);
    ExchangePlain(lib, id, format, parts, end);
    PlainIsGood(cfg, s, ops, id);
    PlainCarries(ops, lib, id, format, parts, end);
    ServedAlone(cfg, s, a, ops, lib, id, format, parts, end);
    KnownIds(cfg, s, a, id);
    ExchangeIsPublished(cfg, s, ops, lib, id, format, parts, end);
  }

  lemma ServedAlone(cfg: Config, s: State, a: Archive, ops: seq<Op>, lib: Text, id: string, format: Format,
                    parts: seq<(Bytes, int)>, end: int)
    requires Inv(s) && Represents(cfg, s, a) && IsPending(a, id) && a.records[id].resp == [] && lib.Sane()
    requires Carries(ops, lib, id, format, parts, end) && GoodRun(cfg, s, ops) && NotSwept(ops, id)
    ensures id !in Run(cfg, s, ops).mem
    ensures Get(Run(cfg, s, ops), id).Ok? ==> Served(cfg, Run(cfg, s, ops), id, BytesOf(parts))
  {
    ExchangeIsServed(cfg, s, a, ops, lib, id, format, parts, end);
  }

  method Next(reader: CaptureReader, p: array<Byte>, now: int) returns (chunk: Bytes)
    requires reader.Valid() && p !in reader.store.Footprint()
    modifies reader, reader.rc, p, reader.store.Footprint()
    ensures reader.Valid() && reader.store.SameObjects() && reader.closed == old(reader.closed)
    ensures old(reader.rc.data) == chunk + reader.rc.data
    ensures reader.View() == Reading(reader.lib, old(reader.View()), chunk, now).0
    ensures reader.store.State() == Run(reader.store.cfg, old(reader.store.State()), Reading(reader.lib, old(reader.View()), chunk, now).1)
  {
    var n, err := reader.Read(p, now);
    chunk := p[..n];
  }

  lemma OneMoreRead(cfg: Config, s: State, lib: Text, start: Reader, parts: seq<(Bytes, int)>, chunk: Bytes, now: int)
    ensures var (r, ops) := ReadAll(lib, start, parts);
            var (r', ops') := ReadAll(lib, start, parts + [(chunk, now)]);
            r' == Reading(lib, r, chunk, now).0 && Run(cfg, s, ops') == Run(cfg, Run(cfg, s, ops), Reading(lib, r, chunk, now).1)
    ensures BytesOf(parts + [(chunk, now)]) == BytesOf(parts) + chunk
  {
    var (r, ops) := ReadAll(lib, start, parts);
    ReadAllLast(lib, start, parts, chunk, now);
    RunAppend(cfg, s, ops, Reading(lib, r, chunk, now).1);
    BytesOfLast(parts, chunk, now);
  }

  method Reads(reader: CaptureReader, p: array<Byte>, times: seq<int>) returns (sent: Bytes, ghost parts: seq<(Bytes, int)>)
    requires reader.Valid() && p !in reader.store.Footprint()
    modifies reader, reader.rc, p, reader.store.Footprint()
    ensures reader.Valid() && reader.store.SameObjects() && reader.closed == old(reader.closed)
    ensures sent + reader.rc.data == old(reader.rc.data) && BytesOf(parts) == sent && |parts| == |times|
    ensures reader.View() == ReadAll(reader.lib, old(reader.View()), parts).0
    ensures reader.store.State() == Run(reader.store.cfg, old(reader.store.State()), ReadAll(reader.lib, old(reader.View()), parts).1)
  {
    ghost var s, start := reader.store.State(), reader.View();
    sent, parts := [], [];
    for i := 0 to |times|
      invariant reader.Valid() && reader.store.SameObjects() && reader.closed == old(reader.closed)
      invariant sent + reader.rc.data == old(reader.rc.data) && BytesOf(parts) == sent && |parts| == i
      invariant reader.View() == ReadAll(reader.lib, start, parts).0
      invariant reader.store.State() == Run(reader.store.cfg, s, ReadAll(reader.lib, start, parts).1)
    {
      var chunk := Next(reader, p, times[i]);
      OneMoreRead(reader.store.cfg, s, reader.lib, start, parts, chunk, times[i]);
      Assoc(sent, chunk, reader.rc.data);
      sent, parts := sent + chunk, parts + [(chunk, times[i])];
    }
  }

  /** The client's side of an exchange: reads one after the other, then Close. The client gets the upstream bytes, and
      those are what Body serves afterwards. */
  method Relay(reader: CaptureReader, p: array<Byte>, times: seq<int>, end: int, ghost format: Format, ghost a: Archive)
    returns (sent: Bytes, ghost parts: seq<(Bytes, int)>)
    requires reader.Valid() && !reader.closed && reader.View() == NewReader(reader.id, format) && p !in reader.store.Footprint()
    requires Inv(reader.store.State()) && Represents(reader.store.cfg, reader.store.State(), a) && reader.lib.Sane()
    requires IsPending(a, reader.id) && a.records[reader.id].resp == []
    modifies reader, reader.rc, p, reader.store.Footprint()
    ensures reader.Valid() && reader.closed
    ensures sent + reader.rc.data == old(reader.rc.data) && BytesOf(parts) == sent && |parts| == |times|
    ensures reader.store.State() == Run(reader.store.cfg, old(reader.store.State()), ExchangeOps(reader.lib, reader.id, format, parts, end))
    ensures reader.id !in reader.store.State().mem
    ensures Get(reader.store.State(), reader.id).Ok? ==> Served(reader.store.cfg, reader.store.State(), reader.id, sent)
  {
    ghost var s := reader.store.State();
    sent, parts := Reads(reader, p, times);
    RunAppend(reader.store.cfg, s, ReadAll(reader.lib, NewReader(reader.id, format), parts).1, CloseOps(reader.View(), end));
    reader.Close(end);
    AloneIsServed(reader.store.cfg, s, a, reader.lib, reader.id, format, parts, end);
  }

  lemma {:induction false} BytesOfLast(parts: seq<(Bytes, int)>, chunk: Bytes, now: int)
    ensures BytesOf(parts + [(chunk, now)]) == BytesOf(parts) + chunk
  {
    var all := parts + [(chunk, now)];
    if parts == [] {
      assert all[1..] == [];
    } else {
      assert all[0] == parts[0] && all[1..] == parts[1..] + [(chunk, now)];
      BytesOfLast(parts[1..], chunk, now);
    }
  }
}
