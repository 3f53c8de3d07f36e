/** Payload formats, line splitting, and the reader that re-fragments an upstream body into store operations. */
module Capture {
  import opened Types
  import opened Memory
  import opened StoreSpec

  /** The library functions the code only calls: TrimSpace, json.Valid, and decoding a fragment to its text. */
  datatype Text = Text(trim: Bytes -> Bytes, valid: Bytes -> bool, decode: Bytes -> Option<string>)
  {
    /** Trimming nothing leaves nothing. */
    ghost predicate Sane() { trim([]) == [] }
  }

  // --- Lines ---

  function IndexOf(p: Bytes): (i: int)
    ensures -1 <= i < |p|
    ensures i >= 0 ==> p[i] == NEWLINE && forall j :: 0 <= j < i ==> p[j] != NEWLINE
    ensures i < 0 ==> NEWLINE !in p
  {
    if p == [] then -1
    else if p[0] == NEWLINE then 0
    else
      var i := IndexOf(p[1..]);
      if i < 0 then -1 else i + 1
  }

  /** bytes.Split at every newline. */
  function SplitLines(p: Bytes): seq<Bytes>
    decreases |p|
  {
    var i := IndexOf(p);
    if i < 0 then [p] else [p[..i]] + SplitLines(p[i + 1..])
  }

  function Join(lines: seq<Bytes>): Bytes
    requires lines != []
  {
    if |lines| == 1 then lines[0] else lines[0] + [NEWLINE] + Join(lines[1..])
  }

  predicate NewlineFree(lines: seq<Bytes>) {
    forall i :: 0 <= i < |lines| ==> NEWLINE !in lines[i]
  }

  lemma {:induction false} SplitJoins(p: Bytes)
    ensures SplitLines(p) != [] && NewlineFree(SplitLines(p)) && Join(SplitLines(p)) == p
    decreases |p|
  {
    var i := IndexOf(p);
    if i >= 0 {
      SplitJoins(p[i + 1..]);
      assert p == p[..i] + [NEWLINE] + p[i + 1..];
      assert ([p[..i]] + SplitLines(p[i + 1..]))[1..] == SplitLines(p[i + 1..]);
    }
  }

  /** The first newline of a newline-free piece followed by one. */
  lemma FirstNewline(line: Bytes, q: Bytes)
    requires NEWLINE !in line
    ensures IndexOf(line + [NEWLINE] + q) == |line|
  {
    var p := line + [NEWLINE] + q;
    assert p[|line|] == NEWLINE;
    forall j | 0 <= j < |line|
      ensures p[j] != NEWLINE
    {
      assert p[j] == line[j] && line[j] in line;
    }
  }

  lemma SplitFirst(line: Bytes, q: Bytes)
    requires NEWLINE !in line
    ensures SplitLines(line + [NEWLINE] + q) == [line] + SplitLines(q)
  {
    var p, n := line + [NEWLINE] + q, |line|;
    FirstNewline(line, q);
    assert p[..n] == line;
    assert p[n + 1..] == q;
  }

  lemma SplitSingle(lines: seq<Bytes>)
    requires |lines| == 1 && NewlineFree(lines)
    ensures SplitLines(Join(lines)) == lines
  {
    assert IndexOf(lines[0]) < 0;
  }

  lemma SplitMore(lines: seq<Bytes>)
    requires |lines| > 1 && NewlineFree(lines)
    requires SplitLines(Join(lines[1..])) == lines[1..]
    ensures SplitLines(Join(lines)) == lines
  {
    SplitFirst(lines[0], Join(lines[1..]));
    assert [lines[0]] + lines[1..] == lines;
  }

  lemma {:induction false} SplitUnique(lines: seq<Bytes>)
    requires lines != [] && NewlineFree(lines)
    ensures SplitLines(Join(lines)) == lines
    decreases |lines|
  {
    if |lines| == 1 {
      SplitSingle(lines);
    } else {
      SplitUnique(lines[1..]);
      SplitMore(lines);
    }
  }

  /** The one way to write p as newline-free pieces joined by newlines. */
  lemma SplitCharacterised(p: Bytes, lines: seq<Bytes>)
    ensures SplitLines(p) == lines <==> lines != [] && NewlineFree(lines) && Join(lines) == p
  {
    SplitJoins(p);
    if lines != [] && NewlineFree(lines) && Join(lines) == p {
      SplitUnique(lines);
    }
  }

  /** The complete lines at the front of p, terminators included, and what follows them. */
  function Cut(p: Bytes): (seq<Bytes>, Bytes)
    decreases |p|
  {
    var i := IndexOf(p);
    if i < 0 then ([], p)
    else
      var (lines, rest) := Cut(p[i + 1..]);
      ([p[..i + 1]] + lines, rest)
  }

  /** Exactly one newline, at the end. */
  predicate IsLine(d: Bytes) {
    d != [] && d[|d| - 1] == NEWLINE && NEWLINE !in d[..|d| - 1]
  }

  predicate AreLines(ds: seq<Bytes>) {
    forall i :: 0 <= i < |ds| ==> IsLine(ds[i])
  }

  lemma LineIndex(d: Bytes, q: Bytes)
    requires IsLine(d)
    ensures IndexOf(d + q) == |d| - 1
  {
    var i := IndexOf(d + q);
    var k := |d| - 1;
    assert (d + q)[k] == NEWLINE;
    forall j | 0 <= j < k
      ensures (d + q)[j] != NEWLINE
    {
      assert d[..k][j] in d[..k];
    }
  }

  lemma {:induction false} CutLines(p: Bytes)
    ensures AreLines(Cut(p).0) && NEWLINE !in Cut(p).1
    decreases |p|
  {
    var i := IndexOf(p);
    if i >= 0 {
      CutLines(p[i + 1..]);
      assert p[..i + 1][..i] == p[..i];
    }
  }

  /** Putting the first line back in front of the pieces of what follows it. */
  lemma JoinFirst(line: Bytes, lines: seq<Bytes>, rest: Bytes)
    ensures Concat([line] + lines) + rest == line + (Concat(lines) + rest)
  {
    calc {
      Concat([line] + lines) + rest;
      { ConcatAppend([line], lines); }
      (Concat([line]) + Concat(lines)) + rest;
      { ConcatOne(line); }
      (line + Concat(lines)) + rest;
      { Assoc(line, Concat(lines), rest); }
      line + (Concat(lines) + rest);
    }
  }

  lemma {:induction false} CutJoins(p: Bytes)
    ensures Concat(Cut(p).0) + Cut(p).1 == p
    decreases |p|
  {
    var i := IndexOf(p);
    if i >= 0 {
      var (lines, rest) := Cut(p[i + 1..]);
      CutJoins(p[i + 1..]);
      JoinFirst(p[..i + 1], lines, rest);
      Rejoin(p, i + 1);
    }
  }

  lemma CutShape(p: Bytes)
    ensures AreLines(Cut(p).0) && NEWLINE !in Cut(p).1
    ensures Concat(Cut(p).0) + Cut(p).1 == p
  {
    CutLines(p);
    CutJoins(p);
  }

  lemma {:induction false} CutUnique(ds: seq<Bytes>, rest: Bytes)
    requires AreLines(ds) && NEWLINE !in rest
    ensures Cut(Concat(ds) + rest) == (ds, rest)
    decreases |ds|
  {
    if ds == [] {
      assert Concat(ds) + rest == rest;
    } else {
      var d, q := ds[0], Concat(ds[1..]) + rest;
      var p := d + q;
      assert Concat(ds) + rest == p;
      CutUnique(ds[1..], rest);
      LineIndex(d, q);
      assert p[..|d|] == d && p[|d|..] == q;
      assert [d] + ds[1..] == ds;
    }
  }

  /** The only way to write a stream as complete lines followed by a newline-free rest. */
  lemma CutCharacterised(p: Bytes, ds: seq<Bytes>, rest: Bytes)
    ensures Cut(p) == (ds, rest) <==> AreLines(ds) && NEWLINE !in rest && Concat(ds) + rest == p
  {
    CutShape(p);
    if AreLines(ds) && NEWLINE !in rest && Concat(ds) + rest == p {
      CutUnique(ds, rest);
    }
  }

  /** Cutting may be resumed from the unfinished rest. */
  lemma CutAppend(p: Bytes, q: Bytes)
    ensures Cut(p + q) == (Cut(p).0 + Cut(Cut(p).1 + q).0, Cut(Cut(p).1 + q).1)
  {
    var (ds, r) := Cut(p);
    var (es, t) := Cut(r + q);
    CutShape(p);
    CutShape(r + q);
    ConcatAppend(ds, es);
    Assoc(Concat(ds), Concat(es), t);
    Assoc(Concat(ds), r, q);
    CutUnique(ds + es, t);
  }

  /** Every fragment of a stream: its lines, and a last unterminated one if there is any. */
  function Fragments(p: Bytes): seq<Bytes> {
    Cut(p).0 + (if Cut(p).1 == [] then [] else [Cut(p).1])
  }

  /** Fragments are non-empty, rebuild the stream, and hold one newline each, at the end; only the last may lack it. */
  lemma FragmentsShape(p: Bytes)
    ensures var ds := Fragments(p);
            && Concat(ds) == p
            && (forall i :: 0 <= i < |ds| ==> ds[i] != [])
            && (forall i :: 0 <= i < |ds| - 1 ==> IsLine(ds[i]))
            && (ds != [] ==> IsLine(ds[|ds| - 1]) || NEWLINE !in ds[|ds| - 1])
  {
    var (lines, rest) := Cut(p);
    CutShape(p);
    ConcatAppend(lines, if rest == [] then [] else [rest]);
    ConcatOne(rest);
    assert forall i :: 0 <= i < |lines| ==> Fragments(p)[i] == lines[i];
  }

  // --- Formats ---

  const DATA_PREFIX: Bytes := [100, 97, 116, 97, 58]
  const EVENT_PREFIX: Bytes := [101, 118, 101, 110, 116, 58]
  const ID_PREFIX: Bytes := [105, 100, 58]
  const RETRY_PREFIX: Bytes := [114, 101, 116, 114, 121, 58]
  const COLON: Bytes := [58]
  const DONE_MARK: Bytes := [91, 68, 79, 78, 69, 93]
  const SSE_PREFIXES := [DATA_PREFIX, EVENT_PREFIX, ID_PREFIX, RETRY_PREFIX, COLON]

  predicate IsStreaming(f: Format) { f == Ndjson || f == Sse }

  predicate LooksLikeSse(body: Bytes) {
    exists i :: 0 <= i < |SSE_PREFIXES| && SSE_PREFIXES[i] <= body
  }

  /** The lines that hold something, trimmed. */
  function NonBlank(lib: Text, lines: seq<Bytes>): seq<Bytes> {
    if lines == [] then []
    else
      var line := lib.trim(lines[0]);
      (if line == [] then [] else [line]) + NonBlank(lib, lines[1..])
  }

  /** Several lines, each a JSON value of its own. */
  predicate IsNdjson(lib: Text, body: Bytes) {
    var lines := NonBlank(lib, SplitLines(body));
    |lines| > 1 && forall i :: 0 <= i < |lines| ==> lib.valid(lines[i])
  }

  function SniffFormat(lib: Text, body: Bytes): Format {
    var t := lib.trim(body);
    if t == [] then Raw
    else if t[0] == 123 || t[0] == 91 then if IsNdjson(lib, t) then Ndjson else Json
    else if t[0] == 60 then Xml
    else if LooksLikeSse(t) then Sse
    else Raw
  }

  method CheckSse(body: Bytes) returns (r: bool)
    ensures r == LooksLikeSse(body)
  {
    var prefixes := SSE_PREFIXES;
    for i := 0 to |prefixes|
      invariant forall j :: 0 <= j < i ==> !(SSE_PREFIXES[j] <= body)
    {
      if prefixes[i] <= body {
        return true;
      }
    }
    return false;
  }

  method CheckNdjson(lib: Text, body: Bytes) returns (r: bool)
    ensures r == IsNdjson(lib, body)
  {
    var lines := 0;
    var raws := SplitLines(body);
    ghost var all := NonBlank(lib, raws);
    for i := 0 to |raws|
      invariant 0 <= lines <= |all| && all[lines..] == NonBlank(lib, raws[i..])
      invariant forall j :: 0 <= j < lines ==> lib.valid(all[j])
    {
      assert raws[i..][1..] == raws[i + 1..];
      var line := lib.trim(raws[i]);
      if |line| == 0 {
        continue;
      }
      assert all[lines..][0] == line && all[lines..][1..] == all[lines + 1..];
      if !lib.valid(line) {
        return false;
      }
      lines := lines + 1;
    }
    return lines > 1;
  }

  // --- The reconstructed message ---

  /** What one line contributes to the message. */
  function LineText(lib: Text, format: Format, raw: Bytes): string {
    var line := lib.trim(raw);
    if line == [] then ""
    else if format == Sse then
      if !(DATA_PREFIX <= line) then ""
      else
        var data := lib.trim(line[|DATA_PREFIX|..]);
        if data == DONE_MARK then "" else Decoded(lib, data)
    else Decoded(lib, line)
  }

  /** Fragments that do not decode are skipped. */
  function Decoded(lib: Text, line: Bytes): string {
    match lib.decode(line)
    case Some(text) => text
    case None => ""
  }

  function TextOf(lib: Text, format: Format, lines: seq<Bytes>): string {
    if lines == [] then "" else LineText(lib, format, lines[0]) + TextOf(lib, format, lines[1..])
  }

  function Preview(lib: Text, format: Format, body: Bytes): string {
    TextOf(lib, format, SplitLines(body))
  }

  method LineFragment(lib: Text, format: Format, raw: Bytes) returns (text: string)
    ensures text == LineText(lib, format, raw)
  {
    var line := lib.trim(raw);
    if |line| == 0 {
      return "";
    }
    if format == Sse {
      if !(DATA_PREFIX <= line) {
        return "";
      }
      line := lib.trim(line[|DATA_PREFIX|..]);
      if line == DONE_MARK {
        return "";
      }
    }
    var decoded := lib.decode(line);
    if decoded.None? {
      return "";
    }
    return decoded.value;
  }

  method OllamaPreview(lib: Text, format: Format, body: Bytes) returns (b: string)
    ensures b == Preview(lib, format, body)
  {
    b := "";
    var raws := SplitLines(body);
    for i := 0 to |raws|
      invariant b + TextOf(lib, format, raws[i..]) == Preview(lib, format, body)
    {
      assert raws[i..][1..] == raws[i + 1..];
      var text := LineFragment(lib, format, raws[i]);
      Assoc(b, text, TextOf(lib, format, raws[i + 1..]));
      b := b + text;
    }
  }

  function PreviewEach(lib: Text, format: Format, pieces: seq<Bytes>): string {
    if pieces == [] then "" else Preview(lib, format, pieces[0]) + PreviewEach(lib, format, pieces[1..])
  }

  lemma PreviewLine(lib: Text, format: Format, d: Bytes, q: Bytes)
    requires lib.Sane() && IsLine(d)
    ensures Preview(lib, format, d + q) == Preview(lib, format, d) + Preview(lib, format, q)
  {
    var line := d[..|d| - 1];
    LineIndex(d, q);
    assert (d + q)[..|d| - 1] == line && (d + q)[|d|..] == q;
    assert SplitLines(d + q) == [line] + SplitLines(q);
    LineIndex(d, []);
    assert d + [] == d;
    assert SplitLines(d) == [line] + SplitLines([]);
    assert SplitLines([]) == [[]];
    assert ([line] + SplitLines([]))[1..] == SplitLines([]) && ([line] + SplitLines(q))[1..] == SplitLines(q);
    assert TextOf(lib, format, [[]]) == "";
  }

  lemma {:induction false} PreviewLines(lib: Text, format: Format, ds: seq<Bytes>, rest: Bytes)
    requires lib.Sane() && AreLines(ds)
    ensures Preview(lib, format, Concat(ds) + rest) == PreviewEach(lib, format, ds) + Preview(lib, format, rest)
    decreases |ds|
  {
    if ds == [] {
      assert Concat(ds) + rest == rest;
    } else {
      PreviewLine(lib, format, ds[0], Concat(ds[1..]) + rest);
      PreviewLines(lib, format, ds[1..], rest);
      Assoc(ds[0], Concat(ds[1..]), rest);
      Assoc(Preview(lib, format, ds[0]), PreviewEach(lib, format, ds[1..]), Preview(lib, format, rest));
    }
  }

  lemma {:induction false} PreviewEachAppend(lib: Text, format: Format, a: seq<Bytes>, b: seq<Bytes>)
    ensures PreviewEach(lib, format, a + b) == PreviewEach(lib, format, a) + PreviewEach(lib, format, b)
  {
    if a == [] {
      assert a + b == b;
    } else {
      assert (a + b)[0] == a[0] && (a + b)[1..] == a[1..] + b;
      PreviewEachAppend(lib, format, a[1..], b);
    }
  }

  /** Previewing the fragments one by one and joining gives the preview of the whole body. */
  lemma PreviewHomomorphism(lib: Text, format: Format, body: Bytes)
    requires lib.Sane()
    ensures PreviewEach(lib, format, Fragments(body)) == Preview(lib, format, body)
  {
    var (lines, rest) := Cut(body);
    CutShape(body);
    PreviewLines(lib, format, lines, rest);
    PreviewEachAppend(lib, format, lines, [rest]);
    assert PreviewEach(lib, format, [rest]) == Preview(lib, format, rest);
    assert lines + [] == lines;
    if rest == [] {
      assert SplitLines([]) == [[]];
      assert TextOf(lib, format, [[]]) == "";
    }
  }

  // --- The reader as a value ---

  /** firstAt and lastAt hold the zero time until the first byte arrives. */
  datatype Reader = Reader(
    id: string,
    format: Format,
    stream: bool,
    sniffed: bool,
    pending: Bytes,
    firstAt: int,
    lastAt: int)

  function NewReader(id: string, format: Format): Reader {
    Reader(id, format, IsStreaming(format), format != Raw, [], ZERO_TIME, ZERO_TIME)
  }

  function FormatEdit(f: Format): Edit {
    (e: Entry) => e.(responseFormat := f)
  }

  function StreamEdit(streamMs: Option<int>): Edit {
    (e: Entry) => e.(times := e.times.(streamMs := streamMs))
  }

  function AppendOps(id: string, pieces: seq<Bytes>, emit: bool, now: int): seq<Op> {
    if pieces == [] then [] else [OpAppendResponse(id, pieces[0], emit, now)] + AppendOps(id, pieces[1..], emit, now)
  }

  /** The one-shot detection on the first chunk, and the update it issues. */
  function Sniffed(lib: Text, r: Reader, chunk: Bytes, now: int): (Reader, seq<Op>) {
    if r.sniffed then (r, [])
    else
      var f := SniffFormat(lib, chunk);
      if f == Raw then (r.(sniffed := true), [])
      else (r.(sniffed := true, format := f, stream := IsStreaming(f)), [OpUpdate(r.id, FormatEdit(f), now)])
  }

  function Stored(r: Reader, chunk: Bytes, now: int): (Reader, seq<Op>) {
    if !r.stream then (r, [OpAppendResponse(r.id, chunk, false, now)])
    else
      var (lines, rest) := Cut(r.pending + chunk);
      (r.(pending := rest), AppendOps(r.id, lines, true, now))
  }

  function Consume(lib: Text, r: Reader, chunk: Bytes, now: int): (Reader, seq<Op>) {
    var (r1, ops1) := Sniffed(lib, r, chunk, now);
    var (r2, ops2) := Stored(r1, chunk, now);
    (r2, ops1 + ops2)
  }

  /** One Read that yielded `chunk`; an empty one leaves no trace. */
  function Reading(lib: Text, r: Reader, chunk: Bytes, now: int): (Reader, seq<Op>) {
    if chunk == [] then (r, [])
    else Consume(lib, r.(firstAt := if r.firstAt == ZERO_TIME then now else r.firstAt, lastAt := now), chunk, now)
  }

  function StreamMs(r: Reader): Option<int> {
    if r.stream && r.firstAt != ZERO_TIME then Some(DurationMs(SubTime(r.lastAt, r.firstAt))) else None
  }

  /** What Close still has to hand over. */
  function FlushOps(r: Reader, now: int): seq<Op> {
    if r.pending == [] then [] else [OpAppendResponse(r.id, r.pending, true, now)]
  }

  /** The last partial line, then the end of the exchange. */
  function CloseOps(r: Reader, now: int): seq<Op> {
    FlushOps(r, now) + [OpFinalize(r.id, StreamEdit(StreamMs(r)), now)]
  }

  /** Reads in sequence, each with its bytes and its time. */
  function ReadAll(lib: Text, r: Reader, parts: seq<(Bytes, int)>): (Reader, seq<Op>)
    decreases |parts|
  {
    if parts == [] then (r, [])
    else
      var (r1, ops1) := Reading(lib, r, parts[0].0, parts[0].1);
      var (r2, ops2) := ReadAll(lib, r1, parts[1..]);
      (r2, ops1 + ops2)
  }

  /** The bytes upstream sent over those reads. */
  function BytesOf(parts: seq<(Bytes, int)>): Bytes {
    if parts == [] then [] else parts[0].0 + BytesOf(parts[1..])
  }

  /** Everything the reader does to the store before the exchange ends. */
  function CaptureOps(lib: Text, id: string, format: Format, parts: seq<(Bytes, int)>, now: int): seq<Op> {
    var (r, ops) := ReadAll(lib, NewReader(id, format), parts);
    ops + FlushOps(r, now)
  }

  // --- What reaches the store ---

  /** The response chunks a run of operations appends to one entry. */
  function AppendsOf(ops: seq<Op>, id: string): seq<Bytes> {
    if ops == [] then []
    else (if ops[0].OpAppendResponse? && ops[0].id == id then [ops[0].chunk] else []) + AppendsOf(ops[1..], id)
  }

  /** Those of them that are published as deltas. */
  function DeltasOf(ops: seq<Op>, id: string): seq<Bytes> {
    if ops == [] then []
    else (if ops[0].OpAppendResponse? && ops[0].id == id && ops[0].emitDelta && ops[0].chunk != [] then [ops[0].chunk] else [])
         + DeltasOf(ops[1..], id)
  }

  lemma {:induction false} DeltasOfAppend(a: seq<Op>, b: seq<Op>, id: string)
    ensures DeltasOf(a + b, id) == DeltasOf(a, id) + DeltasOf(b, id)
  {
    if a == [] {
      assert a + b == b;
    } else {
      assert (a + b)[0] == a[0] && (a + b)[1..] == a[1..] + b;
      DeltasOfAppend(a[1..], b, id);
    }
  }

  lemma {:induction false} AppendsOfAppend(a: seq<Op>, b: seq<Op>, id: string)
    ensures AppendsOf(a + b, id) == AppendsOf(a, id) + AppendsOf(b, id)
  {
    if a == [] {
      assert a + b == b;
    } else {
      assert (a + b)[0] == a[0] && (a + b)[1..] == a[1..] + b;
      AppendsOfAppend(a[1..], b, id);
    }
  }

  lemma {:induction false} AppendOpsAppend(id: string, pieces: seq<Bytes>, now: int)
    ensures AppendsOf(AppendOps(id, pieces, true, now), id) == pieces
    ensures (forall i :: 0 <= i < |pieces| ==> pieces[i] != []) ==> DeltasOf(AppendOps(id, pieces, true, now), id) == pieces
  {
    if pieces != [] {
      AppendOpsAppend(id, pieces[1..], now);
      var op, rest := OpAppendResponse(id, pieces[0], true, now), AppendOps(id, pieces[1..], true, now);
      assert ([op] + rest)[1..] == rest;
    }
  }

  /** A reader that does not stream holds nothing back, and one still to sniff does not stream. */
  predicate ReaderOk(r: Reader) {
    (!r.stream ==> r.pending == []) && (!r.sniffed ==> !r.stream) && NEWLINE !in r.pending
  }

  lemma SniffedKeeps(lib: Text, r: Reader, chunk: Bytes, now: int)
    requires ReaderOk(r)
    ensures var (r', ops) := Sniffed(lib, r, chunk, now);
            && ReaderOk(r') && r'.id == r.id && r'.pending == r.pending && r'.sniffed
            && AppendsOf(ops, r.id) == []
  {
  }

  lemma StoredConserves(r: Reader, chunk: Bytes, now: int)
    requires ReaderOk(r) && r.sniffed
    ensures var (r', ops) := Stored(r, chunk, now);
            && ReaderOk(r') && r'.id == r.id
            && Concat(AppendsOf(ops, r.id)) + r'.pending == r.pending + chunk
  {
    if r.stream {
      CutShape(r.pending + chunk);
      AppendOpsAppend(r.id, Cut(r.pending + chunk).0, now);
    } else {
      ConcatOne(chunk);
      assert AppendsOf(Stored(r, chunk, now).1, r.id) == [chunk] + AppendsOf([], r.id) == [chunk];
    }
  }

  /** One read: the bytes held back before, plus the chunk, are the bytes stored plus those held back now. */
  lemma ReadingConserves(lib: Text, r: Reader, chunk: Bytes, now: int)
    requires ReaderOk(r)
    ensures var (r', ops) := Reading(lib, r, chunk, now);
            && ReaderOk(r') && r'.id == r.id
            && Concat(AppendsOf(ops, r.id)) + r'.pending == r.pending + chunk
  {
    if chunk != [] {
      var r0 := r.(firstAt := if r.firstAt == ZERO_TIME then now else r.firstAt, lastAt := now);
      var (r1, ops1) := Sniffed(lib, r0, chunk, now);
      var (r2, ops2) := Stored(r1, chunk, now);
      SniffedKeeps(lib, r0, chunk, now);
      StoredConserves(r1, chunk, now);
      AppendsOfAppend(ops1, ops2, r.id);
      assert AppendsOf(ops1 + ops2, r.id) == AppendsOf(ops2, r.id);
    }
  }

  lemma {:induction false} ReadAllConserves(lib: Text, r: Reader, parts: seq<(Bytes, int)>)
    requires ReaderOk(r)
    ensures var (r', ops) := ReadAll(lib, r, parts);
            && ReaderOk(r') && r'.id == r.id
            && Concat(AppendsOf(ops, r.id)) + r'.pending == r.pending + BytesOf(parts)
    decreases |parts|
  {
    if parts != [] {
      var (r1, ops1) := Reading(lib, r, parts[0].0, parts[0].1);
      var (r2, ops2) := ReadAll(lib, r1, parts[1..]);
      ReadingConserves(lib, r, parts[0].0, parts[0].1);
      ReadAllConserves(lib, r1, parts[1..]);
      AppendsOfAppend(ops1, ops2, r.id);
      ConcatAppend(AppendsOf(ops1, r.id), AppendsOf(ops2, r.id));
      Assoc(Concat(AppendsOf(ops1, r.id)), Concat(AppendsOf(ops2, r.id)), r2.pending);
      Assoc(Concat(AppendsOf(ops1, r.id)), r1.pending, BytesOf(parts[1..]));
      Assoc(r.pending, parts[0].0, BytesOf(parts[1..]));
    }
  }

  /** Whatever the format and the chunking, the chunks handed to the store are the upstream bytes. */
  lemma CaptureConserves(lib: Text, id: string, format: Format, parts: seq<(Bytes, int)>, now: int)
    ensures Concat(AppendsOf(CaptureOps(lib, id, format, parts, now), id)) == BytesOf(parts)
  {
    var (r, ops) := ReadAll(lib, NewReader(id, format), parts);
    ReadAllConserves(lib, NewReader(id, format), parts);
    AppendsOfAppend(ops, FlushOps(r, now), id);
    ConcatAppend(AppendsOf(ops, id), AppendsOf(FlushOps(r, now), id));
    ConcatOne(r.pending);
    assert AppendsOf(FlushOps(r, now), id) == if r.pending == [] then [] else [r.pending];
  }

  // --- Deltas do not depend on the chunking ---

  lemma {:induction false} StreamedLines(lib: Text, r: Reader, parts: seq<(Bytes, int)>)
    requires r.sniffed && r.stream && NEWLINE !in r.pending
    ensures var (r', ops) := ReadAll(lib, r, parts);
            (DeltasOf(ops, r.id), r'.pending) == Cut(r.pending + BytesOf(parts)) && r'.id == r.id
    decreases |parts|
  {
    if parts == [] {
      assert r.pending + [] == r.pending;
    } else {
      var (r1, ops1) := Reading(lib, r, parts[0].0, parts[0].1);
      var (r2, ops2) := ReadAll(lib, r1, parts[1..]);
      var p := r.pending + parts[0].0;
      StreamedChunk(lib, r, parts[0].0, parts[0].1);
      CutShape(p);
      StreamedLines(lib, r1, parts[1..]);
      DeltasOfAppend(ops1, ops2, r.id);
      CutAppend(p, BytesOf(parts[1..]));
      Assoc(r.pending, parts[0].0, BytesOf(parts[1..]));
    }
  }

  lemma StreamedChunk(lib: Text, r: Reader, chunk: Bytes, now: int)
    requires r.sniffed && r.stream && NEWLINE !in r.pending
    ensures var (r', ops) := Reading(lib, r, chunk, now);
            && (DeltasOf(ops, r.id), r'.pending) == Cut(r.pending + chunk)
            && r'.sniffed && r'.stream && r'.id == r.id
  {
    if chunk == [] {
      assert r.pending + [] == r.pending;
    } else {
      var (lines, rest) := Cut(r.pending + chunk);
      CutShape(r.pending + chunk);
      AppendOpsAppend(r.id, lines, now);
      assert [] + AppendOps(r.id, lines, true, now) == AppendOps(r.id, lines, true, now);
    }
  }

  lemma {:induction false} NothingStreamed(lib: Text, r: Reader, parts: seq<(Bytes, int)>)
    requires r.sniffed && !r.stream && r.pending == []
    ensures DeltasOf(ReadAll(lib, r, parts).1, r.id) == [] && ReadAll(lib, r, parts).0.pending == []
    decreases |parts|
  {
    if parts != [] {
      var (r1, ops1) := Reading(lib, r, parts[0].0, parts[0].1);
      NothingStreamed(lib, r1, parts[1..]);
      DeltasOfAppend(ops1, ReadAll(lib, r1, parts[1..]).1, r.id);
    }
  }

  function FirstChunk(parts: seq<(Bytes, int)>): Bytes {
    if parts == [] then []
    else if parts[0].0 != [] then parts[0].0
    else FirstChunk(parts[1..])
  }

  /** The reading that sniffs goes on as if the header had said what was sniffed. */
  lemma SniffedChunk(lib: Text, r: Reader, chunk: Bytes, now: int)
    requires !r.sniffed && !r.stream && r.pending == [] && chunk != []
    ensures var f := SniffFormat(lib, chunk);
            var (r', ops) := Reading(lib, r, chunk, now);
            && r'.sniffed && r'.stream == IsStreaming(f) && r'.id == r.id
            && (DeltasOf(ops, r.id), r'.pending) == if IsStreaming(f) then Cut(chunk) else ([], [])
  {
    var r0 := r.(firstAt := if r.firstAt == ZERO_TIME then now else r.firstAt, lastAt := now);
    var (r1, ops1) := Sniffed(lib, r0, chunk, now);
    var (r2, ops2) := Stored(r1, chunk, now);
    DeltasOfAppend(ops1, ops2, r.id);
    assert DeltasOf(ops1, r.id) == [];
    assert DeltasOf(ops1 + ops2, r.id) == DeltasOf(ops2, r.id);
    if r1.stream {
      assert [] + chunk == chunk;
      CutShape(chunk);
      AppendOpsAppend(r.id, Cut(chunk).0, now);
    }
  }

  lemma {:induction false} SniffedLines(lib: Text, r: Reader, parts: seq<(Bytes, int)>)
    requires !r.sniffed && !r.stream && r.pending == [] && FirstChunk(parts) != []
    ensures (DeltasOf(ReadAll(lib, r, parts).1, r.id), ReadAll(lib, r, parts).0.pending) ==
            if IsStreaming(SniffFormat(lib, FirstChunk(parts))) then Cut(BytesOf(parts)) else ([], [])
    ensures ReadAll(lib, r, parts).0.id == r.id
    decreases |parts|
  {
    var chunk, rest := parts[0].0, parts[1..];
    var (r1, ops1) := Reading(lib, r, chunk, parts[0].1);
    var (r2, ops2) := ReadAll(lib, r1, rest);
    DeltasOfAppend(ops1, ops2, r.id);
    ReadAllConserves(lib, r, parts);
    if chunk == [] {
      assert [] + BytesOf(rest) == BytesOf(rest);
      assert [] + ops2 == ops2;
      SniffedLines(lib, r, rest);
    } else {
      SniffedChunk(lib, r, chunk, parts[0].1);
      if r1.stream {
        CutShape(chunk);
        StreamedLines(lib, r1, rest);
        CutAppend(chunk, BytesOf(rest));
      } else {
        NothingStreamed(lib, r1, rest);
      }
    }
  }

  /** The format the capture goes by: the header's, or else what the first chunk looks like. */
  function CaptureFormat(lib: Text, format: Format, parts: seq<(Bytes, int)>): Format {
    if format != Raw then format else SniffFormat(lib, FirstChunk(parts))
  }

  /** The deltas are the fragments of the byte stream if the format streams, and none otherwise. With the format fixed
      by the header they depend on the bytes alone; a sniffed format depends on the first chunk as well, and on no
      other boundary. */
  lemma DeltasCanonical(lib: Text, id: string, format: Format, parts: seq<(Bytes, int)>, now: int)
    requires lib.Sane()
    ensures DeltasOf(CaptureOps(lib, id, format, parts, now), id) ==
            if IsStreaming(CaptureFormat(lib, format, parts)) then Fragments(BytesOf(parts)) else []
  {
    var start := NewReader(id, format);
    var (r, ops) := ReadAll(lib, start, parts);
    assert [] + BytesOf(parts) == BytesOf(parts);
    DeltasOfAppend(ops, FlushOps(r, now), id);
    ReadAllConserves(lib, start, parts);
    assert DeltasOf(FlushOps(r, now), id) == if r.pending == [] then [] else [r.pending];
    if IsStreaming(format) {
      StreamedLines(lib, start, parts);
    } else if format != Raw {
      NothingStreamed(lib, start, parts);
    } else if FirstChunk(parts) != [] {
      SniffedLines(lib, start, parts);
    } else {
      NothingRead(lib, start, parts);
    }
  }

  lemma {:induction false} NothingRead(lib: Text, r: Reader, parts: seq<(Bytes, int)>)
    requires FirstChunk(parts) == []
    ensures ReadAll(lib, r, parts) == (r, [])
    decreases |parts|
  {
    if parts != [] {
      NothingRead(lib, r, parts[1..]);
      var rest: seq<Op> := [];
      assert Reading(lib, r, parts[0].0, parts[0].1) == (r, rest) && ReadAll(lib, r, parts[1..]) == (r, rest);
      assert rest + rest == rest;
    }
  }

  /** The message shown live, delta by delta, is the one rebuilt from the stored body. */
  lemma LivePreview(lib: Text, id: string, format: Format, parts: seq<(Bytes, int)>, now: int)
    requires lib.Sane() && IsStreaming(CaptureFormat(lib, format, parts))
    ensures var ops := CaptureOps(lib, id, format, parts, now);
            forall f :: PreviewEach(lib, f, DeltasOf(ops, id)) == Preview(lib, f, Concat(AppendsOf(ops, id)))
  {
    DeltasCanonical(lib, id, format, parts, now);
    CaptureConserves(lib, id, format, parts, now);
    forall f
      ensures PreviewEach(lib, f, Fragments(BytesOf(parts))) == Preview(lib, f, BytesOf(parts))
    {
      PreviewHomomorphism(lib, f, BytesOf(parts));
    }
  }
}
