/** What is read out of a captured stream: its format, and the message it spells. */
module Messages {
  import opened Types
  import opened Capture

  // --- The format of a body ---

  const OPEN_BRACE: Byte := 123
  const OPEN_BRACKET: Byte := 91
  const LESS_THAN: Byte := 60

  predicate IsBlank(lib: Text, line: Bytes) { lib.trim(line) == [] }

  /** Each line that is not blank is a JSON value. */
  predicate LinesValid(lib: Text, lines: seq<Bytes>) {
    forall i :: 0 <= i < |lines| && !IsBlank(lib, lines[i]) ==> lib.valid(lib.trim(lines[i]))
  }

  predicate SomeWritten(lib: Text, lines: seq<Bytes>) {
    exists i :: 0 <= i < |lines| && !IsBlank(lib, lines[i])
  }

  predicate TwoWritten(lib: Text, lines: seq<Bytes>) {
    exists i, j :: 0 <= i < j < |lines| && !IsBlank(lib, lines[i]) && !IsBlank(lib, lines[j])
  }

  lemma ValidCons(lib: Text, line: Bytes, rest: seq<Bytes>)
    ensures LinesValid(lib, [line] + rest) <==> (IsBlank(lib, line) || lib.valid(lib.trim(line))) && LinesValid(lib, rest)
  {
    var all := [line] + rest;
    assert all[0] == line && forall i :: 0 <= i < |rest| ==> rest[i] == all[i + 1];
  }

  lemma SomeCons(lib: Text, line: Bytes, rest: seq<Bytes>)
    ensures SomeWritten(lib, [line] + rest) <==> !IsBlank(lib, line) || SomeWritten(lib, rest)
  {
    var all := [line] + rest;
    assert all[0] == line && forall i :: 0 <= i < |rest| ==> rest[i] == all[i + 1];
    if i :| 0 <= i < |rest| && !IsBlank(lib, rest[i]) {
      assert !IsBlank(lib, all[i + 1]);
    }
  }

  lemma TwoCons(lib: Text, line: Bytes, rest: seq<Bytes>)
    ensures TwoWritten(lib, [line] + rest) <==> (!IsBlank(lib, line) && SomeWritten(lib, rest)) || TwoWritten(lib, rest)
  {
    var all := [line] + rest;
    if TwoWritten(lib, all) {
      var i, j :| 0 <= i < j < |all| && !IsBlank(lib, all[i]) && !IsBlank(lib, all[j]);
      assert rest[j - 1] == all[j];
      if i > 0 {
        assert rest[i - 1] == all[i];
      }
    }
    if !IsBlank(lib, line) && SomeWritten(lib, rest) {
      var j :| 0 <= j < |rest| && !IsBlank(lib, rest[j]);
      assert all[0] == line && all[j + 1] == rest[j];
    }
    if TwoWritten(lib, rest) {
      var i, j :| 0 <= i < j < |rest| && !IsBlank(lib, rest[i]) && !IsBlank(lib, rest[j]);
      assert all[i + 1] == rest[i] && all[j + 1] == rest[j];
    }
  }

  predicate AllValid(lib: Text, lines: seq<Bytes>) {
    forall i :: 0 <= i < |lines| ==> lib.valid(lines[i])
  }

  lemma {:induction false} NonBlankTells(lib: Text, lines: seq<Bytes>)
    ensures AllValid(lib, NonBlank(lib, lines)) <==> LinesValid(lib, lines)
    ensures |NonBlank(lib, lines)| > 0 <==> SomeWritten(lib, lines)
    ensures |NonBlank(lib, lines)| > 1 <==> TwoWritten(lib, lines)
    decreases |lines|
  {
    if lines != [] {
      var line, rest := lines[0], lines[1..];
      assert lines == [line] + rest;
      NonBlankTells(lib, rest);
      ValidCons(lib, line, rest);
      SomeCons(lib, line, rest);
      TwoCons(lib, line, rest);
      var tail := NonBlank(lib, rest);
      if IsBlank(lib, line) {
        assert NonBlank(lib, lines) == tail;
      } else {
        var all := [lib.trim(line)] + tail;
        assert all[0] == lib.trim(line) && forall i :: 0 <= i < |tail| ==> tail[i] == all[i + 1];
      }
    }
  }

  /** The format read off a body, whichever way it is written as lines: one that begins like an object or an array is NDJSON
      if it has several lines with something on them, each a JSON value, and JSON if not; one that begins with `<` is XML;
      one that begins with a field of an event stream is one; anything else is raw. */
  lemma SniffDecides(lib: Text, body: Bytes, lines: seq<Bytes>)
    requires lines != [] && NewlineFree(lines) && Join(lines) == lib.trim(body)
    ensures var t, f := lib.trim(body), SniffFormat(lib, body);
            var json := t != [] && (t[0] == OPEN_BRACE || t[0] == OPEN_BRACKET);
            && (f == Ndjson <==> json && TwoWritten(lib, lines) && LinesValid(lib, lines))
            && (f == Json <==> json && !(TwoWritten(lib, lines) && LinesValid(lib, lines)))
            && (f == Xml <==> t != [] && t[0] == LESS_THAN)
            && (f == Sse <==> DATA_PREFIX <= t || EVENT_PREFIX <= t || ID_PREFIX <= t || RETRY_PREFIX <= t || COLON <= t)
            && (f == Raw <==> f != Ndjson && f != Json && f != Xml && f != Sse)
  {
    NdjsonTells(lib, lines);
    PrefixesListed(lib.trim(body));
  }

  lemma NdjsonTells(lib: Text, lines: seq<Bytes>)
    requires lines != [] && NewlineFree(lines)
    ensures IsNdjson(lib, Join(lines)) <==> TwoWritten(lib, lines) && LinesValid(lib, lines)
  {
    SplitUnique(lines);
    NonBlankTells(lib, lines);
  }

  lemma PrefixesListed(t: Bytes)
    ensures LooksLikeSse(t) <==>
            DATA_PREFIX <= t || EVENT_PREFIX <= t || ID_PREFIX <= t || RETRY_PREFIX <= t || COLON <= t
  {
    assert SSE_PREFIXES[0] == DATA_PREFIX && SSE_PREFIXES[1] == EVENT_PREFIX && SSE_PREFIXES[2] == ID_PREFIX;
    assert SSE_PREFIXES[3] == RETRY_PREFIX && SSE_PREFIXES[4] == COLON;
  }

  // --- The message a stream spells ---

  function Spelled(texts: seq<string>): string {
    if texts == [] then "" else texts[0] + Spelled(texts[1..])
  }

  /** A line of a stream, as its writer means it: a fragment that decodes to a text, or nothing for the reader. */
  datatype Piece = Fragment(line: Bytes, text: string) | Silence(line: Bytes)

  /** The line holds the text: on its own, or in an event stream as the data of an event, blanks around it aside. */
  ghost predicate Says(lib: Text, format: Format, line: Bytes, text: string) {
    var t := lib.trim(line);
    if format == Sse then
      exists data :: t == DATA_PREFIX + data && lib.trim(data) != DONE_MARK && lib.decode(lib.trim(data)) == Some(text)
    else t != [] && lib.decode(t) == Some(text)
  }

  /** A blank line, a line that does not decode, and in an event stream another field or the end mark. */
  ghost predicate IsSilent(lib: Text, format: Format, line: Bytes) {
    var t := lib.trim(line);
    || t == []
    || (format != Sse && lib.decode(t).None?)
    || (format == Sse && !(DATA_PREFIX <= t))
    || (format == Sse && exists data :: t == DATA_PREFIX + data && (lib.trim(data) == DONE_MARK || lib.decode(lib.trim(data)).None?))
  }

  ghost predicate WellWritten(lib: Text, format: Format, p: Piece) {
    && NEWLINE !in p.line
    && match p
       case Fragment(line, text) => Says(lib, format, line, text)
       case Silence(line) => IsSilent(lib, format, line)
  }

  function TextIn(p: Piece): string {
    match p
    case Fragment(_, text) => text
    case Silence(_) => ""
  }

  function Lines(ps: seq<Piece>): seq<Bytes> {
    if ps == [] then [] else [ps[0].line] + Lines(ps[1..])
  }

  function Texts(ps: seq<Piece>): seq<string> {
    if ps == [] then [] else [TextIn(ps[0])] + Texts(ps[1..])
  }

  lemma LineSpells(lib: Text, format: Format, p: Piece)
    requires WellWritten(lib, format, p)
    ensures LineText(lib, format, p.line) == TextIn(p)
  {
    var t := lib.trim(p.line);
    if format == Sse && DATA_PREFIX <= t {
      assert forall data :: t == DATA_PREFIX + data ==> t[|DATA_PREFIX|..] == data;
    }
  }

  lemma {:induction false} LinesSpell(lib: Text, format: Format, ps: seq<Piece>)
    requires forall i :: 0 <= i < |ps| ==> WellWritten(lib, format, ps[i])
    ensures TextOf(lib, format, Lines(ps)) == Spelled(Texts(ps))
    ensures NewlineFree(Lines(ps)) && |Lines(ps)| == |ps|
  {
    if ps != [] {
      LineSpells(lib, format, ps[0]);
      LinesSpell(lib, format, ps[1..]);
      var rest, texts := Lines(ps[1..]), Texts(ps[1..]);
      var all := [ps[0].line] + rest;
      assert all[0] == ps[0].line && all[1..] == rest;
      assert ([TextIn(ps[0])] + texts)[1..] == texts;
      assert forall i :: 0 <= i < |rest| ==> all[i + 1] == rest[i];
    }
  }

  /** A stream written line by line spells the texts of its fragments, in order, and its silent lines add nothing. */
  lemma StreamSpells(lib: Text, format: Format, ps: seq<Piece>)
    requires ps != [] && forall i :: 0 <= i < |ps| ==> WellWritten(lib, format, ps[i])
    ensures Lines(ps) != [] && Preview(lib, format, Join(Lines(ps))) == Spelled(Texts(ps))
  {
    LinesSpell(lib, format, ps);
    SplitUnique(Lines(ps));
  }

  /** So whatever the chunking, that is the message rebuilt from the deltas of its capture, and from the stored body. */
  lemma CapturedMessage(lib: Text, id: string, format: Format, parts: seq<(Bytes, int)>, now: int, ps: seq<Piece>)
    requires lib.Sane() && (format == Ndjson || format == Sse)
    requires ps != [] && forall i :: 0 <= i < |ps| ==> WellWritten(lib, format, ps[i])
    requires Lines(ps) != [] && BytesOf(parts) == Join(Lines(ps))
    ensures var ops := CaptureOps(lib, id, format, parts, now);
            && PreviewEach(lib, format, DeltasOf(ops, id)) == Spelled(Texts(ps))
            && Preview(lib, format, Concat(AppendsOf(ops, id))) == Spelled(Texts(ps))
  {
    StreamSpells(lib, format, ps);
    CaptureConserves(lib, id, format, parts, now);
    LivePreview(lib, id, format, parts, now);
  }
}
