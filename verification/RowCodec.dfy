/** The encoding of an entry as a row of the `requests` table, and back. */
module RowCodec {
  import opened Types

  /** A header object serialised as JSON text; decoding an encoded object gives it back. */
  datatype HeaderText = HeaderText(headers: Headers)

  datatype BodyColumns = BodyColumns(blob: Option<Bytes>, path: Option<string>, size: int)

  datatype AboutColumns = AboutColumns(
    verb: string,
    url: string,
    requestFormat: Option<Format>,
    isOllama: bool,
    isReplay: bool,
    requestHeaders: Option<HeaderText>)

  /** One row; an optional column holds None for NULL. */
  datatype Row = Row(
    id: string,
    about: AboutColumns,
    status: Status,
    statusCode: Option<int>,
    error: Option<string>,
    responseFormat: Option<Format>,
    responseHeaders: Option<HeaderText>,
    request: BodyColumns,
    response: BodyColumns,
    startedAt: int,
    finishedAt: Option<int>,
    times: Times)

  function NullString(s: string): Option<string> { if s == "" then None else Some(s) }

  function StringOf(c: Option<string>): string { if c.Some? then c.value else "" }

  function NullFormat(f: Format): Option<Format> { if f == NoFormat then None else Some(f) }

  function FormatOf(c: Option<Format>): Format { if c.Some? then c.value else NoFormat }

  function NullInt(v: int): Option<int> { if v == 0 then None else Some(v) }

  function NullTime(t: Option<int>): Option<int> {
    if t.None? then None else Some(UnixMilli(t.value))
  }

  function MarshalHeader(h: Option<Headers>): Option<HeaderText> {
    if h.None? || h.value == map[] then None else Some(HeaderText(h.value))
  }

  function UnmarshalHeader(c: Option<HeaderText>): Option<Headers> {
    if c.None? then None else Some(c.value.headers)
  }

  /** A body column is empty for spilled and for empty bodies alike. */
  function BlobColumn(bytes: Bytes, spilled: bool): Option<Bytes> {
    if spilled || bytes == [] then None else Some(bytes)
  }

  function EncodeBody(b: Body): BodyColumns {
    BodyColumns(BlobColumn(b.bytes, b.spilled), NullString(b.path), b.size)
  }

  function DecodeBody(c: BodyColumns): Body {
    Body(if c.blob.Some? then c.blob.value else [], StringOf(c.path), c.size, c.path.Some?)
  }

  function EncodeAbout(a: About): AboutColumns {
    AboutColumns(a.verb, a.url, NullFormat(a.requestFormat), a.isOllama, a.isReplay, MarshalHeader(a.requestHeaders))
  }

  function DecodeAbout(c: AboutColumns): About {
    About(c.verb, c.url, FormatOf(c.requestFormat), c.isOllama, c.isReplay, UnmarshalHeader(c.requestHeaders))
  }

  /** The parameters bound by `insert`. */
  function Encode(e: Entry): Row {
    Row(e.id, EncodeAbout(e.about), e.status, NullInt(e.statusCode), NullString(e.error),
        NullFormat(e.responseFormat), MarshalHeader(e.responseHeaders),
        EncodeBody(e.request), EncodeBody(e.response),
        UnixMilli(e.startedAt), NullTime(e.finishedAt), e.times)
  }

  /** The entry rebuilt by `scanEntry`. */
  function Decode(r: Row): Entry {
    Entry(r.id, DecodeAbout(r.about), r.status, if r.statusCode.Some? then r.statusCode.value else 0, StringOf(r.error),
          FormatOf(r.responseFormat), UnmarshalHeader(r.responseHeaders),
          DecodeBody(r.request), DecodeBody(r.response),
          FromMilli(r.startedAt), if r.finishedAt.None? then None else Some(FromMilli(r.finishedAt.value)), r.times)
  }

  // --- What the table keeps of an entry ---

  /** The largest whole millisecond not after t. */
  function FloorToMilli(t: int): int { t - t % NS_PER_MS }

  function NormalHeaders(h: Option<Headers>): Option<Headers> {
    if h == Some(map[]) then None else h
  }

  function NormalBody(b: Body): Body {
    if b.spilled then b.(bytes := []) else b
  }

  /** The table's normal form: times floored to milliseconds, empty headers absent, spilled previews dropped. */
  function Normalise(e: Entry): Entry {
    e.(about := e.about.(requestHeaders := NormalHeaders(e.about.requestHeaders)),
       responseHeaders := NormalHeaders(e.responseHeaders),
       request := NormalBody(e.request),
       response := NormalBody(e.response),
       startedAt := FloorToMilli(e.startedAt),
       finishedAt := if e.finishedAt.None? then None else Some(FloorToMilli(e.finishedAt.value)))
  }

  /** What every body buffer guarantees about the snapshot of a side. */
  predicate PathMatchesFlag(b: Body) { b.spilled <==> b.path != "" }

  lemma MilliRoundTrip(t: int)
    ensures FromMilli(UnixMilli(t)) == FloorToMilli(t)
    ensures FloorToMilli(t) <= t < FloorToMilli(t) + NS_PER_MS
    ensures UnixMilli(FloorToMilli(t)) == UnixMilli(t)
  {
    var q := t / NS_PER_MS;
    assert t == q * NS_PER_MS + t % NS_PER_MS;
    assert UnixMilli(FromMilli(q)) == q;
  }

  /** A body survives the table exactly when its path is set precisely when it spilled. */
  lemma BodyRoundTrip(b: Body)
    ensures DecodeBody(EncodeBody(b)) == NormalBody(b) <==> PathMatchesFlag(b)
  {
  }

  /** Storing and reading back normalises the entry, exactly when both sides have matching path and flag. */
  lemma RowRoundTrip(e: Entry)
    ensures Decode(Encode(e)) == Normalise(e) <==> PathMatchesFlag(e.request) && PathMatchesFlag(e.response)
  {
    MilliRoundTrip(e.startedAt);
    if e.finishedAt.Some? {
      MilliRoundTrip(e.finishedAt.value);
    }
    BodyRoundTrip(e.request);
    BodyRoundTrip(e.response);
  }

  /** What was read back is stored as the very same row: a second trip changes nothing. */
  lemma EncodeIdempotent(e: Entry)
    requires PathMatchesFlag(e.request) && PathMatchesFlag(e.response)
    ensures Encode(Decode(Encode(e))) == Encode(e)
    ensures Normalise(Normalise(e)) == Normalise(e)
    ensures PathMatchesFlag(Normalise(e).request) && PathMatchesFlag(Normalise(e).response)
  {
    RowRoundTrip(e);
    MilliRoundTrip(e.startedAt);
    if e.finishedAt.Some? {
      MilliRoundTrip(e.finishedAt.value);
    }
  }

  /** Two snapshots share a row exactly when the table cannot tell them apart. */
  lemma EncodeSeparates(d: Entry, e: Entry)
    requires PathMatchesFlag(d.request) && PathMatchesFlag(d.response)
    requires PathMatchesFlag(e.request) && PathMatchesFlag(e.response)
    ensures Encode(d) == Encode(e) <==> Normalise(d) == Normalise(e)
  {
    RowRoundTrip(d);
    RowRoundTrip(e);
    MilliRoundTrip(d.startedAt);
    MilliRoundTrip(e.startedAt);
    if d.finishedAt.Some? {
      MilliRoundTrip(d.finishedAt.value);
    }
    if e.finishedAt.Some? {
      MilliRoundTrip(e.finishedAt.value);
    }
  }
}
