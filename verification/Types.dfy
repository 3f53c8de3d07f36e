/** Values shared by every component: bytes, times, entries and events. */
module Types {

  datatype Option<+T> = None | Some(value: T)

  /** Failures a caller of the store can observe. */
  datatype StoreError = NotFound | FileMissing

  datatype Result<+T> = Ok(value: T) | Err(error: StoreError)

  type Byte = bv8

  type Bytes = seq<Byte>

  const NEWLINE: Byte := 10

  function Concat(pieces: seq<Bytes>): Bytes {
    if pieces == [] then [] else pieces[0] + Concat(pieces[1..])
  }

  lemma Assoc<T>(a: seq<T>, b: seq<T>, c: seq<T>)
    ensures (a + b) + c == a + (b + c)
  {
  }

  lemma Rejoin<T>(s: seq<T>, i: nat)
    requires i <= |s|
    ensures s[..i] + s[i..] == s
  {
  }

  lemma {:induction false} ConcatAppend(a: seq<Bytes>, b: seq<Bytes>)
    ensures Concat(a + b) == Concat(a) + Concat(b)
  {
    if a == [] {
      assert a + b == b;
    } else {
      assert (a + b)[1..] == a[1..] + b;
      ConcatAppend(a[1..], b);
    }
  }

  lemma ConcatOne(piece: Bytes)
    ensures Concat([piece]) == piece
  {
    assert Concat([piece]) == piece + Concat([]);
  }

  // --- Time: integer nanoseconds since the Unix epoch ---

  const NS_PER_MS := 1_000_000
  const NS_PER_SECOND := 1_000_000_000

  /** Go's zero time, the first instant of year 1. */
  const ZERO_TIME := -62135596800 * NS_PER_SECOND

  const MAX_DURATION := 0x7FFF_FFFF_FFFF_FFFF

  function UnixMilli(t: int): int { t / NS_PER_MS }

  function FromMilli(ms: int): int { ms * NS_PER_MS }

  /** Go's Time.Sub saturates at the range of a 64-bit Duration. */
  function SubTime(t: int, u: int): int {
    if t - u > MAX_DURATION then MAX_DURATION
    else if t - u < -MAX_DURATION - 1 then -MAX_DURATION - 1
    else t - u
  }

  /** Go's Duration.Milliseconds truncates toward zero. */
  function DurationMs(d: int): int {
    if d >= 0 then d / NS_PER_MS else -((-d) / NS_PER_MS)
  }

  // --- Entries ---

  datatype Side = Request | Response

  datatype Status = Unset | Pending | Done | Error

  datatype Format = NoFormat | Json | Xml | Ndjson | Sse | Raw

  type Headers = map<string, seq<string>>

  /** The four body fields of one side: inline bytes or preview, file, full size, spilled flag. */
  datatype Body = Body(bytes: Bytes, path: string, size: int, spilled: bool)

  const NO_BODY := Body([], "", 0, false)

  /** What is known of an exchange from its request alone. */
  datatype About = About(
    verb: string,
    url: string,
    requestFormat: Format,
    isOllama: bool,
    isReplay: bool,
    requestHeaders: Option<Headers>)

  /** The three durations, in milliseconds. */
  datatype Times = Times(ttfbMs: Option<int>, streamMs: Option<int>, totalMs: Option<int>)

  /** One captured exchange; the request's own fields and the durations are grouped. */
  datatype Entry = Entry(
    id: string,
    about: About,
    status: Status,
    statusCode: int,
    error: string,
    responseFormat: Format,
    responseHeaders: Option<Headers>,
    request: Body,
    response: Body,
    startedAt: int,
    finishedAt: Option<int>,
    times: Times)
  {
    function BodyOf(side: Side): Body {
      if side == Request then request else response
    }
  }

  datatype Event =
    | Created(id: string, entry: Entry)
    | Updated(id: string, entry: Entry)
    | Delta(id: string, chunk: Bytes)
    | Deleted(id: string)

  // --- Sequences of identifiers ---

  predicate NoDup<T(==)>(s: seq<T>) {
    forall i, j :: 0 <= i < j < |s| ==> s[i] != s[j]
  }

  function Elements<T(==)>(s: seq<T>): set<T> {
    set x | x in s
  }

  lemma HeadAndTail<T>(s: seq<T>)
    requires s != []
    ensures Elements(s) == {s[0]} + Elements(s[1..])
  {
    assert s == [s[0]] + s[1..];
  }

  lemma RemoveTwice<K, V>(m: map<K, V>, a: set<K>, b: set<K>)
    ensures (m - a) - b == m - (a + b)
  {
  }

  lemma SplitIds(ids: seq<string>, k: nat)
    requires NoDup(ids) && k <= |ids|
    ensures Elements(ids) == Elements(ids[..k]) + Elements(ids[k..])
    ensures Elements(ids[..k]) !! Elements(ids[k..])
  {
    assert ids == ids[..k] + ids[k..];
    assert forall i, j :: 0 <= i < k && 0 <= j < |ids| - k ==> ids[..k][i] != ids[k..][j];
  }

  /** An iteration order over a set: each element once. */
  predicate Enumerates<T(==)>(order: seq<T>, ids: set<T>) {
    NoDup(order) && Elements(order) == ids
  }

  /** Go's iteration over a map: every key once, in no promised order. */
  method Iterate(ids: set<string>) returns (order: seq<string>)
    ensures Enumerates(order, ids)
  {
    order := [];
    var todo := ids;
    while todo != {}
      invariant todo <= ids && NoDup(order) && Elements(order) == ids - todo
      decreases todo
    {
      var id :| id in todo;
      assert Elements(order + [id]) == Elements(order) + {id};
      order := order + [id];
      todo := todo - {id};
    }
  }
}
