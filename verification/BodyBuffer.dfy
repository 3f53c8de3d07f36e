/** Oversized bodies: the blob directory and the buffer that spills into it. */
module BodyBuffers {
  import opened Types

  /** The blob directory: file name to contents. */
  type Disk = map<string, Bytes>

  // --- File names ---

  function SideName(side: Side): string {
    if side == Request then "request" else "response"
  }

  function BlobName(id: string, side: Side): string { id + "-" + SideName(side) }

  /** Index of the last '-', or -1. */
  function LastDash(name: string): (i: int)
    ensures -1 <= i < |name|
    ensures i >= 0 ==> name[i] == '-'
    ensures forall j :: i < j < |name| ==> name[j] != '-'
  {
    if name == [] then -1
    else if name[|name| - 1] == '-' then |name| - 1
    else LastDash(name[..|name| - 1])
  }

  /** The id a file is attributed to at startup. */
  function OwnerOf(name: string): string {
    var i := LastDash(name);
    if i > 0 then name[..i] else name
  }

  /** A file name leads back to its entry, for every id but the empty one. */
  lemma OwnerOfBlobName(id: string, side: Side)
    ensures OwnerOf(BlobName(id, side)) == id <==> id != ""
  {
    var name := BlobName(id, side);
    assert forall j :: |id| < j < |name| ==> name[j] == SideName(side)[j - |id| - 1];
    assert name[|id|] == '-';
    assert LastDash(name) == |id|;
    assert name[..|id|] == id;
  }

  /** Distinct sides and distinct ids never share a file. */
  lemma BlobNamesDiffer(id: string, side: Side, other: string, otherSide: Side)
    requires id != "" && other != ""
    ensures BlobName(id, side) == BlobName(other, otherSide) <==> id == other && side == otherSide
  {
    OwnerOfBlobName(id, side);
    OwnerOfBlobName(other, otherSide);
    assert |BlobName(id, side)| == |id| + 1 + |SideName(side)|;
    assert |BlobName(other, otherSide)| == |other| + 1 + |SideName(otherSide)|;
  }

  // --- The buffer as a value ---

  /** Preview, full size, path once spilled, and whether the file handle is open. */
  datatype Buf = Buf(preview: Bytes, size: nat, path: string, open: bool)

  const EMPTY_BUF := Buf([], 0, "", false)

  function Min(a: int, b: int): int { if a <= b then a else b }

  /** Bytes written through an open handle; lost to the directory once the name was unlinked. */
  function AppendFile(disk: Disk, name: string, p: Bytes): Disk {
    if name in disk then disk[name := disk[name] + p] else disk
  }

  /** One call of `bodyBuffer.Write`. */
  function BufWrite(b: Buf, disk: Disk, name: string, maxInline: nat, p: Bytes): (Buf, Disk) {
    if p == [] then (b, disk)
    else if !b.open && b.size + |p| <= maxInline then
      (b.(preview := b.preview + p, size := b.size + |p|), disk)
    else
      var created := if b.open then disk else disk[name := b.preview];
      var room := maxInline - |b.preview|;
      var preview := if room > 0 then b.preview + p[..Min(room, |p|)] else b.preview;
      (Buf(preview, b.size + |p|, if b.open then b.path else name, true), AppendFile(created, name, p))
  }

  function BufClose(b: Buf): Buf { b.(open := false) }

  function StateOf(b: Buf): Body { Body(b.preview, b.path, b.size, b.path != "") }

  function BufWriteAll(b: Buf, disk: Disk, name: string, maxInline: nat, ps: seq<Bytes>): (Buf, Disk)
    decreases |ps|
  {
    if ps == [] then (b, disk)
    else
      var (b1, disk1) := BufWrite(b, disk, name, maxInline, ps[0]);
      BufWriteAll(b1, disk1, name, maxInline, ps[1..])
  }

  // --- What a buffer holds ---

  /** The buffer and its file together hold exactly the bytes w. */
  predicate Holds(b: Buf, disk: Disk, name: string, maxInline: nat, w: Bytes) {
    && b.size == |w|
    && b.preview == w[..Min(|w|, maxInline)]
    && b.path == (if |w| > maxInline then name else "")
    && (|w| > maxInline ==> name in disk && disk[name] == w)
    && (|w| <= maxInline ==> name !in disk)
  }

  /** The handle is open exactly while a spilled buffer has not been closed. */
  predicate Writable(b: Buf) { b.open <==> b.path != "" }

  lemma WriteHolds(b: Buf, disk: Disk, name: string, maxInline: nat, w: Bytes, p: Bytes)
    requires name != "" && Holds(b, disk, name, maxInline, w) && Writable(b)
    ensures var (b', disk') := BufWrite(b, disk, name, maxInline, p);
            Holds(b', disk', name, maxInline, w + p) && Writable(b')
    ensures var (b', disk') := BufWrite(b, disk, name, maxInline, p);
            disk' - {name} == disk - {name}
  {
    if p == [] {
      assert w + p == w;
    } else if !b.open && b.size + |p| <= maxInline {
      assert w[..Min(|w|, maxInline)] == w;
      assert (w + p)[..Min(|w + p|, maxInline)] == w + p;
    } else {
      var (b', disk') := BufWrite(b, disk, name, maxInline, p);
      if b.open {
        assert b'.preview == (w + p)[..Min(|w + p|, maxInline)];
      } else {
        assert b.preview == w;
        assert b'.preview == (w + p)[..Min(|w + p|, maxInline)];
      }
      assert disk' - {name} == disk - {name};
    }
  }

  /** After any writes the buffer holds their concatenation, and no other file has changed. */
  lemma {:induction false} WriteAllHolds(b: Buf, disk: Disk, name: string, maxInline: nat, w: Bytes, ps: seq<Bytes>)
    requires name != "" && Holds(b, disk, name, maxInline, w) && Writable(b)
    ensures var (b', disk') := BufWriteAll(b, disk, name, maxInline, ps);
            Holds(b', disk', name, maxInline, w + Concat(ps)) && Writable(b')
    ensures BufWriteAll(b, disk, name, maxInline, ps).1 - {name} == disk - {name}
    decreases |ps|
  {
    if ps == [] {
      assert w + Concat(ps) == w;
    } else {
      var (b1, disk1) := BufWrite(b, disk, name, maxInline, ps[0]);
      WriteHolds(b, disk, name, maxInline, w, ps[0]);
      WriteAllHolds(b1, disk1, name, maxInline, w + ps[0], ps[1..]);
      assert w + Concat(ps) == (w + ps[0]) + Concat(ps[1..]);
    }
  }

  /** Two directories that agree on one file and on all the others are the same. */
  lemma SameDisk(d: Disk, e: Disk, name: string)
    requires d - {name} == e - {name}
    requires (name in d <==> name in e) && (name in d ==> d[name] == e[name])
    ensures d == e
  {
    forall n
      ensures (n in d <==> n in e) && (n in d ==> d[n] == e[n])
    {
      if n != name {
        assert n in d <==> n in d - {name};
        assert n in e <==> n in e - {name};
        assert n in d ==> (d - {name})[n] == d[n] && (e - {name})[n] == e[n];
      }
    }
    assert d.Keys == e.Keys;
  }

  /** A buffer and its file are determined by the bytes they hold. */
  lemma HoldsDetermines(b: Buf, d: Disk, c: Buf, e: Disk, name: string, maxInline: nat, w: Bytes)
    requires Holds(b, d, name, maxInline, w) && Writable(b)
    requires Holds(c, e, name, maxInline, w) && Writable(c)
    ensures b == c && (name in d <==> name in e) && (name in d ==> d[name] == e[name])
  {
  }

  /** A fresh buffer ends in the same state, on the same disk, however the same bytes were cut into writes. */
  lemma ChunkingIndependent(disk: Disk, name: string, maxInline: nat, ps: seq<Bytes>, qs: seq<Bytes>)
    requires name != "" && name !in disk
    requires Concat(ps) == Concat(qs)
    ensures BufWriteAll(EMPTY_BUF, disk, name, maxInline, ps) == BufWriteAll(EMPTY_BUF, disk, name, maxInline, qs)
  {
    WriteAllHolds(EMPTY_BUF, disk, name, maxInline, [], ps);
    WriteAllHolds(EMPTY_BUF, disk, name, maxInline, [], qs);
    var (b, d) := BufWriteAll(EMPTY_BUF, disk, name, maxInline, ps);
    var (c, e) := BufWriteAll(EMPTY_BUF, disk, name, maxInline, qs);
    HoldsDetermines(b, d, c, e, name, maxInline, [] + Concat(ps));
    SameDisk(d, e, name);
  }

  /** A write that arrives after Close keeps the body intact exactly when the buffer had not spilled:
      otherwise the file is created anew and restarts from the preview. */
  lemma LateWrite(b: Buf, disk: Disk, name: string, maxInline: nat, w: Bytes, p: Bytes)
    requires name != "" && p != [] && Holds(b, disk, name, maxInline, w) && Writable(b)
    ensures var (b', disk') := BufWrite(BufClose(b), disk, name, maxInline, p);
            Holds(b', disk', name, maxInline, w + p) <==> |w| <= maxInline
  {
    if |w| <= maxInline {
      assert BufClose(b) == b;
      WriteHolds(b, disk, name, maxInline, w, p);
    } else {
      var (b', disk') := BufWrite(BufClose(b), disk, name, maxInline, p);
      assert |disk'[name]| == maxInline + |p|;
    }
  }

  // --- The classes ---

  class BlobDir {
    var files: Disk

    constructor (files: Disk)
      ensures this.files == files
    {
      this.files := files;
    }

    method Create(name: string)
      modifies this
      ensures files == old(files)[name := []]
    {
      files := files[name := []];
    }

    method Append(name: string, p: Bytes)
      modifies this
      ensures files == AppendFile(old(files), name, p)
    {
      if name in files {
        files := files[name := files[name] + p];
      }
    }

    /** Removing a file that is not there does nothing. */
    method Remove(name: string)
      modifies this
      ensures files == old(files) - {name}
    {
      files := files - {name};
    }

    /** After this neither side of the id has a file. */
    method RemoveFor(id: string)
      modifies this
      ensures files == old(files) - {BlobName(id, Request), BlobName(id, Response)}
    {
      var sides := [Request, Response];
      for i := 0 to 2
        invariant files == old(files) - (set k: nat | k < i :: BlobName(id, sides[k]))
      {
        Remove(BlobName(id, sides[i]));
      }
      assert (set k: nat | k < 2 :: BlobName(id, sides[k])) == {BlobName(id, Request), BlobName(id, Response)} by {
        assert sides[0] == Request && sides[1] == Response;
      }
    }

    method RemoveAll()
      modifies this
      ensures files == map[]
    {
      var names := files.Keys;
      while names != {}
        invariant names == files.Keys
        decreases names
      {
        var name :| name in names;
        Remove(name);
        names := names - {name};
      }
    }

    /** Drops the files whose owner is not among the known ids. */
    method RemoveOrphans(known: seq<string>)
      modifies this
      ensures files == map n | n in old(files) && OwnerOf(n) in known :: old(files)[n]
    {
      var names := files.Keys;
      while names != {}
        invariant names <= old(files).Keys
        invariant files == map n | n in old(files) && (n in names || OwnerOf(n) in known) :: old(files)[n]
        decreases names
      {
        var name :| name in names;
        if OwnerOf(name) !in known {
          Remove(name);
        }
        names := names - {name};
      }
    }
  }

  class BodyBuffer {
    const dir: BlobDir
    const id: string
    const side: Side
    const maxInline: nat
    var preview: Bytes
    var size: nat
    var path: string
    var file: bool

    ghost function View(): Buf
      reads this
    {
      Buf(preview, size, path, file)
    }

    constructor (dir: BlobDir, id: string, side: Side, maxInline: nat)
      ensures this.dir == dir && this.id == id && this.side == side && this.maxInline == maxInline
      ensures View() == EMPTY_BUF
    {
      this.dir, this.id, this.side, this.maxInline := dir, id, side, maxInline;
      preview, size, path, file := [], 0, "", false;
    }

    method Write(p: Bytes)
      modifies this, dir
      ensures (View(), dir.files) == BufWrite(old(View()), old(dir.files), BlobName(id, side), maxInline, p)
    {
      if |p| == 0 {
        return;
      }
      var name := BlobName(id, side);
      if !file && size + |p| <= maxInline {
        preview := preview + p;
        size := size + |p|;
        return;
      }
      if !file {
        dir.Create(name);
        dir.Append(name, preview);
        assert [] + preview == preview;
        assert dir.files == old(dir.files)[name := preview];
        file, path := true, name;
      }
      dir.Append(name, p);
      size := size + |p|;
      var room := maxInline - |preview|;
      if room > 0 {
        var n := |p|;
        if n > room {
          n := room;
        }
        preview := preview + p[..n];
      }
    }

    method Close()
      modifies this
      ensures View() == BufClose(old(View()))
    {
      if file {
        file := false;
      }
    }

    method State() returns (b: Body)
      ensures b == StateOf(View())
    {
      b := Body(preview, path, size, path != "");
    }
  }
}
