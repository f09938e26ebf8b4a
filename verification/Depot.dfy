/** Depot manifests, file contents and the byte-level file operations of a download. */
module Depot {
  import opened Text

  type Byte = x: int | 0 <= x < 256

  type Bytes = seq<Byte>

  /** The functions a run treats as given: path normalisation and the hex SHA-1 digest. */
  datatype Host = Host(norm: string -> string, sha1: Bytes -> string)

  datatype Chunk = Chunk(id: string, offset: nat, size: nat)
  {
    function End(): nat { offset + size }
  }

  datatype Entry = Entry(path: string, size: nat, flags: bv32, sha1: string, depotID: nat, chunks: seq<Chunk>)
  {
    /** Directory nodes carry flag 0x40 or a trailing separator. */
    predicate IsDir()
    {
      flags & 0x40 != 0 || HasSuffix(path, "/") || HasSuffix(path, "\\")
    }
  }

  lemma {:induction false} PlainPath(e: Entry)
    requires e.flags == 0 && |e.path| == 1 && e.path[0] != '/' && e.path[0] != '\\'
    ensures !e.IsDir()
  {
    assert e.path[0..][0] == e.path[0];
    assert "/"[0] == '/' && "\\"[0] == '\\';
  }

  /** The digest `id` belongs to `data` and to nothing else. */
  ghost predicate Identifies(h: Host, id: string, data: Bytes)
  {
    forall x: Bytes :: EqualFold(h.sha1(x), id) <==> x == data
  }

  // ---- File contents ----

  function Zeros(n: nat): (z: Bytes)
    ensures |z| == n && forall i :: 0 <= i < n ==> z[i] == 0
  {
    seq(n, i => 0)
  }

  /** A file read as if it went on with zeros for ever: extending a file never changes it. */
  function At(f: Bytes, i: nat): Byte
  {
    if i < |f| then f[i] else 0
  }

  /** Truncate: cut the file or pad it with zeros to exactly n bytes. */
  function Resize(f: Bytes, n: nat): (r: Bytes)
    ensures |r| == n && forall i: nat :: i < n ==> At(r, i) == At(f, i)
  {
    if n <= |f| then f[..n] else f + Zeros(n - |f|)
  }

  /** PreallocateFile: only ever makes the file longer. */
  function Preallocate(f: Bytes, n: nat): (r: Bytes)
    ensures |r| == (if n <= |f| then |f| else n) && forall i: nat :: At(r, i) == At(f, i)
  {
    if n <= |f| then f else Resize(f, n)
  }

  /** WriteAt: overwrite from `off`, padding any gap with zeros. */
  function WriteAt(f: Bytes, off: nat, data: Bytes): (r: Bytes)
    ensures forall i: nat :: off <= i < off + |data| ==> At(r, i) == data[i - off]
    ensures forall i: nat :: i < off || off + |data| <= i ==> At(r, i) == At(f, i)
    ensures |r| == if data == [] || off + |data| <= |f| then |f| else off + |data|
  {
    if data == [] then f else
      var g := Preallocate(f, off + |data|);
      g[..off] + data + g[off + |data|..]
  }

  function Slice(t: Bytes, c: Chunk): Bytes
    requires c.End() <= |t|
  {
    t[c.offset..c.End()]
  }

  /** IsChunkValidOnDisk: an empty chunk always is; otherwise a 40-character id must match the bytes read. */
  predicate ValidOnDisk(h: Host, f: Bytes, c: Chunk)
  {
    c.size == 0 || (|c.id| == 40 && c.End() <= |f| && EqualFold(h.sha1(Slice(f, c)), c.id))
  }

  /** The file carries the bytes of `t` all over chunk `c`. */
  ghost predicate Holds(f: Bytes, c: Chunk, t: Bytes)
  {
    forall i: nat :: c.offset <= i < c.End() ==> At(f, i) == At(t, i)
  }

  // ---- Well-formed entries ----

  predicate Disjoint(a: Chunk, b: Chunk)
  {
    a.End() <= b.offset || b.End() <= a.offset
  }

  ghost predicate Covered(chunks: seq<Chunk>, i: nat)
  {
    exists k :: 0 <= k < |chunks| && chunks[k].offset <= i < chunks[k].End()
  }

  /** The chunks, in any order, are pairwise disjoint and cover exactly the first `n` bytes. */
  ghost predicate Tiles(chunks: seq<Chunk>, n: nat)
  {
    && (forall k :: 0 <= k < |chunks| ==> chunks[k].End() <= n)
    && (forall j, k :: 0 <= j < k < |chunks| ==> Disjoint(chunks[j], chunks[k]))
    && (forall i: nat :: i < n ==> Covered(chunks, i))
  }

  /** `t` is the content entry `e` describes: its chunks tile it and every digest identifies its bytes. */
  ghost predicate Describes(h: Host, e: Entry, t: Bytes)
  {
    && |t| == e.size
    && Tiles(e.chunks, e.size)
    && (e.sha1 != "" ==> Identifies(h, e.sha1, t))
    && forall k :: 0 <= k < |e.chunks| ==>
         |e.chunks[k].id| == 40 && Identifies(h, e.chunks[k].id, Slice(t, e.chunks[k]))
  }

  lemma SliceAt(t: Bytes, c: Chunk, i: nat)
    requires c.End() <= |t| && c.offset <= i < c.End()
    ensures Slice(t, c)[i - c.offset] == At(t, i)
  {
  }

  /** The on-disk check passes a chunk exactly if it is empty, or lies in the file and carries the described bytes. */
  lemma {:induction false} ValidExactly(h: Host, e: Entry, t: Bytes, k: nat, f: Bytes)
    requires Describes(h, e, t) && k < |e.chunks|
    ensures var c := e.chunks[k];
      ValidOnDisk(h, f, c) <==> c.size == 0 || (c.End() <= |f| && Holds(f, c, t))
  {
    var c := e.chunks[k];
    assert c.End() <= |t|;
    if c.size > 0 && c.End() <= |f| {
      SameSlices(f, t, c);
      assert EqualFold(h.sha1(Slice(f, c)), c.id) <==> Slice(f, c) == Slice(t, c);
    }
  }

  lemma {:induction false} SameSlices(f: Bytes, t: Bytes, c: Chunk)
    requires c.End() <= |f| && c.End() <= |t|
    ensures Slice(f, c) == Slice(t, c) <==> Holds(f, c, t)
  {
    if Slice(f, c) == Slice(t, c) {
      forall i: nat | c.offset <= i < c.End() ensures At(f, i) == At(t, i) {
        SliceAt(f, c, i);
        SliceAt(t, c, i);
      }
    }
    if Holds(f, c, t) {
      forall m | 0 <= m < c.size ensures Slice(f, c)[m] == Slice(t, c)[m] {
        assert At(f, c.offset + m) == At(t, c.offset + m);
      }
    }
  }

  /** A file of the right length that carries every chunk is the described content. */
  lemma AllHoldIsContent(h: Host, e: Entry, t: Bytes, f: Bytes)
    requires Describes(h, e, t) && |f| == e.size
    requires forall k :: 0 <= k < |e.chunks| ==> Holds(f, e.chunks[k], t)
    ensures f == t
  {
    forall i | 0 <= i < |t| ensures f[i] == t[i] {
      assert Covered(e.chunks, i);
      var k :| 0 <= k < |e.chunks| && e.chunks[k].offset <= i < e.chunks[k].End();
      assert Holds(f, e.chunks[k], t);
      assert At(f, i) == At(t, i);
    }
  }

  // ---- Sizes ----

  function SumSizes(chunks: seq<Chunk>): nat
  {
    if chunks == [] then 0 else SumSizes(chunks[..|chunks| - 1]) + chunks[|chunks| - 1].size
  }

  lemma {:induction false} SumAppend(chunks: seq<Chunk>, c: Chunk)
    ensures SumSizes(chunks + [c]) == SumSizes(chunks) + c.size
  {
    assert (chunks + [c])[..|chunks|] == chunks;
  }

  ghost function Range(a: nat, b: nat): set<nat>
    decreases b
  {
    if b <= a then {} else Range(a, b - 1) + {b - 1}
  }

  lemma {:induction false} RangeFacts(a: nat, b: nat)
    ensures forall i: nat :: i in Range(a, b) <==> a <= i < b
    ensures |Range(a, b)| == if a <= b then b - a else 0
    decreases b
  {
    if a < b {
      RangeFacts(a, b - 1);
    }
  }

  ghost function Positions(chunks: seq<Chunk>): set<nat>
  {
    if chunks == [] then {}
    else var c := chunks[|chunks| - 1]; Positions(chunks[..|chunks| - 1]) + Range(c.offset, c.End())
  }

  lemma {:induction false} PositionsAreCovered(chunks: seq<Chunk>, i: nat)
    ensures i in Positions(chunks) <==> Covered(chunks, i)
  {
    if chunks != [] {
      var n := |chunks| - 1;
      PositionsAreCovered(chunks[..n], i);
      RangeFacts(chunks[n].offset, chunks[n].End());
      if Covered(chunks[..n], i) {
        var k :| 0 <= k < n && chunks[..n][k].offset <= i < chunks[..n][k].End();
        assert chunks[k].offset <= i < chunks[k].End();
      }
      if Covered(chunks, i) {
        var k :| 0 <= k < |chunks| && chunks[k].offset <= i < chunks[k].End();
        if k < n {
          assert chunks[..n][k].offset <= i < chunks[..n][k].End();
        }
      }
    }
  }

  lemma {:induction false} DisjointCount(chunks: seq<Chunk>)
    requires forall j, k :: 0 <= j < k < |chunks| ==> Disjoint(chunks[j], chunks[k])
    ensures |Positions(chunks)| == SumSizes(chunks)
  {
    if chunks != [] {
      var n := |chunks| - 1;
      var c := chunks[n];
      DisjointCount(chunks[..n]);
      RangeFacts(c.offset, c.End());
      forall i | i in Positions(chunks[..n]) ensures i !in Range(c.offset, c.End()) {
        PositionsAreCovered(chunks[..n], i);
        var k :| 0 <= k < n && chunks[..n][k].offset <= i < chunks[..n][k].End();
        assert Disjoint(chunks[k], chunks[n]);
      }
      assert Positions(chunks[..n]) !! Range(c.offset, c.End());
    }
  }

  /** The chunk sizes of a tiled file add up to its size, whatever order the chunks are listed in. */
  lemma {:induction false} TilesSum(chunks: seq<Chunk>, n: nat)
    requires Tiles(chunks, n)
    ensures SumSizes(chunks) == n
  {
    DisjointCount(chunks);
    RangeFacts(0, n);
    forall i: nat ensures i in Positions(chunks) <==> i in Range(0, n) {
      PositionsAreCovered(chunks, i);
    }
    assert Positions(chunks) == Range(0, n);
  }
}
