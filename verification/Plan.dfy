/** The per-file plan of a download: which chunks are skipped, which are fetched, and when that is right. */
module Plan {
  import opened Text
  import opened Depot

  /** The checkpoint key of a chunk: normalised path, lower-case id, offset. */
  function ChunkKey(h: Host, path: string, c: Chunk): string
  {
    h.norm(path) + ":" + ToLower(c.id) + "@" + Decimal(c.offset)
  }

  /** What pendingChunks looks at: checkpoint marks, ids the delta claims unchanged, and the file as it was
      before opening (existed, size0) and as it reads now (file). */
  datatype Context = Context(h: Host, path: string, marks: set<string>, claims: set<string>,
                             existed: bool, size0: nat, file: Bytes)
  {
    function Key(c: Chunk): string { ChunkKey(h, path, c) }

    /** Skipped without looking at the disk. */
    predicate Trusts(c: Chunk) { Key(c) in marks || c.id in claims }

    predicate Verifies(c: Chunk) { existed && c.End() <= size0 && ValidOnDisk(h, file, c) }
  }

  datatype Result = Result(pending: seq<Chunk>, marks: set<string>)

  /** The outcome of scanning `chunks` in order; every skipped chunk is marked at once. */
  function Scan(x: Context, chunks: seq<Chunk>): Result
  {
    if chunks == [] then Result([], x.marks) else
      var r := Scan(x, chunks[..|chunks| - 1]);
      var c := chunks[|chunks| - 1];
      if x.(marks := r.marks).Trusts(c) || x.Verifies(c) then r.(marks := r.marks + {x.Key(c)})
      else r.(pending := r.pending + [c])
  }

  ghost function Keys(x: Context, chunks: seq<Chunk>): set<string>
  {
    set c | c in chunks :: x.Key(c)
  }

  /** The chunks taken on trust carry the right bytes. */
  ghost predicate TrustJustified(x: Context, e: Entry, t: Bytes)
  {
    forall k :: 0 <= k < |e.chunks| && x.Trusts(e.chunks[k]) ==> Holds(x.file, e.chunks[k], t)
  }

  /** The exact condition for one file to come out right. */
  ghost predicate Converges(x: Context, e: Entry, t: Bytes)
  {
    TrustJustified(x, e, t) || (e.sha1 != "" && Scan(x, e.chunks).pending != [])
  }

  /** Bytes of `t` over the chunks of `fetched`, bytes of `f` everywhere else. */
  ghost predicate Overlays(g: Bytes, f: Bytes, fetched: seq<Chunk>, t: Bytes, n: nat)
  {
    |g| == n && forall i: nat :: i < n ==> At(g, i) == if Covered(fetched, i) then At(t, i) else At(f, i)
  }

  // ---- Checkpoint keys ----

  lemma SameSuffix(a: string, b: string, x: string, y: string)
    requires a + x == b + y && |x| == |y|
    ensures a == b && x == y
  {
    assert |a| == |b|;
    assert (a + x)[..|a|] == a && (b + y)[..|b|] == b;
    assert (a + x)[|a|..] == x && (b + y)[|b|..] == y;
  }

  /** Digits after the last '@' end a key in one way only. */
  lemma SameDigits(a: string, d: string, b: string, e: string)
    requires a + ("@" + d) == b + ("@" + e)
    requires forall i :: 0 <= i < |d| ==> d[i] != '@'
    requires forall i :: 0 <= i < |e| ==> e[i] != '@'
    ensures |d| == |e|
  {
    var key := a + ("@" + d);
    assert key[|a|] == '@' && key[|b|] == '@';
    assert forall i :: |a| < i < |key| ==> key[i] == d[i - |a| - 1];
    assert forall i :: |b| < i < |key| ==> key[i] == e[i - |b| - 1];
  }

  /** Chunks with 40-character ids share a checkpoint key only if path, id and offset agree. */
  lemma KeyIdentifiesChunk(h: Host, p: string, a: Chunk, q: string, b: Chunk)
    requires |a.id| == 40 && |b.id| == 40 && ChunkKey(h, p, a) == ChunkKey(h, q, b)
    ensures h.norm(p) == h.norm(q) && EqualFold(a.id, b.id) && a.offset == b.offset
  {
    var d, e := Decimal(a.offset), Decimal(b.offset);
    var s, u := h.norm(p) + ":" + ToLower(a.id), h.norm(q) + ":" + ToLower(b.id);
    var key := ChunkKey(h, p, a);
    assert key == s + ("@" + d) && key == u + ("@" + e);
    SameDigits(s, d, u, e);
    SameSuffix(s, u, "@" + d, "@" + e);
    assert ("@" + d)[1..] == d && ("@" + e)[1..] == e;
    SameSuffix(h.norm(p) + ":", h.norm(q) + ":", ToLower(a.id), ToLower(b.id));
    SameSuffix(h.norm(p), h.norm(q), ":", ":");
    DecimalInjective(a.offset, b.offset);
  }

  /** They share it exactly if path, id in any casing and offset agree. */
  lemma {:induction false} KeysAgree(h: Host, p: string, a: Chunk, q: string, b: Chunk)
    requires |a.id| == 40 && |b.id| == 40
    ensures ChunkKey(h, p, a) == ChunkKey(h, q, b) <==> h.norm(p) == h.norm(q) && EqualFold(a.id, b.id) && a.offset == b.offset
  {
    if ChunkKey(h, p, a) == ChunkKey(h, q, b) {
      KeyIdentifiesChunk(h, p, a, q, b);
    }
  }

  // ---- The scan ----

  lemma {:induction false} KeysAppend(x: Context, chunks: seq<Chunk>, c: Chunk)
    ensures Keys(x, chunks + [c]) == Keys(x, chunks) + {x.Key(c)}
  {
    assert forall d :: d in chunks + [c] <==> d in chunks || d == c;
  }

  /** The scan only adds marks of its own chunks, and marks and pending chunks account for all of them. */
  lemma {:induction false} ScanMarks(x: Context, chunks: seq<Chunk>)
    ensures x.marks <= Scan(x, chunks).marks
    ensures Scan(x, chunks).marks + Keys(x, Scan(x, chunks).pending) == x.marks + Keys(x, chunks)
  {
    if chunks != [] {
      var n := |chunks| - 1;
      ScanMarks(x, chunks[..n]);
      KeysAppend(x, chunks[..n], chunks[n]);
      KeysAppend(x, Scan(x, chunks[..n]).pending, chunks[n]);
      assert chunks == chunks[..n] + [chunks[n]];
    }
  }

  lemma {:induction false} PendingAreUntrusted(x: Context, chunks: seq<Chunk>)
    ensures x.marks <= Scan(x, chunks).marks
    ensures forall c :: c in Scan(x, chunks).pending ==> c in chunks && !x.Trusts(c) && !x.Verifies(c)
  {
    if chunks != [] {
      var n := |chunks| - 1;
      PendingAreUntrusted(x, chunks[..n]);
      assert chunks == chunks[..n] + [chunks[n]];
    }
  }

  lemma {:induction false} TrustedAreSkipped(x: Context, chunks: seq<Chunk>)
    requires forall k :: 0 <= k < |chunks| ==> x.Trusts(chunks[k])
    ensures Scan(x, chunks).pending == []
  {
    if chunks != [] {
      var n := |chunks| - 1;
      assert forall k :: 0 <= k < n ==> chunks[..n][k] == chunks[k];
      TrustedAreSkipped(x, chunks[..n]);
      PendingAreUntrusted(x, chunks[..n]);
    }
  }

  /** One more chunk of a list: its prefix sums, keys and scan. */
  lemma {:induction false} PrefixStep(x: Context, chunks: seq<Chunk>, i: nat)
    requires i < |chunks|
    ensures SumSizes(chunks[..i + 1]) == SumSizes(chunks[..i]) + chunks[i].size
    ensures Keys(x, chunks[..i + 1]) == Keys(x, chunks[..i]) + {x.Key(chunks[i])}
    ensures var r, c := Scan(x, chunks[..i]), chunks[i];
      Scan(x, chunks[..i + 1]) ==
        if x.(marks := r.marks).Trusts(c) || x.Verifies(c) then r.(marks := r.marks + {x.Key(c)})
        else r.(pending := r.pending + [c])
  {
    assert chunks[..i + 1] == chunks[..i] + [chunks[i]];
    SumAppend(chunks[..i], chunks[i]);
    KeysAppend(x, chunks[..i], chunks[i]);
    assert chunks[..i + 1][..i] == chunks[..i];
  }

  /** A chunk the scan skips is trusted, passes the disk check, or repeats the key of one that does. */
  lemma {:induction false} SkipReason(x: Context, chunks: seq<Chunk>, k: nat) returns (j: nat)
    requires k < |chunks| && chunks[k] !in Scan(x, chunks).pending
    ensures j <= k && x.Key(chunks[j]) == x.Key(chunks[k])
    ensures x.Trusts(chunks[k]) || x.Verifies(chunks[k]) || (j < k && x.Verifies(chunks[j]))
            || (j < k && x.Trusts(chunks[j]))
  {
    var n := |chunks| - 1;
    var r := Scan(x, chunks[..n]);
    if k < n {
      assert chunks[..n][k] == chunks[k];
      j := SkipReason(x, chunks[..n], k);
    } else if x.Trusts(chunks[n]) || x.Verifies(chunks[n]) {
      j := n;
    } else {
      j := MarkReason(x, chunks[..n], x.Key(chunks[n]));
    }
  }

  lemma {:induction false} MarkReason(x: Context, chunks: seq<Chunk>, key: string) returns (j: nat)
    requires key in Scan(x, chunks).marks && key !in x.marks
    ensures j < |chunks| && x.Key(chunks[j]) == key && (x.Trusts(chunks[j]) || x.Verifies(chunks[j]))
  {
    var n := |chunks| - 1;
    if key in Scan(x, chunks[..n]).marks {
      j := MarkReason(x, chunks[..n], key);
    } else {
      j := n;
    }
  }

  /** If trust is justified, every chunk the scan skips carries its bytes. */
  lemma {:induction false} SkippedChunksHold(x: Context, e: Entry, t: Bytes, k: nat)
    requires Describes(x.h, e, t) && TrustJustified(x, e, t)
    requires k < |e.chunks| && e.chunks[k] !in Scan(x, e.chunks).pending
    ensures Holds(x.file, e.chunks[k], t)
  {
    var j := SkipReason(x, e.chunks, k);
    if x.Verifies(e.chunks[k]) {
      ValidExactly(x.h, e, t, k, x.file);
    } else if !x.Trusts(e.chunks[k]) {
      KeyIdentifiesChunk(x.h, x.path, e.chunks[j], x.path, e.chunks[k]);
      assert Disjoint(e.chunks[j], e.chunks[k]);
      if e.chunks[k].size > 0 {
        assert e.chunks[j].size == 0;
        SameDigestSameSize(x.h, e, t, j, k);
      }
    }
  }

  /** A chunk that is in place is not fetched, whatever the marks and the claims are. */
  lemma {:induction false} InPlaceIsSkipped(x: Context, e: Entry, t: Bytes, k: nat)
    requires Describes(x.h, e, t) && k < |e.chunks| && x.existed
    requires e.chunks[k].End() <= x.size0 && e.chunks[k].End() <= |x.file| && Holds(x.file, e.chunks[k], t)
    ensures e.chunks[k] !in Scan(x, e.chunks).pending
  {
    ValidExactly(x.h, e, t, k, x.file);
    PendingAreUntrusted(x, e.chunks);
  }

  /** A file that is right already: nothing is fetched. */
  lemma {:induction false} IntactFile(x: Context, e: Entry, t: Bytes)
    requires Describes(x.h, e, t) && x.existed && x.file == t && x.size0 == |t|
    ensures Scan(x, e.chunks).pending == [] && TrustJustified(x, e, t)
  {
    PendingAreUntrusted(x, e.chunks);
    if Scan(x, e.chunks).pending != [] {
      var k := SomeChunk(Scan(x, e.chunks).pending, e.chunks);
      InPlaceIsSkipped(x, e, t, k);
    }
  }

  lemma SomeChunk(some: seq<Chunk>, chunks: seq<Chunk>) returns (k: nat)
    requires some != [] && forall c :: c in some ==> c in chunks
    ensures k < |chunks| && chunks[k] in some
  {
    var c := some[0];
    assert c in some && c in chunks;
    k :| 0 <= k < |chunks| && chunks[k] == c;
  }

  /** A file that was not there, with no mark of its own: every chunk is fetched. */
  lemma {:induction false} MissingFile(x: Context, chunks: seq<Chunk>)
    requires !x.existed && forall k :: 0 <= k < |chunks| ==> !x.Trusts(chunks[k])
    ensures Scan(x, chunks) == Result(chunks, x.marks)
  {
    if chunks != [] {
      var n := |chunks| - 1;
      assert forall k :: 0 <= k < n ==> chunks[..n][k] == chunks[k];
      MissingFile(x, chunks[..n]);
      assert chunks == chunks[..n] + [chunks[n]];
    }
  }

  lemma SameDigestSameSize(h: Host, e: Entry, t: Bytes, j: nat, k: nat)
    requires Describes(h, e, t) && j < |e.chunks| && k < |e.chunks|
    requires EqualFold(e.chunks[j].id, e.chunks[k].id)
    ensures e.chunks[j].size == e.chunks[k].size
  {
    var a, b := Slice(t, e.chunks[j]), Slice(t, e.chunks[k]);
    assert EqualFold(h.sha1(a), e.chunks[j].id);
    assert EqualFold(h.sha1(a), e.chunks[k].id);
    assert a == b;
  }

  /** A chunk taken on trust is not touched by the fetches. */
  lemma {:induction false} TrustedChunkNotFetched(x: Context, e: Entry, t: Bytes, k: nat, i: nat)
    requires Describes(x.h, e, t) && k < |e.chunks| && x.Trusts(e.chunks[k])
    requires e.chunks[k].offset <= i < e.chunks[k].End()
    ensures !Covered(Scan(x, e.chunks).pending, i)
  {
    var p := Scan(x, e.chunks).pending;
    PendingAreUntrusted(x, e.chunks);
    forall m | 0 <= m < |p| ensures !(p[m].offset <= i < p[m].End()) {
      assert p[m] in p;
      var l :| 0 <= l < |e.chunks| && e.chunks[l] == p[m];
      assert if l < k then Disjoint(e.chunks[l], e.chunks[k]) else Disjoint(e.chunks[k], e.chunks[l]);
    }
  }

  /** Without the digest fallback, a patched file is the described content exactly when trust was justified. */
  lemma {:induction false} PatchedIsContent(x: Context, e: Entry, t: Bytes, g: Bytes)
    requires Describes(x.h, e, t) && Overlays(g, x.file, Scan(x, e.chunks).pending, t, e.size)
    ensures g == t <==> TrustJustified(x, e, t)
  {
    var p := Scan(x, e.chunks).pending;
    if TrustJustified(x, e, t) {
      forall k | 0 <= k < |e.chunks| ensures Holds(g, e.chunks[k], t) {
        var c := e.chunks[k];
        if c in p {
          var m :| 0 <= m < |p| && p[m] == c;
          assert forall i :: p[m].offset <= i < p[m].End() ==> Covered(p, i);
        } else {
          SkippedChunksHold(x, e, t, k);
        }
      }
      AllHoldIsContent(x.h, e, t, g);
    } else {
      var k :| 0 <= k < |e.chunks| && x.Trusts(e.chunks[k]) && !Holds(x.file, e.chunks[k], t);
      var i: nat :| e.chunks[k].offset <= i < e.chunks[k].End() && At(x.file, i) != At(t, i);
      TrustedChunkNotFetched(x, e, t, k, i);
      assert At(g, i) != At(t, i);
    }
  }

  /** Marks that belong to other files play no part. */
  lemma {:induction false} ForeignMarks(x: Context, y: Context, chunks: seq<Chunk>)
    requires y == x.(marks := y.marks)
    requires forall c :: c in chunks ==> (x.Key(c) in x.marks <==> x.Key(c) in y.marks)
    ensures Scan(x, chunks).pending == Scan(y, chunks).pending
    ensures Scan(y, chunks).marks == y.marks + (Scan(x, chunks).marks - x.marks)
  {
    if chunks != [] {
      var n := |chunks| - 1;
      assert chunks == chunks[..n] + [chunks[n]];
      ForeignMarks(x, y, chunks[..n]);
      PendingAreUntrusted(x, chunks[..n]);
      assert chunks[n] in chunks;
      assert y.Key(chunks[n]) == x.Key(chunks[n]) && y.Verifies(chunks[n]) == x.Verifies(chunks[n]);
    }
  }
}
