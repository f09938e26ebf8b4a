/** DiffDepotManifests: chunk-level differences between an installed and a target manifest. */
module Diff {
  import opened Text
  import opened Depot

  datatype Manifest = Manifest(depotID: nat, files: seq<Entry>)

  datatype FileDiff = FileDiff(path: string, oldSize: nat, newSize: nat, total: nat,
                               kept: seq<Chunk>, missing: seq<Chunk>)

  /** `deleted` is a set: the source sorts the list only to make its order deterministic. */
  datatype DepotDiff = DepotDiff(depotID: nat, modified: map<string, FileDiff>, newFiles: seq<Entry>, deleted: set<string>)

  // ---- Specification ----

  /** Old files by normalised path; of several entries for one path the last one counts. */
  function OldFiles(h: Host, files: seq<Entry>): map<string, Entry>
  {
    if files == [] then map[] else
      var e := files[|files| - 1];
      var m := OldFiles(h, files[..|files| - 1]);
      if e.IsDir() then m else m[h.norm(e.path) := e]
  }

  /** The non-directory paths a list of files asks for. */
  function Paths(h: Host, files: seq<Entry>): set<string>
  {
    set e | e in files && !e.IsDir() :: h.norm(e.path)
  }

  function IdAt(chunks: seq<Chunk>, off: nat): Option<string>
  {
    if chunks == [] then None
    else if chunks[|chunks| - 1].offset == off then Some(chunks[|chunks| - 1].id)
    else IdAt(chunks[..|chunks| - 1], off)
  }

  predicate IsUnchanged(prev: seq<Chunk>, c: Chunk)
  {
    var id := IdAt(prev, c.offset);
    id.Some? && EqualFold(id.value, c.id)
  }

  predicate SameChunkList(a: seq<Chunk>, b: seq<Chunk>)
  {
    |a| == |b| && forall i :: 0 <= i < |a| ==> EqualFold(a[i].id, b[i].id) && a[i].offset == b[i].offset
  }

  /** Files the diff passes over: equal digest and size, or no digest to compare and equal chunk lists. */
  predicate SameFile(prev: Entry, e: Entry)
  {
    || (e.sha1 != "" && prev.sha1 != "" && EqualFold(e.sha1, prev.sha1) && e.size == prev.size)
    || ((e.sha1 == "" || prev.sha1 == "") && e.size == prev.size && SameChunkList(e.chunks, prev.chunks))
  }

  function Keep(prev: seq<Chunk>, chunks: seq<Chunk>, want: bool): (r: seq<Chunk>)
    ensures forall c :: c in r <==> c in chunks && IsUnchanged(prev, c) == want
  {
    if chunks == [] then [] else
      var c := chunks[|chunks| - 1];
      var rest := Keep(prev, chunks[..|chunks| - 1], want);
      assert chunks == chunks[..|chunks| - 1] + [c];
      if IsUnchanged(prev, c) == want then rest + [c] else rest
  }

  function DiffOf(prev: Entry, e: Entry): FileDiff
  {
    FileDiff(e.path, prev.size, e.size, |e.chunks|, Keep(prev.chunks, e.chunks, true), Keep(prev.chunks, e.chunks, false))
  }

  /** What the scan of the new files has recorded; a later entry for a path overwrites an earlier one. */
  function Modified(h: Host, prev: map<string, Entry>, files: seq<Entry>): map<string, FileDiff>
  {
    if files == [] then map[] else
      var e := files[|files| - 1];
      var m := Modified(h, prev, files[..|files| - 1]);
      var p := h.norm(e.path);
      if e.IsDir() || p !in prev || SameFile(prev[p], e) then m else m[p := DiffOf(prev[p], e)]
  }

  function Fresh(h: Host, prev: map<string, Entry>, files: seq<Entry>): seq<Entry>
  {
    if files == [] then [] else
      var e := files[|files| - 1];
      var rest := Fresh(h, prev, files[..|files| - 1]);
      if e.IsDir() || h.norm(e.path) in prev then rest else rest + [e]
  }

  // ---- The loops ----

  method IndexOldFiles(h: Host, files: seq<Entry>) returns (m: map<string, Entry>)
    ensures m == OldFiles(h, files)
  {
    m := map[];
    for i := 0 to |files|
      invariant m == OldFiles(h, files[..i])
    {
      assert files[..i + 1][..i] == files[..i];
      if !files[i].IsDir() {
        m := m[h.norm(files[i].path) := files[i]];
      }
    }
    assert files[..|files|] == files;
  }

  method CompareChunkLists(a: seq<Chunk>, b: seq<Chunk>) returns (same: bool)
    requires |a| == |b|
    ensures same == SameChunkList(a, b)
  {
    same := true;
    for i := 0 to |a|
      invariant same && forall k :: 0 <= k < i ==> EqualFold(a[k].id, b[k].id) && a[k].offset == b[k].offset
    {
      if !EqualFold(a[i].id, b[i].id) || a[i].offset != b[i].offset {
        return false;
      }
    }
  }

  method DiffChunks(prev: Entry, e: Entry) returns (d: FileDiff)
    ensures d == DiffOf(prev, e)
  {
    var ids: map<nat, string> := map[];
    for i := 0 to |prev.chunks|
      invariant forall off: nat :: off in ids <==> IdAt(prev.chunks[..i], off).Some?
      invariant forall off: nat :: off in ids ==> ids[off] == IdAt(prev.chunks[..i], off).value
    {
      assert prev.chunks[..i + 1][..i] == prev.chunks[..i];
      ids := ids[prev.chunks[i].offset := prev.chunks[i].id];
    }
    assert prev.chunks[..|prev.chunks|] == prev.chunks;
    var kept, missing := [], [];
    for i := 0 to |e.chunks|
      invariant kept == Keep(prev.chunks, e.chunks[..i], true)
      invariant missing == Keep(prev.chunks, e.chunks[..i], false)
    {
      var c := e.chunks[i];
      assert e.chunks[..i + 1][..i] == e.chunks[..i];
      if c.offset in ids && EqualFold(ids[c.offset], c.id) {
        kept := kept + [c];
      } else {
        missing := missing + [c];
      }
    }
    assert e.chunks[..|e.chunks|] == e.chunks;
    d := FileDiff(e.path, prev.size, e.size, |e.chunks|, kept, missing);
  }

  /** The original paths of the old files that are not among `kept`. */
  function Dropped(prev: map<string, Entry>, kept: set<string>): set<string>
  {
    set p | p in prev && p !in kept :: prev[p].path
  }

  function FilePaths(files: seq<Entry>): set<string>
  {
    set e | e in files && !e.IsDir() :: e.path
  }

  method ListFiles(files: seq<Entry>) returns (deleted: set<string>)
    ensures deleted == FilePaths(files)
  {
    deleted := {};
    for i := 0 to |files|
      invariant deleted == FilePaths(files[..i])
    {
      assert files[..i + 1] == files[..i] + [files[i]];
      if !files[i].IsDir() {
        deleted := deleted + {files[i].path};
      }
    }
    assert files[..|files|] == files;
  }

  /** The scan over the new files; `seen` collects the old paths that are still wanted. */
  method ScanNewFiles(h: Host, prev: map<string, Entry>, files: seq<Entry>)
    returns (modified: map<string, FileDiff>, added: seq<Entry>, seen: set<string>)
    ensures modified == Modified(h, prev, files) && added == Fresh(h, prev, files)
    ensures seen == Paths(h, files) * prev.Keys
  {
    modified, added, seen := map[], [], {};
    for i := 0 to |files|
      invariant modified == Modified(h, prev, files[..i])
      invariant added == Fresh(h, prev, files[..i])
      invariant seen == Paths(h, files[..i]) * prev.Keys
    {
      var e := files[i];
      var p := h.norm(e.path);
      ScanStep(h, prev, files, i);
      if e.IsDir() {
        continue;
      }
      if p !in prev {
        added := added + [e];
        continue;
      }
      seen := seen + {p};
      if e.sha1 != "" && prev[p].sha1 != "" && EqualFold(e.sha1, prev[p].sha1) && e.size == prev[p].size {
        continue;
      }
      if (e.sha1 == "" || prev[p].sha1 == "") && e.size == prev[p].size && |e.chunks| == |prev[p].chunks| {
        var same := CompareChunkLists(e.chunks, prev[p].chunks);
        if same {
          continue;
        }
      }
      var fd := DiffChunks(prev[p], e);
      modified := modified[p := fd];
    }
    assert files[..|files|] == files;
  }

  /** What one more new file adds. */
  lemma ScanStep(h: Host, prev: map<string, Entry>, files: seq<Entry>, i: nat)
    requires i < |files|
    ensures var e, p := files[i], h.norm(files[i].path);
      && Modified(h, prev, files[..i + 1]) ==
           (if e.IsDir() || p !in prev || SameFile(prev[p], e) then Modified(h, prev, files[..i])
            else Modified(h, prev, files[..i])[p := DiffOf(prev[p], e)])
      && Fresh(h, prev, files[..i + 1]) == (if e.IsDir() || p in prev then Fresh(h, prev, files[..i]) else Fresh(h, prev, files[..i]) + [e])
      && Paths(h, files[..i + 1]) * prev.Keys ==
           (if e.IsDir() || p !in prev then Paths(h, files[..i]) * prev.Keys else Paths(h, files[..i]) * prev.Keys + {p})
  {
    assert files[..i + 1][..i] == files[..i];
    PathsStep(h, files, i);
  }

  lemma {:induction false} PathsStep(h: Host, files: seq<Entry>, i: nat)
    requires i < |files|
    ensures Paths(h, files[..i + 1]) == Paths(h, files[..i]) + if files[i].IsDir() then {} else {h.norm(files[i].path)}
  {
    assert files[..i + 1] == files[..i] + [files[i]];
  }

  /** Files a diff reports as deleted: all of the old ones when there is no new manifest. */
  function DeletedBy(h: Host, oldM: Option<Manifest>, newM: Option<Manifest>): set<string>
  {
    var files := if oldM.Some? then oldM.value.files else [];
    if newM.None? then FilePaths(files) else Dropped(OldFiles(h, files), Paths(h, newM.value.files))
  }

  /** A missing manifest counts as an empty one: everything is then new, or everything deleted. */
  method DiffDepotManifests(h: Host, oldM: Option<Manifest>, newM: Option<Manifest>) returns (d: DepotDiff)
    ensures var prev := OldFiles(h, if oldM.Some? then oldM.value.files else []);
      var files := if newM.Some? then newM.value.files else [];
      d.modified == Modified(h, prev, files) && d.newFiles == Fresh(h, prev, files)
    ensures d.deleted == DeletedBy(h, oldM, newM)
    ensures d.depotID == if newM.Some? then newM.value.depotID else if oldM.Some? then oldM.value.depotID else 0
  {
    var id := if newM.Some? then newM.value.depotID else if oldM.Some? then oldM.value.depotID else 0;
    if newM.None? {
      var deleted := {};
      if oldM.Some? {
        deleted := ListFiles(oldM.value.files);
      }
      return DepotDiff(id, map[], [], deleted);
    }
    var prev := map[];
    if oldM.Some? {
      prev := IndexOldFiles(h, oldM.value.files);
    }
    var modified, added, seen := ScanNewFiles(h, prev, newM.value.files);
    assert Dropped(prev, seen) == Dropped(prev, Paths(h, newM.value.files));
    d := DepotDiff(id, modified, added, Dropped(prev, seen));
  }

  // ---- What the diff means ----

  lemma {:induction false} IdAtFound(chunks: seq<Chunk>, off: nat) returns (k: nat)
    requires IdAt(chunks, off).Some?
    ensures k < |chunks| && chunks[k].offset == off && chunks[k].id == IdAt(chunks, off).value
    ensures forall j :: k < j < |chunks| ==> chunks[j].offset != off
  {
    var n := |chunks| - 1;
    if chunks[n].offset == off {
      k := n;
    } else {
      k := IdAtFound(chunks[..n], off);
    }
  }

  /** Two equal digests that identify contents identify the same content. */
  lemma SameIdSameData(h: Host, a: string, b: string, x: Bytes, y: Bytes)
    requires Identifies(h, a, x) && Identifies(h, b, y) && EqualFold(a, b)
    ensures x == y
  {
    assert EqualFold(h.sha1(x), a);
    assert EqualFold(h.sha1(x), b);
  }

  /** A chunk the diff calls unchanged has the same bytes at the same place in the old and the new content. */
  lemma UnchangedChunkHolds(h: Host, prev: Entry, e: Entry, was: Bytes, t: Bytes, k: nat)
    requires Describes(h, prev, was) && Describes(h, e, t)
    requires k < |e.chunks| && IsUnchanged(prev.chunks, e.chunks[k])
    ensures Holds(was, e.chunks[k], t) && e.chunks[k].End() <= |was|
  {
    var c := e.chunks[k];
    var j := IdAtFound(prev.chunks, c.offset);
    var o := prev.chunks[j];
    SameIdSameData(h, o.id, c.id, Slice(was, o), Slice(t, c));
    assert |Slice(was, o)| == o.size && |Slice(t, c)| == c.size;
    forall i: nat | c.offset <= i < c.End() ensures At(was, i) == At(t, i) {
      assert At(was, i) == Slice(was, o)[i - c.offset] && At(t, i) == Slice(t, c)[i - c.offset];
    }
  }

  /** The old entry of a path is the last regular one listed for it. */
  lemma {:induction false} OldFilesAre(h: Host, files: seq<Entry>, p: string)
    ensures p in OldFiles(h, files) <==> exists k :: LastFor(h, files, p, k)
    ensures forall k :: LastFor(h, files, p, k) ==> OldFiles(h, files)[p] == files[k]
  {
    if files != [] {
      var n := |files| - 1;
      var front := files[..n];
      OldFilesAre(h, front, p);
      if IsFor(h, files[n], p) {
        assert LastFor(h, files, p, n);
        assert forall k :: LastFor(h, files, p, k) ==> k == n;
      } else {
        assert forall k :: LastFor(h, files, p, k) <==> LastFor(h, front, p, k);
      }
    }
  }

  predicate IsFor(h: Host, e: Entry, p: string)
  {
    !e.IsDir() && h.norm(e.path) == p
  }

  predicate LastFor(h: Host, files: seq<Entry>, p: string, k: int)
  {
    0 <= k < |files| && IsFor(h, files[k], p) && forall j :: k < j < |files| ==> !IsFor(h, files[j], p)
  }

  /** New files are the regular ones without an old entry, in order. */
  lemma {:induction false} FreshAre(h: Host, prev: map<string, Entry>, files: seq<Entry>)
    ensures forall e :: e in Fresh(h, prev, files) <==> e in files && !e.IsDir() && h.norm(e.path) !in prev
  {
    if files != [] {
      var n := |files| - 1;
      FreshAre(h, prev, files[..n]);
      assert files == files[..n] + [files[n]];
    }
  }

  /** Files the diff passes over have the same content. */
  lemma {:induction false} SameFileSameContent(h: Host, prev: Entry, e: Entry, was: Bytes, t: Bytes)
    requires Describes(h, prev, was) && Describes(h, e, t) && SameFile(prev, e)
    ensures was == t
  {
    if e.sha1 != "" && prev.sha1 != "" && EqualFold(e.sha1, prev.sha1) {
      SameIdSameData(h, prev.sha1, e.sha1, was, t);
    } else {
      forall k | 0 <= k < |e.chunks| ensures Holds(was, e.chunks[k], t) {
        SameChunkHolds(h, prev, e, was, t, k);
      }
      AllHoldIsContent(h, e, t, was);
    }
  }

  lemma SameChunkHolds(h: Host, prev: Entry, e: Entry, was: Bytes, t: Bytes, k: nat)
    requires Describes(h, prev, was) && Describes(h, e, t) && k < |e.chunks| == |prev.chunks|
    requires EqualFold(e.chunks[k].id, prev.chunks[k].id) && e.chunks[k].offset == prev.chunks[k].offset
    ensures Holds(was, e.chunks[k], t)
  {
    var o, c := prev.chunks[k], e.chunks[k];
    SameIdSameData(h, o.id, c.id, Slice(was, o), Slice(t, c));
    assert |Slice(was, o)| == o.size && |Slice(t, c)| == c.size;
    SameSlices(was, t, c);
  }

  /** Files with the same content are passed over if both have a digest, or if one has none and both are cut alike. */
  lemma {:induction false} SameContentSameFile(h: Host, prev: Entry, e: Entry, t: Bytes)
    requires Describes(h, prev, t) && Describes(h, e, t)
    requires (e.sha1 != "" && prev.sha1 != "") || SameCuts(prev, e)
    ensures SameFile(prev, e)
  {
    if e.sha1 != "" && prev.sha1 != "" {
      assert EqualFold(h.sha1(t), e.sha1) && EqualFold(h.sha1(t), prev.sha1);
    } else {
      forall i | 0 <= i < |e.chunks| ensures EqualFold(e.chunks[i].id, prev.chunks[i].id) && e.chunks[i].offset == prev.chunks[i].offset {
        assert EqualFold(h.sha1(Slice(t, e.chunks[i])), e.chunks[i].id) && EqualFold(h.sha1(Slice(t, prev.chunks[i])), prev.chunks[i].id);
      }
    }
  }

  predicate SameCuts(a: Entry, b: Entry)
  {
    |a.chunks| == |b.chunks| && forall i :: 0 <= i < |a.chunks| ==> a.chunks[i].offset == b.chunks[i].offset && a.chunks[i].size == b.chunks[i].size
  }

  lemma {:induction false} IdAtLast(chunks: seq<Chunk>, off: nat, k: nat)
    requires LastAt(chunks, off, k)
    ensures IdAt(chunks, off) == Some(chunks[k].id)
  {
    var n := |chunks| - 1;
    if k < n {
      IdAtLast(chunks[..n], off, k);
    }
  }

  predicate LastAt(chunks: seq<Chunk>, off: nat, k: int)
  {
    0 <= k < |chunks| && chunks[k].offset == off && forall j :: k < j < |chunks| ==> chunks[j].offset != off
  }

  /** A chunk is unchanged exactly if the last old chunk at its offset has its id, in any casing. */
  lemma {:induction false} UnchangedExactly(prev: seq<Chunk>, c: Chunk)
    ensures IsUnchanged(prev, c) <==> exists k :: LastAt(prev, c.offset, k) && EqualFold(prev[k].id, c.id)
  {
    if IsUnchanged(prev, c) {
      var k := IdAtFound(prev, c.offset);
      assert LastAt(prev, c.offset, k);
    }
    if k :| LastAt(prev, c.offset, k) && EqualFold(prev[k].id, c.id) {
      IdAtLast(prev, c.offset, k);
    }
  }

  /** The sizes in a chunk diff: those of the two contents, and kept and missing chunks add up to the new one. */
  lemma {:induction false} DiffSizes(h: Host, prev: Entry, e: Entry, was: Bytes, t: Bytes)
    requires Describes(h, prev, was) && Describes(h, e, t)
    ensures var d := DiffOf(prev, e);
      && d.path == e.path && d.oldSize == |was| && d.newSize == |t|
      && d.total == |d.kept| + |d.missing| && SumSizes(d.kept) + SumSizes(d.missing) == d.newSize
  {
    KeepCounts(prev.chunks, e.chunks);
    TilesSum(e.chunks, e.size);
  }

  lemma {:induction false} KeepCounts(prev: seq<Chunk>, chunks: seq<Chunk>)
    ensures |Keep(prev, chunks, true)| + |Keep(prev, chunks, false)| == |chunks|
    ensures SumSizes(Keep(prev, chunks, true)) + SumSizes(Keep(prev, chunks, false)) == SumSizes(chunks)
  {
    if chunks != [] {
      var n := |chunks| - 1;
      KeepCounts(prev, chunks[..n]);
      SumAppend(Keep(prev, chunks[..n], true), chunks[n]);
      SumAppend(Keep(prev, chunks[..n], false), chunks[n]);
    }
  }

  lemma OneMore(chunks: seq<Chunk>, c: Chunk)
    ensures multiset(chunks + [c]) == multiset(chunks) + multiset{c}
  {
  }

  /** Unchanged and missing chunks together are exactly the new file's chunks, each counted once. */
  lemma {:induction false} KeepPartitions(prev: seq<Chunk>, chunks: seq<Chunk>)
    ensures multiset(Keep(prev, chunks, true)) + multiset(Keep(prev, chunks, false)) == multiset(chunks)
  {
    if chunks != [] {
      var n := |chunks| - 1;
      KeepPartitions(prev, chunks[..n]);
      assert chunks == chunks[..n] + [chunks[n]];
      OneMore(chunks[..n], chunks[n]);
      OneMore(Keep(prev, chunks[..n], true), chunks[n]);
      OneMore(Keep(prev, chunks[..n], false), chunks[n]);
    }
  }

  /** With one entry per path, a path is in the diff exactly when its entry is there, was there before and differs. */
  lemma {:induction false} ModifiedAt(h: Host, prev: map<string, Entry>, files: seq<Entry>, k: nat)
    requires k < |files| && !files[k].IsDir()
    requires forall j :: 0 <= j < |files| && j != k && !files[j].IsDir() ==> h.norm(files[j].path) != h.norm(files[k].path)
    ensures var p := h.norm(files[k].path);
      && (p in Modified(h, prev, files) <==> p in prev && !SameFile(prev[p], files[k]))
      && (p in Modified(h, prev, files) ==> Modified(h, prev, files)[p] == DiffOf(prev[p], files[k]))
  {
    var n := |files| - 1;
    if k < n {
      assert forall j :: 0 <= j < n ==> files[..n][j] == files[j];
      ModifiedAt(h, prev, files[..n], k);
    } else {
      ModifiedAbsent(h, prev, files[..n], h.norm(files[k].path));
    }
  }

  lemma {:induction false} ModifiedAbsent(h: Host, prev: map<string, Entry>, files: seq<Entry>, p: string)
    requires forall j :: 0 <= j < |files| && !files[j].IsDir() ==> h.norm(files[j].path) != p
    ensures p !in Modified(h, prev, files)
  {
    if files != [] {
      var n := |files| - 1;
      assert forall j :: 0 <= j < n ==> files[..n][j] == files[j];
      ModifiedAbsent(h, prev, files[..n], p);
    }
  }
}
