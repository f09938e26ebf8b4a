/** streamDepotFiles, one file and one chunk at a time: the branches, the counters and the exact outcome. */
module Stream {
  import opened Text
  import opened Depot
  import opened Diff
  import opened Plan
  import opened Cdn
  import opened Checkpoints

  /** Every chunk lies inside `t` and its id identifies its part of it. */
  ghost predicate Fetchable(h: Host, chunks: seq<Chunk>, t: Bytes)
  {
    forall k :: 0 <= k < |chunks| ==>
      |chunks[k].id| == 40 && chunks[k].End() <= |t| && Identifies(h, chunks[k].id, Slice(t, chunks[k]))
  }

  /** `g` is `f` with the bytes of `t` written over `chunks`. */
  ghost predicate Written(g: Bytes, f: Bytes, chunks: seq<Chunk>, t: Bytes)
  {
    && (forall i: nat :: At(g, i) == if Covered(chunks, i) then At(t, i) else At(f, i))
    && |f| <= |g| && (|f| <= |t| ==> |g| <= |t|)
  }

  lemma CoveredAppend(chunks: seq<Chunk>, c: Chunk, i: nat)
    ensures Covered(chunks + [c], i) <==> Covered(chunks, i) || c.offset <= i < c.End()
  {
    var all := chunks + [c];
    if Covered(chunks, i) {
      var k :| 0 <= k < |chunks| && chunks[k].offset <= i < chunks[k].End();
      assert all[k] == chunks[k];
    }
    if c.offset <= i < c.End() {
      assert all[|chunks|] == c;
    }
  }

  /** Writing one verified chunk extends the written part by it. */
  lemma WrittenAppend(h: Host, g: Bytes, f: Bytes, chunks: seq<Chunk>, t: Bytes, c: Chunk, data: Bytes)
    requires Written(g, f, chunks, t) && Fetchable(h, chunks + [c], t) && EqualFold(h.sha1(data), c.id)
    ensures Written(WriteAt(g, c.offset, data), f, chunks + [c], t)
  {
    assert (chunks + [c])[|chunks|] == c;
    assert data == Slice(t, c);
    forall i: nat ensures At(WriteAt(g, c.offset, data), i) == if Covered(chunks + [c], i) then At(t, i) else At(f, i) {
      CoveredAppend(chunks, c, i);
    }
  }

  lemma {:induction false} FetchStep(h: Host, chunks: seq<Chunk>, j: nat, g: Bytes, f: Bytes, t: Bytes, data: Bytes)
    requires j < |chunks| && (|chunks[j].id| == 40 ==> EqualFold(h.sha1(data), chunks[j].id))
    requires Fetchable(h, chunks, t) ==> Written(g, f, chunks[..j], t)
    ensures Fetchable(h, chunks, t) ==> Written(WriteAt(g, chunks[j].offset, data), f, chunks[..j + 1], t)
  {
    if Fetchable(h, chunks, t) {
      assert chunks[..j + 1] == chunks[..j] + [chunks[j]];
      WrittenAppend(h, g, f, chunks[..j], t, chunks[j], data);
    }
  }

  lemma DescribedChunksAreFetchable(h: Host, e: Entry, t: Bytes, chunks: seq<Chunk>)
    requires Describes(h, e, t) && forall c :: c in chunks ==> c in e.chunks
    ensures Fetchable(h, chunks, t)
  {
    forall k | 0 <= k < |chunks|
      ensures |chunks[k].id| == 40 && chunks[k].End() <= |t| && Identifies(h, chunks[k].id, Slice(t, chunks[k]))
    {
      assert chunks[k] in chunks;
      var j :| 0 <= j < |e.chunks| && e.chunks[j] == chunks[k];
    }
  }

  /** The file ends as the described content exactly if the file as opened converges. */
  ghost predicate Exact(x: Context, e: Entry, t: Bytes, final: Bytes)
  {
    Describes(x.h, e, t) ==> (final == t <==> Converges(x, e, t))
  }

  /** `g` is the opened file with the pending chunks written over it. */
  ghost predicate Patched(x: Context, pending: seq<Chunk>, t: Bytes, g: Bytes)
  {
    if pending == [] then g == x.file else Fetchable(x.h, pending, t) ==> Written(g, x.file, pending, t)
  }

  /** `g` is the patched file; `final` is its truncation, or the refetched file when the digest objected. */
  lemma {:induction false} SettleExact(x: Context, e: Entry, t: Bytes, g: Bytes, final: Bytes)
    requires var pending := Scan(x, e.chunks).pending;
      && Patched(x, pending, t, g)
      && (if e.sha1 != "" && pending != [] then EqualFold(x.h.sha1(final), e.sha1) else final == Resize(g, e.size))
    ensures Exact(x, e, t, final)
  {
    if Describes(x.h, e, t) {
      PendingAreUntrusted(x, e.chunks);
      DescribedChunksAreFetchable(x.h, e, t, Scan(x, e.chunks).pending);
      PatchedIsContent(x, e, t, Resize(g, e.size));
    }
  }

  /** Ids of unchanged chunks that lie within the file on disk; a map keyed by id alone. */
  function ClaimedIds(fd: FileDiff, size0: nat): set<string>
  {
    set c | c in fd.kept && c.End() <= size0 :: c.id
  }

  function Bytes0(file: Option<Bytes>): Bytes
  {
    if file.Some? then file.value else []
  }

  /** What pendingChunks sees once the file of entry `e` at `p` is open. The file was `file` before, if it was there. */
  function Opened(h: Host, p: string, e: Entry, delta: Option<FileDiff>, file: Option<Bytes>, marks: set<string>): Context
  {
    var f0 := Bytes0(file);
    var canDelta := delta.Some? && file.Some? && |f0| > 0;
    var f := if !canDelta && (file.None? || |f0| < e.size) then Preallocate(f0, e.size) else f0;
    Context(h, p, marks, if canDelta then ClaimedIds(delta.value, |f0|) else {}, file.Some?, |f0|, f)
  }

  function Find<T>(m: map<string, T>, p: string): Option<T>
  {
    if p in m then Some(m[p]) else None
  }

  function Open(h: Host, diffMap: map<string, FileDiff>, disk: map<string, Bytes>, marks: set<string>,
                p: string, e: Entry): Context
  {
    Opened(h, p, e, Find(diffMap, p), Find(disk, p), marks)
  }

  // ---- Files do not disturb each other ----

  /** On the keys of entry `e` the two sets of marks say the same. */
  ghost predicate MarksAgree(h: Host, p: string, e: Entry, m: set<string>, m': set<string>)
  {
    forall c :: c in e.chunks ==> (ChunkKey(h, p, c) in m <==> ChunkKey(h, p, c) in m')
  }

  lemma ConvergesForeign(x: Context, e: Entry, t: Bytes, marks: set<string>)
    requires MarksAgree(x.h, x.path, e, x.marks, marks)
    ensures Converges(x, e, t) <==> Converges(x.(marks := marks), e, t)
  {
    var y := x.(marks := marks);
    forall c | c in e.chunks ensures x.Key(c) in x.marks <==> x.Key(c) in y.marks {
      assert x.Key(c) == ChunkKey(x.h, x.path, c);
    }
    ForeignMarks(x, y, e.chunks);
  }

  /** Marking the chunks of one file leaves the marks of a file at another path alone. */
  lemma ForeignKeys(x: Context, e: Entry, q: string, d: Entry, m: set<string>)
    requires x.h.norm(x.path) != x.h.norm(q)
    requires forall c :: c in e.chunks ==> |c.id| == 40
    requires forall c :: c in d.chunks ==> |c.id| == 40
    ensures MarksAgree(x.h, q, d, m, m + Keys(x, e.chunks))
  {
    forall c | c in d.chunks ensures ChunkKey(x.h, q, c) !in Keys(x, e.chunks) {
      if ChunkKey(x.h, q, c) in Keys(x, e.chunks) {
        var b :| b in e.chunks && x.Key(b) == ChunkKey(x.h, q, c);
        KeyIdentifiesChunk(x.h, x.path, b, q, c);
      }
    }
  }

  /** Regular files at distinct normal paths, each with the content its entry describes. */
  ghost predicate WellFormed(h: Host, files: seq<Entry>, contents: map<string, Bytes>)
  {
    && (forall k :: 0 <= k < |files| && !files[k].IsDir() ==> GoodFile(h, files[k], contents))
    && (forall j, k :: 0 <= j < k < |files| && !files[j].IsDir() && !files[k].IsDir() ==>
          h.norm(files[j].path) != h.norm(files[k].path))
  }

  ghost predicate GoodFile(h: Host, e: Entry, contents: map<string, Bytes>)
  {
    var p := h.norm(e.path);
    h.norm(p) == p && p in contents && Describes(h, e, contents[p])
  }

  lemma {:induction false} GoodFileIds(h: Host, e: Entry, contents: map<string, Bytes>)
    requires GoodFile(h, e, contents)
    ensures forall c :: c in e.chunks ==> |c.id| == 40
  {
    forall c | c in e.chunks ensures |c.id| == 40 {
      var k :| 0 <= k < |e.chunks| && e.chunks[k] == c;
    }
  }

  /** The verdict on one file, from the state before the run. */
  ghost predicate Verdict(h: Host, diffMap: map<string, FileDiff>, disk: map<string, Bytes>, marks: set<string>,
                          e: Entry, contents: map<string, Bytes>)
    requires h.norm(e.path) in contents
  {
    var p := h.norm(e.path);
    Converges(Open(h, diffMap, disk, marks, p, e), e, contents[p])
  }

  /** One file in the course of a run: once done it is judged, before that nothing that concerns it has moved. */
  ghost predicate FileState(h: Host, diffMap: map<string, FileDiff>, disk0: map<string, Bytes>, marks0: set<string>,
                            e: Entry, contents: map<string, Bytes>, done: bool, disk: map<string, Bytes>, marks: set<string>)
  {
    var p := h.norm(e.path);
    if done then p in disk && p in contents && (disk[p] == contents[p] <==> Verdict(h, diffMap, disk0, marks0, e, contents))
    else MarksAgree(h, p, e, marks0, marks) && (p in disk <==> p in disk0) && (p in disk ==> disk[p] == disk0[p])
  }

  /** Progress of the run over `files` after i of them. */
  ghost predicate RunInvariant(h: Host, diffMap: map<string, FileDiff>, disk0: map<string, Bytes>, marks0: set<string>,
                               files: seq<Entry>, contents: map<string, Bytes>, i: nat,
                               disk: map<string, Bytes>, marks: set<string>)
  {
    forall k :: 0 <= k < |files| && !files[k].IsDir() ==>
      FileState(h, diffMap, disk0, marks0, files[k], contents, k < i, disk, marks)
  }

  /** What processing entry `e` does to the disk and to the marks. */
  ghost predicate Processed(h: Host, diffMap: map<string, FileDiff>, e: Entry, contents: map<string, Bytes>,
                            disk: map<string, Bytes>, marks: set<string>, disk': map<string, Bytes>, marks': set<string>)
  {
    var p := h.norm(e.path);
    if e.IsDir() then disk' == disk && marks' == marks else
      var x := Open(h, diffMap, disk, marks, p, e);
      && ChangedOnly(p, disk, disk')
      && marks' == marks + Keys(x, e.chunks)
      && (p in contents ==> Exact(x, e, contents[p], disk'[p]))
  }

  lemma ProcessedIsJudged(h: Host, diffMap: map<string, FileDiff>, disk0: map<string, Bytes>, marks0: set<string>,
                          e: Entry, contents: map<string, Bytes>,
                          disk: map<string, Bytes>, marks: set<string>, disk': map<string, Bytes>, marks': set<string>)
    requires !e.IsDir() && GoodFile(h, e, contents) && Processed(h, diffMap, e, contents, disk, marks, disk', marks')
    requires FileState(h, diffMap, disk0, marks0, e, contents, false, disk, marks)
    ensures FileState(h, diffMap, disk0, marks0, e, contents, true, disk', marks')
  {
    var p := h.norm(e.path);
    var x0 := Open(h, diffMap, disk0, marks0, p, e);
    assert Open(h, diffMap, disk, marks, p, e) == x0.(marks := marks);
    ConvergesForeign(x0, e, contents[p], marks);
  }

  lemma OthersUnmoved(h: Host, diffMap: map<string, FileDiff>, disk0: map<string, Bytes>, marks0: set<string>,
                      e: Entry, d: Entry, done: bool, contents: map<string, Bytes>,
                      disk: map<string, Bytes>, marks: set<string>, disk': map<string, Bytes>, marks': set<string>)
    requires !e.IsDir() && GoodFile(h, e, contents) && GoodFile(h, d, contents) && h.norm(e.path) != h.norm(d.path)
    requires Processed(h, diffMap, e, contents, disk, marks, disk', marks')
    requires FileState(h, diffMap, disk0, marks0, d, contents, done, disk, marks)
    ensures FileState(h, diffMap, disk0, marks0, d, contents, done, disk', marks')
  {
    GoodFileIds(h, e, contents);
    GoodFileIds(h, d, contents);
    ForeignKeys(Open(h, diffMap, disk, marks, h.norm(e.path), e), e, h.norm(d.path), d, marks);
  }

  /** Processing file i settles file i and moves nothing else. */
  lemma RunStep(h: Host, diffMap: map<string, FileDiff>, disk0: map<string, Bytes>, marks0: set<string>,
                files: seq<Entry>, contents: map<string, Bytes>, i: nat,
                disk: map<string, Bytes>, marks: set<string>, disk': map<string, Bytes>, marks': set<string>)
    requires WellFormed(h, files, contents) && i < |files|
    requires RunInvariant(h, diffMap, disk0, marks0, files, contents, i, disk, marks)
    requires Processed(h, diffMap, files[i], contents, disk, marks, disk', marks')
    ensures RunInvariant(h, diffMap, disk0, marks0, files, contents, i + 1, disk', marks')
  {
    var e := files[i];
    if e.IsDir() {
      assert forall k :: 0 <= k < |files| && !files[k].IsDir() ==> (k < i + 1 <==> k < i);
      return;
    }
    forall k | 0 <= k < |files| && !files[k].IsDir()
      ensures FileState(h, diffMap, disk0, marks0, files[k], contents, k < i + 1, disk', marks')
    {
      assert GoodFile(h, files[k], contents) && GoodFile(h, e, contents);
      if k == i {
        ProcessedIsJudged(h, diffMap, disk0, marks0, e, contents, disk, marks, disk', marks');
      } else {
        OthersUnmoved(h, diffMap, disk0, marks0, e, files[k], k < i, contents, disk, marks, disk', marks');
      }
    }
  }

  function FileBytes(e: Entry, dryRun: bool): nat
  {
    if e.IsDir() then 0 else if dryRun || e.chunks == [] then e.size else SumSizes(e.chunks)
  }

  function Ledger(files: seq<Entry>, dryRun: bool): nat
  {
    if files == [] then 0 else Ledger(files[..|files| - 1], dryRun) + FileBytes(files[|files| - 1], dryRun)
  }

  ghost predicate ChangedOnly(p: string, d: map<string, Bytes>, d': map<string, Bytes>)
  {
    p in d' && forall q :: q != p ==> (q in d <==> q in d') && (q in d ==> d[q] == d'[q])
  }

  ghost predicate ChangedWithin(paths: set<string>, d: map<string, Bytes>, d': map<string, Bytes>)
  {
    forall q :: q !in paths ==> (q in d <==> q in d') && (q in d ==> d[q] == d'[q])
  }

  // ---- What counts as an update ----

  /** The file on disk is the content its entry describes. */
  ghost predicate Intact(h: Host, disk: map<string, Bytes>, p: string, e: Entry, t: Bytes)
  {
    Describes(h, e, t) && p in disk && disk[p] == t
  }

  ghost predicate AllIntact(h: Host, disk: map<string, Bytes>, files: seq<Entry>, contents: map<string, Bytes>)
  {
    forall k :: 0 <= k < |files| && !files[k].IsDir() ==>
      h.norm(files[k].path) in contents && Intact(h, disk, h.norm(files[k].path), files[k], contents[h.norm(files[k].path)])
  }

  predicate Needed(h: Host, disk: map<string, Bytes>, p: string, e: Entry)
  {
    || p !in disk
    || |disk[p]| != e.size
    || e.chunks != []
    || (e.sha1 != "" && !EqualFold(h.sha1(disk[p]), e.sha1))
  }

  predicate ChunksUpToDate(h: Host, disk: map<string, Bytes>, p: string, e: Entry)
  {
    e.chunks != [] && p in disk && |disk[p]| == e.size && forall c :: c in e.chunks ==> ValidOnDisk(h, disk[p], c)
  }

  /** The entry counts as updated: something is fetched or made anew, or would be in a dry run. */
  predicate Updates(h: Host, diffMap: map<string, FileDiff>, disk: map<string, Bytes>, marks: set<string>, p: string, e: Entry, dryRun: bool)
  {
    && !e.IsDir() && Needed(h, disk, p, e)
    && if dryRun then !ChunksUpToDate(h, disk, p, e)
       else e.chunks == [] || Scan(Open(h, diffMap, disk, marks, p, e), e.chunks).pending != []
  }

  /** An intact file is never updated, whatever the delta and the marks are, in a dry run or not. */
  lemma {:induction false} IntactIsNoUpdate(h: Host, diffMap: map<string, FileDiff>, disk: map<string, Bytes>, marks: set<string>,
                                            p: string, e: Entry, t: Bytes, dryRun: bool)
    requires Intact(h, disk, p, e, t)
    ensures !Updates(h, diffMap, disk, marks, p, e, dryRun)
    ensures e.chunks != [] ==> Scan(Open(h, diffMap, disk, marks, p, e), e.chunks).pending == []
  {
    if e.chunks == [] {
      assert e.size == 0 || Covered(e.chunks, 0);
    } else {
      IntactFile(Open(h, diffMap, disk, marks, p, e), e, t);
      forall c | c in e.chunks ensures ValidOnDisk(h, t, c) {
        var k :| 0 <= k < |e.chunks| && e.chunks[k] == c;
        ValidExactly(h, e, t, k, t);
      }
    }
  }

  /** Processing intact file i leaves every file intact. */
  lemma {:induction false} IntactStays(h: Host, diffMap: map<string, FileDiff>, files: seq<Entry>, contents: map<string, Bytes>, i: nat, dryRun: bool,
                                       disk: map<string, Bytes>, marks: set<string>, disk': map<string, Bytes>)
    requires i < |files| && AllIntact(h, disk, files, contents)
    requires var p := h.norm(files[i].path);
      disk' == disk || (ChangedOnly(p, disk, disk') && !files[i].IsDir() && p in contents
                        && Exact(Open(h, diffMap, disk, marks, p, files[i]), files[i], contents[p], disk'[p]))
    ensures AllIntact(h, disk', files, contents)
    ensures !Updates(h, diffMap, disk, marks, h.norm(files[i].path), files[i], dryRun)
  {
    var e, p := files[i], h.norm(files[i].path);
    if !e.IsDir() {
      IntactIsNoUpdate(h, diffMap, disk, marks, p, e, contents[p], dryRun);
      IntactFile(Open(h, diffMap, disk, marks, p, e), e, contents[p]);
    }
  }

  /** A missing file always is, unless a mark speaks for it. */
  lemma {:induction false} MissingIsUpdate(h: Host, diffMap: map<string, FileDiff>, disk: map<string, Bytes>, marks: set<string>,
                                           p: string, e: Entry, dryRun: bool)
    requires !e.IsDir() && p !in disk && forall k :: 0 <= k < |e.chunks| ==> ChunkKey(h, p, e.chunks[k]) !in marks
    ensures Updates(h, diffMap, disk, marks, p, e, dryRun)
  {
    var x := Open(h, diffMap, disk, marks, p, e);
    forall k | 0 <= k < |e.chunks| ensures !x.Trusts(e.chunks[k]) {
      assert x.Key(e.chunks[k]) == ChunkKey(h, p, e.chunks[k]);
    }
    MissingFile(x, e.chunks);
  }

  class DepotDownload {
    const h: Host
    const hosts: seq<string>
    const net: nat -> nat -> Reply   // reply to try k of chunk download number n
    const cp: Checkpoint
    const diffMap: map<string, FileDiff>
    const dryRun: bool

    var disk: map<string, Bytes>     // regular files by normalised relative path
    var calls: nat
    var downloaded: int
    var network: nat
    var updated: nat

    constructor (h: Host, hosts: seq<string>, net: nat -> nat -> Reply, cp: Checkpoint,
                 diffMap: map<string, FileDiff>, dryRun: bool, disk: map<string, Bytes>)
      ensures this.h == h && this.cp == cp && this.diffMap == diffMap && this.dryRun == dryRun && this.disk == disk
      ensures downloaded == 0 && network == 0 && updated == 0
    {
      this.h, this.hosts, this.net, this.cp, this.diffMap, this.dryRun := h, hosts, net, cp, diffMap, dryRun;
      this.disk := disk;
      calls, downloaded, network, updated := 0, 0, 0, 0;
    }

    method PendingChunks(p: string, e: Entry, x: Context) returns (ok: bool, pending: seq<Chunk>)
      requires cp.Valid() && x.h == h && x.path == p && x.marks == cp.completed
      modifies this`downloaded, cp
      ensures cp.Valid()
      ensures ok ==> Result(pending, cp.completed) == Scan(x, e.chunks)
      ensures ok ==> downloaded == old(downloaded) + SumSizes(e.chunks) - SumSizes(pending)
    {
      ok, pending := true, [];
      for i := 0 to |e.chunks|
        invariant cp.Valid() && Result(pending, cp.completed) == Scan(x, e.chunks[..i])
        invariant downloaded == old(downloaded) + SumSizes(e.chunks[..i]) - SumSizes(pending)
      {
        var cancelled := *;
        if cancelled {
          return false, pending;
        }
        var c := e.chunks[i];
        PrefixStep(x, e.chunks, i);
        SumAppend(pending, c);
        var key := x.Key(c);
        if cp.IsCompleted(key) || c.id in x.claims {
          CreditChunk(key, c);
        } else if x.existed && c.End() <= x.size0 && ValidOnDisk(h, x.file, c) {
          CreditChunk(key, c);
        } else {
          pending := pending + [c];
        }
      }
      assert e.chunks[..|e.chunks|] == e.chunks;
    }

    method CreditChunk(key: string, c: Chunk)
      requires cp.Valid()
      modifies this`downloaded, cp
      ensures cp.Valid() && cp.completed == old(cp.completed) + {key} && downloaded == old(downloaded) + c.size
    {
      downloaded := downloaded + c.size;
      var due, writeOk := *, *;
      cp.MarkCompleted(key, due, writeOk);
    }

    /** One worker: download, write, count, mark. */
    method FetchOne(p: string, x: Context, c: Chunk, fallback: bool) returns (ok: bool, ghost data: Bytes)
      requires cp.Valid() && p in disk && x.h == h
      modifies this`disk, this`calls, this`downloaded, this`network, cp
      ensures cp.Valid()
      ensures !ok ==> disk == old(disk)
      ensures ok ==> ChangedOnly(p, old(disk), disk) && disk[p] == WriteAt(old(disk)[p], c.offset, data)
      ensures ok && |c.id| == 40 ==> EqualFold(h.sha1(data), c.id)
      ensures ok ==> cp.completed == old(cp.completed) + {x.Key(c)}
      ensures ok ==> downloaded == old(downloaded) + if fallback then 0 else c.size
      ensures ok ==> network == old(network) + c.size
    {
      data := [];
      var cancelled := *;
      if !fallback && cancelled {
        return false, data;
      }
      var out, _, _, _ := DownloadChunk(h, hosts, c, net(calls));
      calls := calls + 1;
      if !out.Wrote? {
        return false, data;
      }
      data := out.data;
      disk := disk[p := WriteAt(disk[p], c.offset, out.data)];
      if !fallback {
        downloaded := downloaded + c.size;
      }
      network := network + c.size;
      var due, writeOk := *, *;
      cp.MarkCompleted(x.Key(c), due, writeOk);
      ok := true;
    }

    /** The fetch loop; a fallback pass repeats no downloaded-byte accounting. `t` is the content aimed at. */
    method FetchChunks(p: string, x: Context, chunks: seq<Chunk>, fallback: bool, ghost t: Bytes) returns (ok: bool)
      requires cp.Valid() && p in disk && x.h == h
      modifies this`disk, this`calls, this`downloaded, this`network, cp
      ensures cp.Valid() && ChangedOnly(p, old(disk), disk)
      ensures ok ==> cp.completed == old(cp.completed) + Keys(x, chunks)
      ensures ok ==> downloaded == old(downloaded) + if fallback then 0 else SumSizes(chunks)
      ensures ok ==> network == old(network) + SumSizes(chunks)
      ensures ok && Fetchable(h, chunks, t) ==> Written(disk[p], old(disk[p]), chunks, t)
    {
      ok := true;
      ghost var f := disk[p];
      for j := 0 to |chunks|
        invariant cp.Valid() && ChangedOnly(p, old(disk), disk)
        invariant cp.completed == old(cp.completed) + Keys(x, chunks[..j])
        invariant downloaded == old(downloaded) + if fallback then 0 else SumSizes(chunks[..j])
        invariant network == old(network) + SumSizes(chunks[..j])
        invariant Fetchable(h, chunks, t) ==> Written(disk[p], f, chunks[..j], t)
      {
        ghost var g := disk[p];
        PrefixStep(x, chunks, j);
        ghost var data;
        ok, data := FetchOne(p, x, chunks[j], fallback);
        if !ok {
          return;
        }
        FetchStep(h, chunks, j, g, f, t, data);
      }
      assert chunks[..|chunks|] == chunks;
    }

    /** Truncate, fetch every chunk again, and accept only the right digest. */
    method RedownloadFull(p: string, e: Entry, x: Context, ghost t: Bytes) returns (ok: bool)
      requires cp.Valid() && p in disk && x.h == h
      modifies this`disk, this`calls, this`downloaded, this`network, cp
      ensures cp.Valid() && ChangedOnly(p, old(disk), disk)
      ensures ok ==> downloaded == old(downloaded)
      ensures ok ==> cp.completed == old(cp.completed) + Keys(x, e.chunks)
      ensures ok ==> EqualFold(h.sha1(disk[p]), e.sha1)
    {
      disk := disk[p := Preallocate([], e.size)];
      ok := FetchChunks(p, x, e.chunks, true, t);
      ok := ok && EqualFold(h.sha1(disk[p]), e.sha1);
    }

    /** The first pass: skip what is there, fetch the rest, truncate; `g` is the file before the truncation. */
    method FirstPass(p: string, e: Entry, x: Context, ghost t: Bytes)
      returns (ok: bool, pending: seq<Chunk>, ghost g: Bytes)
      requires cp.Valid() && x.h == h && x.path == p && x.marks == cp.completed
      modifies this`disk, this`calls, this`downloaded, this`network, cp
      ensures cp.Valid()
      ensures ChangedOnly(p, old(disk), disk)
      ensures ok ==> downloaded == old(downloaded) + SumSizes(e.chunks)
      ensures ok ==> cp.completed == old(cp.completed) + Keys(x, e.chunks)
      ensures ok ==> pending == Scan(x, e.chunks).pending && disk[p] == Resize(g, e.size)
      ensures ok ==> network == old(network) + SumSizes(pending)
      ensures ok ==> Patched(x, pending, t, g)
    {
      disk, g := disk[p := x.file], x.file;
      ok, pending := PendingChunks(p, e, x);
      if !ok {
        return;
      }
      ScanMarks(x, e.chunks);
      if pending != [] {
        ok := FetchChunks(p, x, pending, false, t);
        if !ok {
          return;
        }
        g := disk[p];
      }
      disk := disk[p := Resize(disk[p], e.size)];
    }

    /** The exact outcome of one chunked file: a successful call leaves the described content if and only if
        every chunk taken on trust carried its bytes, or a digest was there to catch it and something was fetched.
        `x` is the file as opened. */
    method DownloadChunked(p: string, e: Entry, x: Context, ghost t: Bytes) returns (ok: bool, changed: bool)
      requires cp.Valid() && x.h == h && x.path == p && x.marks == cp.completed
      modifies this`disk, this`calls, this`downloaded, this`network, cp
      ensures cp.Valid()
      ensures ChangedOnly(p, old(disk), disk)
      ensures ok ==> downloaded == old(downloaded) + SumSizes(e.chunks)
      ensures ok ==> cp.completed == old(cp.completed) + Keys(x, e.chunks)
      ensures ok ==> changed == (Scan(x, e.chunks).pending != [])
      ensures ok && !changed ==> network == old(network)
      ensures ok ==> Exact(x, e, t, disk[p])
      ensures ok && Describes(h, e, t) && x.existed && x.file == t && x.size0 == |t| ==>
                !changed && disk[p] == t && network == old(network)
    {
      var pending;
      ghost var g;
      ok, pending, g := FirstPass(p, e, x, t);
      changed := pending != [];
      if !ok {
        return;
      }
      if e.sha1 != "" && changed && !EqualFold(h.sha1(disk[p]), e.sha1) {
        ok := RedownloadFull(p, e, x, t);
      }
      if ok {
        SettleExact(x, e, t, g, disk[p]);
        if Describes(h, e, t) && x.existed && x.file == t && x.size0 == |t| {
          IntactFile(x, e, t);
        }
      }
    }

    /** A chunkless file is created afresh, as zeros of its size. */
    method WriteEmptyFile(p: string, e: Entry)
      modifies this`disk, this`downloaded
      ensures ChangedOnly(p, old(disk), disk) && disk[p] == Zeros(e.size) && downloaded == old(downloaded) + e.size
    {
      disk := disk[p := Preallocate([], e.size)];
      assert disk[p] == Zeros(e.size);
      downloaded := downloaded + e.size;
    }

    function NeedsDownload(p: string, e: Entry): bool
      reads this
    {
      Needed(h, disk, p, e)
    }

    predicate UpToDateByChunks(p: string, e: Entry)
      reads this
    {
      ChunksUpToDate(h, disk, p, e)
    }

    /** One manifest entry. Whatever the branch, the counter moves by the size of the file. */
    method ProcessFile(p: string, e: Entry, ghost t: Bytes) returns (ok: bool)
      requires cp.Valid()
      modifies this`disk, this`calls, this`downloaded, this`network, this`updated, cp
      ensures cp.Valid()
      ensures e.IsDir() || dryRun ==> disk == old(disk) && cp.completed == old(cp.completed)
      ensures disk == old(disk) || ChangedOnly(p, old(disk), disk)
      ensures dryRun ==> cp.saved == old(cp.saved)
      ensures ok && e.IsDir() ==> downloaded == old(downloaded)
      ensures ok && !e.IsDir() ==>
                downloaded - old(downloaded) == if dryRun || e.chunks == [] then e.size else SumSizes(e.chunks)
      ensures ok && !e.IsDir() && !dryRun ==>
                && ChangedOnly(p, old(disk), disk)
                && cp.completed == old(cp.completed) + Keys(Open(h, diffMap, old(disk), old(cp.completed), p, e), e.chunks)
                && Exact(Open(h, diffMap, old(disk), old(cp.completed), p, e), e, t, disk[p])
      ensures ok ==> updated == old(updated) + if Updates(h, diffMap, old(disk), old(cp.completed), p, e, dryRun) then 1 else 0
      ensures ok && !Updates(h, diffMap, old(disk), old(cp.completed), p, e, dryRun) ==> network == old(network)
    {
      ok := true;
      var cancelled := *;
      if cancelled {
        return false;
      }
      if e.IsDir() {
        return;
      }
      if e.chunks == [] && Describes(h, e, t) {
        assert e.size == 0 || Covered(e.chunks, 0);
      }
      if !NeedsDownload(p, e) {
        downloaded := downloaded + e.size;
        return;
      }
      if dryRun {
        if !UpToDateByChunks(p, e) {
          updated := updated + 1;
        }
        downloaded := downloaded + e.size;
        return;
      }
      if e.chunks == [] {
        WriteEmptyFile(p, e);
        updated := updated + 1;
        return;
      }
      var changed;
      var x := Open(h, diffMap, disk, cp.completed, p, e);
      ok, changed := DownloadChunked(p, e, x, t);
      if ok && changed {
        updated := updated + 1;
      }
    }

    /** Every entry in turn. Each file comes out right exactly when its verdict, taken from the state before
        the run, says so; nothing outside the listed paths moves. */
    method StreamFiles(files: seq<Entry>, ghost contents: map<string, Bytes>) returns (ok: bool)
      requires cp.Valid()
      modifies this`disk, this`calls, this`downloaded, this`network, this`updated, cp
      ensures cp.Valid()
      ensures dryRun ==> disk == old(disk)
      ensures ok ==> downloaded == old(downloaded) + Ledger(files, dryRun)
      ensures ok && !dryRun && WellFormed(h, files, contents) ==>
                RunInvariant(h, diffMap, old(disk), old(cp.completed), files, contents, |files|, disk, cp.completed)
      ensures dryRun ==> cp.saved == old(cp.saved)
      ensures ChangedWithin(Paths(h, files), old(disk), disk)
      ensures ok && AllIntact(h, old(disk), files, contents) ==>
                AllIntact(h, disk, files, contents) && updated == old(updated) && network == old(network)
    {
      ok := true;
      for i := 0 to |files|
        invariant cp.Valid()
        invariant dryRun ==> disk == old(disk)
        invariant downloaded == old(downloaded) + Ledger(files[..i], dryRun)
        invariant !dryRun && WellFormed(h, files, contents) ==>
                    RunInvariant(h, diffMap, old(disk), old(cp.completed), files, contents, i, disk, cp.completed)
        invariant dryRun ==> cp.saved == old(cp.saved)
        invariant ChangedWithin(Paths(h, files), old(disk), disk)
        invariant AllIntact(h, old(disk), files, contents) ==>
                    AllIntact(h, disk, files, contents) && updated == old(updated) && network == old(network)
      {
        var e := files[i];
        var p := h.norm(e.path);
        assert files[..i + 1][..i] == files[..i];
        assert e.IsDir() || p in Paths(h, files) by {
          assert e in files;
        }
        ghost var d, m := disk, cp.completed;
        ok := ProcessFile(p, e, if p in contents then contents[p] else []);
        if !ok {
          return;
        }
        if AllIntact(h, old(disk), files, contents) {
          IntactStays(h, diffMap, files, contents, i, dryRun, d, m, disk);
        }
        if !dryRun && WellFormed(h, files, contents) {
          RunStep(h, diffMap, old(disk), old(cp.completed), files, contents, i, d, m, disk, cp.completed);
        }
      }
      assert files[..|files|] == files;
    }
  }
}
