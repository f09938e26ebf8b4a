/** What a run leaves, started with any files and any marks: under every interleaving the verdict on its start decides. */
module Outcomes {
  import opened Text
  import opened Depot
  import opened Diff
  import opened Plan
  import opened Stream
  import opened Engine

  // ---- The scan, chunk by chunk ----

  /** The scan passes over chunk k. */
  predicate Skips(x: Context, chunks: seq<Chunk>, k: nat)
    requires k < |chunks|
  {
    x.(marks := Scan(x, chunks[..k]).marks).Trusts(chunks[k]) || x.Verifies(chunks[k])
  }

  /** `pending` are the chunks among the first n that the scan does not pass over. */
  ghost predicate Scanned(x: Context, chunks: seq<Chunk>, n: nat, pending: set<nat>)
    requires n <= |chunks|
  {
    forall k :: k in pending <==> 0 <= k < n && !Skips(x, chunks, k)
  }

  /** `p` holds the chunks numbered in `ks`. */
  ghost predicate Lists(p: seq<Chunk>, chunks: seq<Chunk>, ks: set<nat>)
  {
    forall c :: c in p <==> Numbered(chunks, ks, c)
  }

  ghost predicate Numbered(chunks: seq<Chunk>, ks: set<nat>, c: Chunk)
  {
    exists k :: k in ks && k < |chunks| && chunks[k] == c
  }

  lemma ListsMore(p: seq<Chunk>, chunks: seq<Chunk>, k: nat, ks: set<nat>)
    requires k < |chunks| && k in ks && Lists(p, chunks, ks - {k})
    ensures Lists(p + [chunks[k]], chunks, ks)
  {
    forall c ensures c in p + [chunks[k]] <==> Numbered(chunks, ks, c) {
      NumberedMore(chunks, k, ks, c);
    }
  }

  lemma NumberedMore(chunks: seq<Chunk>, k: nat, ks: set<nat>, c: Chunk)
    requires k < |chunks| && k in ks
    ensures Numbered(chunks, ks, c) <==> Numbered(chunks, ks - {k}, c) || chunks[k] == c
  {
    if Numbered(chunks, ks, c) && chunks[k] != c {
      var l :| l in ks && l < |chunks| && chunks[l] == c;
      assert l in ks - {k};
    }
    if Numbered(chunks, ks - {k}, c) {
      var l :| l in ks - {k} && l < |chunks| && chunks[l] == c;
    }
  }

  lemma ScannedLess(x: Context, chunks: seq<Chunk>, n: nat, pending: set<nat>)
    requires n < |chunks| && Scanned(x, chunks, n + 1, pending)
    ensures Scanned(x, chunks, n, pending - {n}) && (n in pending <==> !Skips(x, chunks, n))
    ensures n !in pending ==> pending - {n} == pending
  {
  }

  lemma ScannedMore(x: Context, chunks: seq<Chunk>, n: nat, pending: set<nat>)
    requires n < |chunks| && Scanned(x, chunks, n, pending)
    ensures Scanned(x, chunks, n + 1, if Skips(x, chunks, n) then pending else pending + {n})
  {
  }

  /** The scan's step at chunk k, in terms of whether it passes over it. */
  lemma ScanAt(x: Context, chunks: seq<Chunk>, k: nat)
    requires k < |chunks|
    ensures var r, r' := Scan(x, chunks[..k]), Scan(x, chunks[..k + 1]);
      if Skips(x, chunks, k) then r' == r.(marks := r.marks + {x.Key(chunks[k])}) else r' == r.(pending := r.pending + [chunks[k]])
  {
    PrefixStep(x, chunks, k);
  }

  lemma {:induction false} PendingIs(x: Context, chunks: seq<Chunk>, n: nat, pending: set<nat>)
    requires n <= |chunks| && Scanned(x, chunks, n, pending)
    ensures Lists(Scan(x, chunks[..n]).pending, chunks, pending)
  {
    if n > 0 {
      ScannedLess(x, chunks, n - 1, pending);
      PendingIs(x, chunks, n - 1, pending - {n - 1});
      ScanAt(x, chunks, n - 1);
      if n - 1 in pending {
        ListsMore(Scan(x, chunks[..n - 1]).pending, chunks, n - 1, pending);
      }
    }
  }

  /** The bytes to be fetched, by chunk number. */
  ghost predicate Within(chunks: seq<Chunk>, ks: set<nat>, i: nat)
  {
    exists k :: k in ks && k < |chunks| && chunks[k].offset <= i < chunks[k].End()
  }

  lemma PendingCovers(x: Context, chunks: seq<Chunk>, pending: set<nat>, i: nat)
    requires Scanned(x, chunks, |chunks|, pending)
    ensures Covered(Scan(x, chunks).pending, i) <==> Within(chunks, pending, i)
    ensures Scan(x, chunks).pending == [] <==> pending == {}
  {
    PendingIs(x, chunks, |chunks|, pending);
    assert chunks[..|chunks|] == chunks;
    ListedCovers(Scan(x, chunks).pending, chunks, pending, i);
    ListedEmpty(Scan(x, chunks).pending, chunks, pending);
  }

  lemma ListedCovers(p: seq<Chunk>, chunks: seq<Chunk>, ks: set<nat>, i: nat)
    requires Lists(p, chunks, ks)
    ensures Covered(p, i) <==> Within(chunks, ks, i)
  {
    if Covered(p, i) {
      var m :| 0 <= m < |p| && p[m].offset <= i < p[m].End();
      assert p[m] in p && Numbered(chunks, ks, p[m]);
      var k :| k in ks && k < |chunks| && chunks[k] == p[m];
    }
    if Within(chunks, ks, i) {
      var k :| k in ks && k < |chunks| && chunks[k].offset <= i < chunks[k].End();
      assert Numbered(chunks, ks, chunks[k]);
      var m :| 0 <= m < |p| && p[m] == chunks[k];
    }
  }

  lemma ListedEmpty(p: seq<Chunk>, chunks: seq<Chunk>, ks: set<nat>)
    requires Lists(p, chunks, ks) && forall k :: k in ks ==> k < |chunks|
    ensures p == [] <==> ks == {}
  {
    if p != [] {
      assert Numbered(chunks, ks, p[0]);
    }
    if ks != {} {
      var k :| k in ks;
      assert Numbered(chunks, ks, chunks[k]);
    }
  }

  // ---- One file ----

  /** The chunks whose bytes have arrived. */
  function Arrived(ws: map<nat, Worker>): set<nat>
  {
    set k | k in ws && ws[k] != Queued
  }

  /** The file as opened, under the chunks that have arrived; chunks on their way may be torn. */
  ghost predicate Overlaid(chunks: seq<Chunk>, ws: map<nat, Worker>, t: Bytes, f0: Bytes, f: Bytes)
  {
    && (forall i: nat :: Within(chunks, Arrived(ws), i) ==> At(f, i) == At(t, i))
    && (forall i: nat :: !Within(chunks, ws.Keys, i) ==> At(f, i) == At(f0, i))
  }

  /** On the keys of this job the marks in memory are `marks`. */
  ghost predicate MarksAre(h: Host, j: Job, mem: set<string>, marks: set<string>)
  {
    forall k :: 0 <= k < |j.e.chunks| ==> (KeyOf(h, j, k) in mem <==> KeyOf(h, j, k) in marks)
  }

  ghost predicate ScanningAs(h: Host, j: Job, x: Context, mem: set<string>, p: Phase, file: Option<Bytes>)
    requires p.Scanning?
  {
    && p.claims == x.claims && p.existed == x.existed && p.size0 == x.size0 && file == Some(x.file)
    && p.next <= |j.e.chunks| && Scanned(x, j.e.chunks, p.next, p.pending)
    && MarksAre(h, j, mem, Scan(x, j.e.chunks[..p.next]).marks)
  }

  ghost predicate FetchingAs(j: Job, t: Bytes, x: Context, p: Phase, file: Option<Bytes>)
    requires p.Fetching?
  {
    && p.workers.Keys == p.pending && Scanned(x, j.e.chunks, |j.e.chunks|, p.pending) && file.Some?
    && Overlaid(j.e.chunks, p.workers, t, x.file, file.value)
  }

  /** One file in the course of a run that found it as `x` says. */
  ghost predicate Judged(h: Host, j: Job, t: Bytes, x: Context, mem: set<string>, l: Local)
  {
    match l.phase
    case Idle => x == Opened(h, j.path, j.e, j.delta, l.file, x.marks) && MarksAre(h, j, mem, x.marks)
    case Scanning(_, _, _, _, _) => ScanningAs(h, j, x, mem, l.phase, l.file)
    case Fetching(_, _) => FetchingAs(j, t, x, l.phase, l.file)
    case Truncated(fetched) =>
      fetched == (Scan(x, j.e.chunks).pending != []) && l.file.Some? && (l.file.value == t <==> TrustJustified(x, j.e, t))
    case Refetching(_) => l.file.Some? && j.e.sha1 != "" && Scan(x, j.e.chunks).pending != []
    case Done => l.file.Some? && (l.file.value == t <==> Converges(x, j.e, t))
  }

  /** A regular job, its content and the file it opens. */
  ghost predicate OfJob(h: Host, j: Job, t: Bytes, x: Context)
  {
    Describes(h, j.e, t) && !j.e.IsDir() && x.h == h && x.path == j.path
  }

  /** The engine's test at a chunk is the scan's. */
  lemma SkipsAsScanned(h: Host, j: Job, x: Context, mem: set<string>, k: nat)
    requires x.h == h && x.path == j.path && k < |j.e.chunks|
    requires MarksAre(h, j, mem, Scan(x, j.e.chunks[..k]).marks)
    ensures Skips(x, j.e.chunks, k) <==>
              var c := j.e.chunks[k];
              KeyOf(h, j, k) in mem || c.id in x.claims || (x.existed && c.End() <= x.size0 && ValidOnDisk(h, x.file, c))
    ensures x.Key(j.e.chunks[k]) == KeyOf(h, j, k)
  {
  }

  lemma MarksMore(h: Host, j: Job, mem: set<string>, marks: set<string>, more: set<string>)
    requires MarksAre(h, j, mem, marks)
    ensures MarksAre(h, j, mem + more, marks + more)
  {
  }

  lemma ScanJudged(h: Host, j: Job, t: Bytes, x: Context, mem: set<string>, l: Local, a: FileAction)
    requires OfJob(h, j, t, x) && l.phase.Scanning? && ScanningAs(h, j, x, mem, l.phase, l.file)
    requires (a.SkipChunk? || a.QueueChunk?) && Step(h, j, mem, l, a).Some?
    ensures var eff := Step(h, j, mem, l, a).value;
      eff.now.phase.Scanning? && ScanningAs(h, j, x, mem + eff.marks, eff.now.phase, eff.now.file)
  {
    var k := l.phase.next;
    SkipsAsScanned(h, j, x, mem, k);
    ScannedMore(x, j.e.chunks, k, l.phase.pending);
    ScanAt(x, j.e.chunks, k);
    MarksMore(h, j, mem, Scan(x, j.e.chunks[..k]).marks, Step(h, j, mem, l, a).value.marks);
  }

  lemma StartFetchJudged(j: Job, t: Bytes, x: Context, p: Phase, file: Option<Bytes>)
    requires p.Scanning? && p.next == |j.e.chunks| && file == Some(x.file) && Scanned(x, j.e.chunks, |j.e.chunks|, p.pending)
    ensures FetchingAs(j, t, x, Fetching(p.pending, QueueAll(p.pending)), file)
  {
    assert Arrived(QueueAll(p.pending)) == {};
  }

  /** Bytes put inside a chunk that has not arrived yet. */
  lemma PutInside(j: Job, ws: map<nat, Worker>, t: Bytes, f0: Bytes, f: Bytes, k: nat, data: Bytes)
    requires Tiles(j.e.chunks, j.e.size) && Overlaid(j.e.chunks, ws, t, f0, f)
    requires k in ws && ws[k] == Queued && k < |j.e.chunks| && |data| <= j.e.chunks[k].size
    ensures Overlaid(j.e.chunks, ws, t, f0, WriteAt(f, j.e.chunks[k].offset, data))
  {
    var g := WriteAt(f, j.e.chunks[k].offset, data);
    forall i: nat | Within(j.e.chunks, Arrived(ws), i) ensures At(g, i) == At(t, i) {
      var l :| l in Arrived(ws) && l < |j.e.chunks| && j.e.chunks[l].offset <= i < j.e.chunks[l].End();
      assert if k < l then Disjoint(j.e.chunks[k], j.e.chunks[l]) else Disjoint(j.e.chunks[l], j.e.chunks[k]);
    }
    forall i: nat | !Within(j.e.chunks, ws.Keys, i) ensures At(g, i) == At(f0, i) {
      assert !(j.e.chunks[k].offset <= i < j.e.chunks[k].End());
    }
  }

  /** The payload of a chunk has arrived. */
  lemma ChunkArrives(j: Job, ws: map<nat, Worker>, t: Bytes, f0: Bytes, f: Bytes, k: nat, data: Bytes)
    requires Tiles(j.e.chunks, j.e.size) && Overlaid(j.e.chunks, ws, t, f0, f)
    requires k in ws && ws[k] == Queued && k < |j.e.chunks| && j.e.chunks[k].End() <= |t| && data == Slice(t, j.e.chunks[k])
    ensures Overlaid(j.e.chunks, ws[k := Wrote], t, f0, WriteAt(f, j.e.chunks[k].offset, data))
    ensures ws[k := Wrote].Keys == ws.Keys
  {
    var c := j.e.chunks[k];
    var g := WriteAt(f, c.offset, data);
    PutInside(j, ws, t, f0, f, k, data);
    assert ws[k := Wrote].Keys == ws.Keys;
    forall i: nat | Within(j.e.chunks, Arrived(ws[k := Wrote]), i) ensures At(g, i) == At(t, i) {
      if c.offset <= i < c.End() {
        assert At(g, i) == data[i - c.offset];
        SliceAt(t, c, i);
      } else {
        assert Within(j.e.chunks, Arrived(ws), i);
      }
    }
  }

  lemma WorkerJudged(h: Host, j: Job, t: Bytes, x: Context, mem: set<string>, l: Local, a: FileAction)
    requires OfJob(h, j, t, x) && l.phase.Fetching? && FetchingAs(j, t, x, l.phase, l.file)
    requires (a.Tear? || a.Write? || a.Count? || a.Mark?) && Step(h, j, mem, l, a).Some?
    ensures var now := Step(h, j, mem, l, a).value.now; now.phase.Fetching? && FetchingAs(j, t, x, now.phase, now.file)
  {
    var ws, f := l.phase.workers, l.file.value;
    match a
    case Tear(k, junk) => PutInside(j, ws, t, x.file, f, k, junk);
    case Write(k, data) =>
      PayloadIsSlice(h, j, t, k, data);
      ChunkArrives(j, ws, t, x.file, f, k, data);
    case Count(k) => Relabelled(j.e.chunks, ws, t, x.file, f, k, Counted);
    case Mark(k) => Relabelled(j.e.chunks, ws, t, x.file, f, k, Marked);
  }

  lemma Relabelled(chunks: seq<Chunk>, ws: map<nat, Worker>, t: Bytes, f0: Bytes, f: Bytes, k: nat, w: Worker)
    requires Overlaid(chunks, ws, t, f0, f) && k in ws && ws[k] != Queued && w != Queued
    ensures Overlaid(chunks, ws[k := w], t, f0, f) && ws[k := w].Keys == ws.Keys
  {
    assert Arrived(ws[k := w]) == Arrived(ws) && ws[k := w].Keys == ws.Keys;
  }

  lemma CutJudged(h: Host, j: Job, t: Bytes, x: Context, pending: set<nat>, ws: map<nat, Worker>, f: Bytes)
    requires OfJob(h, j, t, x) && FetchingAs(j, t, x, Fetching(pending, ws), Some(f)) && AllMarked(ws)
    ensures (pending != {}) == (Scan(x, j.e.chunks).pending != [])
    ensures Resize(f, j.e.size) == t <==> TrustJustified(x, j.e, t)
  {
    var g := Resize(f, j.e.size);
    assert Arrived(ws) == ws.Keys == pending;
    PendingCovers(x, j.e.chunks, pending, 0);
    forall i: nat | i < j.e.size
      ensures At(g, i) == if Covered(Scan(x, j.e.chunks).pending, i) then At(t, i) else At(x.file, i)
    {
      PendingCovers(x, j.e.chunks, pending, i);
    }
    PatchedIsContent(x, j.e, t, g);
  }

  lemma PlainJudged(h: Host, j: Job, t: Bytes, x: Context, mem: set<string>, l: Local)
    requires OfJob(h, j, t, x) && l.phase.Idle? && j.e.chunks == [] && Step(h, j, mem, l, PlainFile).Some?
    ensures Step(h, j, mem, l, PlainFile).value.now == Local(Done, Some(t)) && Converges(x, j.e, t)
  {
    assert j.e.size == 0 || Covered(j.e.chunks, 0);
  }

  /** A step of this file. */
  lemma OwnStepJudged(h: Host, j: Job, t: Bytes, x: Context, mem: set<string>, l: Local, a: FileAction)
    requires OfJob(h, j, t, x) && Judged(h, j, t, x, mem, l) && Step(h, j, mem, l, a).Some?
    ensures var eff := Step(h, j, mem, l, a).value; Judged(h, j, t, x, mem + eff.marks, eff.now)
  {
    match a
    case PassDirectory =>
    case PlainFile => PlainJudged(h, j, t, x, mem, l);
    case Start => assert j.e.chunks[..0] == [];
    case SkipChunk => ScanJudged(h, j, t, x, mem, l, a);
    case QueueChunk => ScanJudged(h, j, t, x, mem, l, a);
    case StartFetch => StartFetchJudged(j, t, x, l.phase, l.file);
    case Tear(_, _) => WorkerStep(h, j, t, x, mem, l, a);
    case Write(_, _) => WorkerStep(h, j, t, x, mem, l, a);
    case Count(_) => WorkerStep(h, j, t, x, mem, l, a);
    case Mark(_) => WorkerStep(h, j, t, x, mem, l, a);
    case Cut => CutJudged(h, j, t, x, l.phase.pending, l.phase.workers, l.file.value);
    case Accept =>
    case Reject =>
    case AcceptAgain =>
  }

  lemma WorkerStep(h: Host, j: Job, t: Bytes, x: Context, mem: set<string>, l: Local, a: FileAction)
    requires OfJob(h, j, t, x) && Judged(h, j, t, x, mem, l) && Step(h, j, mem, l, a).Some?
    requires a.Tear? || a.Write? || a.Count? || a.Mark?
    ensures var eff := Step(h, j, mem, l, a).value; Judged(h, j, t, x, mem + eff.marks, eff.now)
  {
    if l.phase.Fetching? {
      WorkerJudged(h, j, t, x, mem, l, a);
    }
  }

  /** A step of another file adds no key of this one. */
  lemma OtherStepJudged(h: Host, j: Job, t: Bytes, x: Context, mem: set<string>, l: Local, marks: set<string>)
    requires Judged(h, j, t, x, mem, l) && forall k :: 0 <= k < |j.e.chunks| ==> KeyOf(h, j, k) !in marks
    ensures Judged(h, j, t, x, mem + marks, l)
  {
  }

  // ---- Whole runs ----

  /** How job f finds its file when a run starts in state s. */
  function FoundAs(h: Host, jobs: seq<Job>, s: State, f: nat): Context
    requires |s.files| == |jobs| && f < |jobs|
  {
    Opened(h, jobs[f].path, jobs[f].e, jobs[f].delta, s.files[f].file, s.mem)
  }

  /** Nothing has been started. */
  predicate AllIdle(s: State)
  {
    forall f :: 0 <= f < |s.files| ==> s.files[f].phase == Idle
  }

  ghost predicate AllJudged(h: Host, jobs: seq<Job>, ts: seq<Bytes>, s0: State, s: State)
    requires |ts| == |jobs| == |s0.files|
  {
    && |s.files| == |jobs|
    && forall f :: 0 <= f < |jobs| ==> FileJudged(h, jobs[f], ts[f], FoundAs(h, jobs, s0, f), s.mem, s.files[f])
  }

  ghost predicate FileJudged(h: Host, j: Job, t: Bytes, x: Context, mem: set<string>, l: Local)
  {
    if j.e.IsDir() then l.phase.Idle? || l.phase.Done? else Judged(h, j, t, x, mem, l)
  }

  lemma NextJudged(h: Host, jobs: seq<Job>, ts: seq<Bytes>, s0: State, s: State, act: Action)
    requires Aims(h, jobs, ts) && |s0.files| == |jobs| && AllJudged(h, jobs, ts, s0, s)
    requires !act.Crash? && Next(h, jobs, s, act).Some?
    ensures AllJudged(h, jobs, ts, s0, Next(h, jobs, s, act).value)
  {
    var s' := Next(h, jobs, s, act).value;
    if act.OnFile? {
      var f := act.f;
      var eff := Step(h, jobs[f], s.mem, s.files[f], act.a).value;
      StepMarksOwnKeys(h, jobs[f], s.mem, s.files[f], act.a);
      forall g | 0 <= g < |jobs| ensures FileJudged(h, jobs[g], ts[g], FoundAs(h, jobs, s0, g), s'.mem, s'.files[g]) {
        assert FileJudged(h, jobs[g], ts[g], FoundAs(h, jobs, s0, g), s.mem, s.files[g]);
        if g == f {
          if !jobs[f].e.IsDir() {
            OwnStepJudged(h, jobs[f], ts[f], FoundAs(h, jobs, s0, f), s.mem, s.files[f], act.a);
          }
        } else if !jobs[g].e.IsDir() {
          assert FileJudged(h, jobs[f], ts[f], FoundAs(h, jobs, s0, f), s.mem, s.files[f]);
          OtherKeys(h, jobs, ts, f, g, eff.marks);
          OtherStepJudged(h, jobs[g], ts[g], FoundAs(h, jobs, s0, g), s.mem, s.files[g], eff.marks);
        }
      }
    }
  }

  lemma {:induction false} RunJudged(h: Host, jobs: seq<Job>, ts: seq<Bytes>, s0: State, s: State, acts: seq<Action>, s': State)
    requires Aims(h, jobs, ts) && |s0.files| == |jobs| && AllJudged(h, jobs, ts, s0, s)
    requires Crash !in acts && Reaches(h, jobs, s, acts, s')
    ensures AllJudged(h, jobs, ts, s0, s')
    decreases |acts|
  {
    if acts != [] {
      NextJudged(h, jobs, ts, s0, s, acts[0]);
      RunJudged(h, jobs, ts, s0, Next(h, jobs, s, acts[0]).value, acts[1..], s');
    }
  }

  /** From any files, any marks and any deltas, whoever left them, under every interleaving: a file is done right exactly
      when every chunk taken on trust carried its bytes at the start, or a digest is there and some chunk was to be
      fetched. */
  lemma {:induction false} RunDecided(h: Host, jobs: seq<Job>, ts: seq<Bytes>, s: State, acts: seq<Action>, s': State, f: nat)
    requires Aims(h, jobs, ts) && |s.files| == |jobs| && AllIdle(s)
    requires Crash !in acts && Reaches(h, jobs, s, acts, s') && |s'.files| == |jobs|
    requires f < |jobs| && !jobs[f].e.IsDir() && s'.files[f].phase.Done?
    ensures s'.files[f].file.Some?
    ensures s'.files[f].file == Some(ts[f]) <==> Converges(FoundAs(h, jobs, s, f), jobs[f].e, ts[f])
  {
    RunJudged(h, jobs, ts, s, s, acts, s');
    assert FileJudged(h, jobs[f], ts[f], FoundAs(h, jobs, s, f), s'.mem, s'.files[f]);
  }

  /** Chunk k of job j will be taken on trust: its mark was saved, or the delta claims its id. */
  predicate Trusted(h: Host, j: Job, saved: set<string>, file: Option<Bytes>, k: nat)
    requires k < |j.e.chunks|
  {
    || KeyOf(h, j, k) in saved
    || (j.delta.Some? && file.Some? && file.value != [] && j.e.chunks[k].id in ClaimedIds(j.delta.value, |file.value|))
  }

  lemma TrustSpelledOut(h: Host, j: Job, t: Bytes, saved: set<string>, file: Option<Bytes>)
    requires Describes(h, j.e, t)
    ensures TrustJustified(Opened(h, j.path, j.e, j.delta, file, saved), j.e, t) <==>
              forall k :: 0 <= k < |j.e.chunks| && Trusted(h, j, saved, file, k) ==> Good(j, t, file, k)
  {
    var x := Opened(h, j.path, j.e, j.delta, file, saved);
    forall k | 0 <= k < |j.e.chunks|
      ensures x.Trusts(j.e.chunks[k]) <==> Trusted(h, j, saved, file, k)
      ensures Holds(x.file, j.e.chunks[k], t) <==> Good(j, t, file, k)
    {
      assert x.Key(j.e.chunks[k]) == KeyOf(h, j, k);
    }
  }

  // ---- From a disk to a disk ----

  /** A start with the files on disk and the marks in the checkpoint. */
  function Boot(jobs: seq<Job>, disk: map<string, Bytes>, marks: set<string>): (s: State)
    ensures |s.files| == |jobs| && AllIdle(s)
    ensures forall f :: 0 <= f < |jobs| ==> s.files[f].file == Find(disk, jobs[f].path)
  {
    State(seq(|jobs|, f requires 0 <= f < |jobs| => Local(Idle, Find(disk, jobs[f].path))), marks, marks, 0, 0)
  }

  /** The disk with the files of the first n jobs put back as they are. */
  function DiskAfter(jobs: seq<Job>, files: seq<Local>, n: nat, disk: map<string, Bytes>): map<string, Bytes>
    requires n <= |jobs| == |files|
  {
    if n == 0 then disk else
      var d := DiskAfter(jobs, files, n - 1, disk);
      var p := jobs[n - 1].path;
      if files[n - 1].file.Some? then d[p := files[n - 1].file.value] else d - {p}
  }

  predicate OwnPaths(jobs: seq<Job>)
  {
    forall f, g :: 0 <= f < g < |jobs| ==> jobs[f].path != jobs[g].path
  }

  lemma {:induction false} DiskAfterAt(jobs: seq<Job>, files: seq<Local>, n: nat, disk: map<string, Bytes>, f: nat)
    requires OwnPaths(jobs) && f < n <= |jobs| == |files|
    ensures Find(DiskAfter(jobs, files, n, disk), jobs[f].path) == files[f].file
  {
    if f < n - 1 {
      DiskAfterAt(jobs, files, n - 1, disk, f);
    }
  }

  lemma {:induction false} DiskAfterElsewhere(jobs: seq<Job>, files: seq<Local>, n: nat, disk: map<string, Bytes>, p: string)
    requires n <= |jobs| == |files| && forall f :: 0 <= f < n ==> jobs[f].path != p
    ensures Find(DiskAfter(jobs, files, n, disk), p) == Find(disk, p)
  {
    if n > 0 {
      DiskAfterElsewhere(jobs, files, n - 1, disk, p);
    }
  }
}
