/** The download as interleaved atomic steps of many file and chunk workers, with saves, crashes and restarts.
    File workers and chunk workers run concurrently in the source; here any of them may step next. */
module Engine {
  import opened Text
  import opened Depot
  import opened Diff
  import opened Plan
  import opened Stream

  /** One manifest entry with its normalised path and its delta, if the diff has one. */
  datatype Job = Job(path: string, e: Entry, delta: Option<FileDiff>)

  /** A chunk worker: nothing done yet, bytes written, bytes counted, key marked. */
  datatype Worker = Queued | Wrote | Counted | Marked

  datatype Phase =
    | Idle
    | Scanning(claims: set<string>, existed: bool, size0: nat, next: nat, pending: set<nat>)
    | Fetching(pending: set<nat>, workers: map<nat, Worker>)
    | Truncated(fetched: bool)
    | Refetching(workers: map<nat, Worker>)
    | Done

  datatype Local = Local(phase: Phase, file: Option<Bytes>)

  /** What a step of one file changes: its own state, the marks it adds, the counters it moves. */
  datatype Effect = Effect(now: Local, marks: set<string>, downloaded: nat, network: nat)

  datatype FileAction =
    | Start | SkipChunk | QueueChunk | StartFetch
    | Tear(k: nat, junk: Bytes) | Write(k: nat, data: Bytes) | Count(k: nat) | Mark(k: nat)
    | Cut | Accept | Reject | AcceptAgain
    | PassDirectory | PlainFile

  function KeyOf(h: Host, j: Job, k: nat): string
    requires k < |j.e.chunks|
  {
    ChunkKey(h, j.path, j.e.chunks[k])
  }

  function WorkersOf(p: Phase): map<nat, Worker>
  {
    match p
    case Fetching(_, ws) => ws
    case Refetching(ws) => ws
    case _ => map[]
  }

  function SetWorker(p: Phase, k: nat, w: Worker): Phase
  {
    match p
    case Fetching(pending, ws) => Fetching(pending, ws[k := w])
    case Refetching(ws) => Refetching(ws[k := w])
    case _ => p
  }

  function AllQueued(n: nat): (ws: map<nat, Worker>)
    ensures forall k: nat :: k in ws <==> k < n
  {
    if n == 0 then map[] else AllQueued(n - 1)[n - 1 := Queued]
  }

  function QueueAll(pending: set<nat>): map<nat, Worker>
  {
    map k | k in pending :: Queued
  }

  predicate AllMarked(ws: map<nat, Worker>)
  {
    forall k :: k in ws ==> ws[k] == Marked
  }

  function OpenFile(h: Host, j: Job, mem: set<string>, file: Option<Bytes>): Local
  {
    var x := Opened(h, j.path, j.e, j.delta, file, mem);
    Local(Scanning(x.claims, x.existed, x.size0, 0, {}), Some(x.file))
  }

  /** The step of one file, if it is enabled. `mem` are the marks in memory. */
  function Step(h: Host, j: Job, mem: set<string>, l: Local, a: FileAction): Option<Effect>
  {
    var chunks, n := j.e.chunks, |j.e.chunks|;
    var f := Bytes0(l.file);
    match a
    case PassDirectory =>
      if l.phase.Idle? && j.e.IsDir() then Some(Effect(l.(phase := Done), {}, 0, 0)) else None
    case PlainFile =>
      if l.phase.Idle? && !j.e.IsDir() && n == 0 then
        var upToDate := l.file.Some? && |f| == j.e.size && (j.e.sha1 == "" || EqualFold(h.sha1(f), j.e.sha1));
        Some(Effect(Local(Done, if upToDate then l.file else Some(Zeros(j.e.size))), {}, j.e.size, 0))
      else None
    case Start =>
      if l.phase.Idle? && !j.e.IsDir() && n > 0 then Some(Effect(OpenFile(h, j, mem, l.file), {}, 0, 0)) else None
    case SkipChunk =>
      if l.phase.Scanning? && l.phase.next < n then
        var p, c := l.phase, chunks[l.phase.next];
        if KeyOf(h, j, p.next) in mem || c.id in p.claims || (p.existed && c.End() <= p.size0 && ValidOnDisk(h, f, c)) then
          Some(Effect(l.(phase := p.(next := p.next + 1)), {KeyOf(h, j, p.next)}, c.size, 0))
        else None
      else None
    case QueueChunk =>
      if l.phase.Scanning? && l.phase.next < n then
        var p, c := l.phase, chunks[l.phase.next];
        if KeyOf(h, j, p.next) in mem || c.id in p.claims || (p.existed && c.End() <= p.size0 && ValidOnDisk(h, f, c)) then None
        else Some(Effect(l.(phase := p.(next := p.next + 1, pending := p.pending + {p.next})), {}, 0, 0))
      else None
    case StartFetch =>
      if l.phase.Scanning? && l.phase.next == n then
        Some(Effect(l.(phase := Fetching(l.phase.pending, QueueAll(l.phase.pending))), {}, 0, 0))
      else None
    case Tear(k, junk) =>
      if k in WorkersOf(l.phase) && k < n && WorkersOf(l.phase)[k] == Queued && |junk| <= chunks[k].size then
        Some(Effect(l.(file := Some(WriteAt(f, chunks[k].offset, junk))), {}, 0, 0))
      else None
    case Write(k, data) =>
      if k in WorkersOf(l.phase) && k < n && WorkersOf(l.phase)[k] == Queued
         && (|chunks[k].id| == 40 ==> EqualFold(h.sha1(data), chunks[k].id)) then
        Some(Effect(Local(SetWorker(l.phase, k, Wrote), Some(WriteAt(f, chunks[k].offset, data))), {}, 0, 0))
      else None
    case Count(k) =>
      if k in WorkersOf(l.phase) && k < n && WorkersOf(l.phase)[k] == Wrote then
        Some(Effect(l.(phase := SetWorker(l.phase, k, Counted)), {},
                    if l.phase.Fetching? then chunks[k].size else 0, chunks[k].size))
      else None
    case Mark(k) =>
      if k in WorkersOf(l.phase) && k < n && WorkersOf(l.phase)[k] == Counted then
        Some(Effect(l.(phase := SetWorker(l.phase, k, Marked)), {KeyOf(h, j, k)}, 0, 0))
      else None
    case Cut =>
      if l.phase.Fetching? && AllMarked(l.phase.workers) then
        Some(Effect(Local(Truncated(l.phase.pending != {}), Some(Resize(f, j.e.size))), {}, 0, 0))
      else None
    case Accept =>
      if l.phase.Truncated? && (j.e.sha1 == "" || !l.phase.fetched || EqualFold(h.sha1(f), j.e.sha1)) then
        Some(Effect(l.(phase := Done), {}, 0, 0))
      else None
    case Reject =>
      if l.phase.Truncated? && j.e.sha1 != "" && l.phase.fetched && !EqualFold(h.sha1(f), j.e.sha1) then
        Some(Effect(Local(Refetching(AllQueued(n)), Some(Preallocate([], j.e.size))), {}, 0, 0))
      else None
    case AcceptAgain =>
      if l.phase.Refetching? && AllMarked(l.phase.workers) && EqualFold(h.sha1(f), j.e.sha1) then
        Some(Effect(l.(phase := Done), {}, 0, 0))
      else None
  }

  // ---- The whole run ----

  datatype State = State(files: seq<Local>, mem: set<string>, saved: set<string>, downloaded: nat, network: nat)

  /** A file or chunk worker steps, saving the marks or not; an abort flushes them; the process dies and restarts. */
  datatype Action = OnFile(f: nat, a: FileAction, save: bool) | Flush | Crash

  function Restarted(files: seq<Local>): (r: seq<Local>)
    ensures |r| == |files|
  {
    seq(|files|, i requires 0 <= i < |files| => Local(Idle, files[i].file))
  }

  function Next(h: Host, jobs: seq<Job>, s: State, act: Action): Option<State>
    requires |s.files| == |jobs|
  {
    match act
    case OnFile(f, a, save) =>
      if f >= |jobs| then None else
        var eff := Step(h, jobs[f], s.mem, s.files[f], a);
        if eff.None? then None else
          var mem := s.mem + eff.value.marks;
          Some(State(s.files[f := eff.value.now], mem, if save then mem else s.saved,
                     s.downloaded + eff.value.downloaded, s.network + eff.value.network))
    case Flush => Some(s.(saved := s.mem))
    case Crash => Some(State(Restarted(s.files), s.saved, s.saved, 0, 0))
  }

  ghost predicate Reaches(h: Host, jobs: seq<Job>, s: State, acts: seq<Action>, s': State)
    requires |s.files| == |jobs|
    decreases |acts|
  {
    if acts == [] then s == s' else
      var mid := Next(h, jobs, s, acts[0]);
      mid.Some? && Reaches(h, jobs, mid.value, acts[1..], s')
  }

  // ---- Safety: marks are backed by bytes ----

  /** `ts` are the contents the regular jobs describe; keys of different jobs differ. */
  ghost predicate Aims(h: Host, jobs: seq<Job>, ts: seq<Bytes>)
  {
    && |ts| == |jobs|
    && (forall f :: 0 <= f < |jobs| && !jobs[f].e.IsDir() ==> Describes(h, jobs[f].e, ts[f]))
    && (forall f, g :: 0 <= f < g < |jobs| && !jobs[f].e.IsDir() && !jobs[g].e.IsDir() ==>
          h.norm(jobs[f].path) != h.norm(jobs[g].path))
  }

  /** Besides, the deltas speak of the jobs' own chunks. */
  ghost predicate World(h: Host, jobs: seq<Job>, ts: seq<Bytes>)
  {
    Aims(h, jobs, ts) && forall f :: 0 <= f < |jobs| && !jobs[f].e.IsDir() ==> GoodJob(h, jobs[f], ts[f])
  }

  ghost predicate GoodJob(h: Host, j: Job, t: Bytes)
  {
    Describes(h, j.e, t) && (j.delta.Some? ==> forall c :: c in j.delta.value.kept ==> c in j.e.chunks)
  }

  predicate InDelta(j: Job, id: string)
  {
    j.delta.Some? && exists c :: c in j.delta.value.kept && c.id == id
  }

  /** Chunk k carries its bytes. */
  ghost predicate Good(j: Job, t: Bytes, file: Option<Bytes>, k: nat)
    requires k < |j.e.chunks|
  {
    Holds(Bytes0(file), j.e.chunks[k], t)
  }

  /** Nothing on record speaks for chunk k: its bytes may be in any state. */
  predicate Unclaimed(h: Host, j: Job, mem: set<string>, k: nat)
    requires k < |j.e.chunks|
  {
    j.e.chunks[k].size == 0 || (KeyOf(h, j, k) !in mem && !InDelta(j, j.e.chunks[k].id))
  }

  /** The old file of a delta is there, reaches over all unchanged chunks and carries their bytes. */
  ghost predicate DeltaBacked(j: Job, t: Bytes, file: Option<Bytes>)
  {
    j.delta.Some? ==>
      && file.Some?
      && (forall c :: c in j.delta.value.kept ==> c.End() <= |file.value|)
      && forall k :: 0 <= k < |j.e.chunks| && InDelta(j, j.e.chunks[k].id) ==> Good(j, t, file, k)
  }

  ghost predicate MarksBacked(h: Host, j: Job, t: Bytes, mem: set<string>, file: Option<Bytes>)
  {
    forall k :: 0 <= k < |j.e.chunks| && KeyOf(h, j, k) in mem ==> Good(j, t, file, k)
  }

  ghost predicate PhaseOk(h: Host, j: Job, t: Bytes, mem: set<string>, l: Local)
  {
    var n := |j.e.chunks|;
    match l.phase
    case Idle => true
    case Scanning(claims, _, size0, next, pending) =>
      && next <= n && l.file.Some? && size0 <= |l.file.value|
      && (j.delta.Some? ==> forall c :: c in j.delta.value.kept ==> c.End() <= size0)
      && (forall id :: id in claims ==> InDelta(j, id))
      && (size0 > 0 && j.delta.Some? ==> forall id :: InDelta(j, id) ==> id in claims)
      && (forall k :: k in pending ==> k < next && Unclaimed(h, j, mem, k))
      && (forall k :: 0 <= k < next && k !in pending ==> Good(j, t, l.file, k))
    case Fetching(pending, ws) =>
      && ws.Keys == pending && l.file.Some?
      && (forall k :: k in pending ==> k < n)
      && (forall k :: k in ws && ws[k] == Queued ==> Unclaimed(h, j, mem, k))
      && (forall k :: 0 <= k < n && !(k in ws && ws[k] == Queued) ==> Good(j, t, l.file, k))
    case Truncated(_) => l.file == Some(t)
    case Refetching(_) => false
    case Done => j.e.IsDir() || l.file == Some(t)
  }

  ghost predicate FileSafe(h: Host, j: Job, t: Bytes, mem: set<string>, l: Local)
  {
    if j.e.IsDir() then l.phase.Idle? || l.phase.Done?
    else DeltaBacked(j, t, l.file) && MarksBacked(h, j, t, mem, l.file) && PhaseOk(h, j, t, mem, l)
  }

  ghost predicate Safe(h: Host, jobs: seq<Job>, ts: seq<Bytes>, s: State)
    requires |ts| == |jobs|
  {
    && |s.files| == |jobs| && s.saved <= s.mem
    && forall f :: 0 <= f < |jobs| ==> FileSafe(h, jobs[f], ts[f], s.mem, s.files[f])
  }

  /** Two chunks of one file share a key only if they are empty. */
  lemma KeyClash(h: Host, j: Job, t: Bytes, k: nat, l: nat)
    requires GoodJob(h, j, t) && k < |j.e.chunks| && l < |j.e.chunks| && k != l
    requires KeyOf(h, j, k) == KeyOf(h, j, l)
    ensures j.e.chunks[k].size == 0 && j.e.chunks[l].size == 0
  {
    KeyIdentifiesChunk(h, j.path, j.e.chunks[k], j.path, j.e.chunks[l]);
    SameDigestSameSize(h, j.e, t, k, l);
    assert if k < l then Disjoint(j.e.chunks[k], j.e.chunks[l]) else Disjoint(j.e.chunks[l], j.e.chunks[k]);
  }

  /** A mark for a chunk that carries its bytes keeps all marks backed and touches no claim on another chunk. */
  lemma MarkIsBacked(h: Host, j: Job, t: Bytes, mem: set<string>, file: Option<Bytes>, k: nat)
    requires GoodJob(h, j, t) && k < |j.e.chunks| && Good(j, t, file, k) && MarksBacked(h, j, t, mem, file)
    ensures MarksBacked(h, j, t, mem + {KeyOf(h, j, k)}, file)
    ensures forall l :: 0 <= l < |j.e.chunks| && l != k && Unclaimed(h, j, mem, l) ==> Unclaimed(h, j, mem + {KeyOf(h, j, k)}, l)
  {
    forall l | 0 <= l < |j.e.chunks| && l != k && KeyOf(h, j, l) == KeyOf(h, j, k) ensures j.e.chunks[l].size == 0 {
      KeyClash(h, j, t, k, l);
    }
  }

  /** Bytes written inside chunk k leave every other chunk alone. */
  lemma {:induction false} WriteInside(j: Job, t: Bytes, file: Option<Bytes>, k: nat, data: Bytes, l: nat)
    requires Tiles(j.e.chunks, j.e.size) && k < |j.e.chunks| && l < |j.e.chunks| && |data| <= j.e.chunks[k].size
    requires l != k || j.e.chunks[k].size == 0
    requires Good(j, t, file, l)
    ensures Good(j, t, Some(WriteAt(Bytes0(file), j.e.chunks[k].offset, data)), l)
  {
    if l != k {
      assert if k < l then Disjoint(j.e.chunks[k], j.e.chunks[l]) else Disjoint(j.e.chunks[l], j.e.chunks[k]);
    }
  }

  /** Writing anything inside an unclaimed chunk leaves what is on record backed. */
  lemma {:induction false} UnclaimedWrite(h: Host, j: Job, t: Bytes, mem: set<string>, file: Option<Bytes>, k: nat, data: Bytes)
    requires GoodJob(h, j, t) && k < |j.e.chunks| && |data| <= j.e.chunks[k].size
    requires Unclaimed(h, j, mem, k) && DeltaBacked(j, t, file) && MarksBacked(h, j, t, mem, file)
    ensures var g := Some(WriteAt(Bytes0(file), j.e.chunks[k].offset, data));
      DeltaBacked(j, t, g) && MarksBacked(h, j, t, mem, g)
  {
    forall l | 0 <= l < |j.e.chunks| && Good(j, t, file, l) && (KeyOf(h, j, l) in mem || InDelta(j, j.e.chunks[l].id))
      ensures Good(j, t, Some(WriteAt(Bytes0(file), j.e.chunks[k].offset, data)), l)
    {
      WriteInside(j, t, file, k, data, l);
    }
  }

  /** The verified payload of chunk k is its part of the content. */
  lemma PayloadIsSlice(h: Host, j: Job, t: Bytes, k: nat, data: Bytes)
    requires Describes(h, j.e, t) && k < |j.e.chunks| && EqualFold(h.sha1(data), j.e.chunks[k].id)
    ensures data == Slice(t, j.e.chunks[k]) && |data| == j.e.chunks[k].size
  {
  }

  /** Padding or cutting a file at its final size keeps every chunk. */
  lemma {:induction false} ResizeKeeps(h: Host, j: Job, t: Bytes, mem: set<string>, file: Option<Bytes>, g: Bytes)
    requires GoodJob(h, j, t) && DeltaBacked(j, t, file) && MarksBacked(h, j, t, mem, file)
    requires |g| >= j.e.size && forall i: nat :: i < j.e.size ==> At(g, i) == At(Bytes0(file), i)
    ensures forall k :: 0 <= k < |j.e.chunks| && Good(j, t, file, k) ==> Good(j, t, Some(g), k)
    ensures DeltaBacked(j, t, Some(g)) && MarksBacked(h, j, t, mem, Some(g))
  {
    forall k | 0 <= k < |j.e.chunks| && Good(j, t, file, k) ensures Good(j, t, Some(g), k) {
    }
    if j.delta.Some? {
      forall c | c in j.delta.value.kept ensures c.End() <= |g| {
        var k :| 0 <= k < |j.e.chunks| && j.e.chunks[k] == c;
      }
    }
  }

  // One lemma per kind of step.

  lemma {:induction false} StartSafe(h: Host, j: Job, t: Bytes, mem: set<string>, l: Local)
    requires GoodJob(h, j, t) && !j.e.IsDir() && FileSafe(h, j, t, mem, l) && Step(h, j, mem, l, Start).Some?
    ensures FileSafe(h, j, t, mem, OpenFile(h, j, mem, l.file))
  {
    var now := OpenFile(h, j, mem, l.file);
    forall i: nat ensures At(Bytes0(now.file), i) == At(Bytes0(l.file), i) {
    }
    forall k | 0 <= k < |j.e.chunks| && Good(j, t, l.file, k) ensures Good(j, t, now.file, k) {
    }
  }

  lemma SkipSafe(h: Host, j: Job, t: Bytes, mem: set<string>, l: Local)
    requires GoodJob(h, j, t) && !j.e.IsDir() && FileSafe(h, j, t, mem, l) && Step(h, j, mem, l, SkipChunk).Some?
    ensures var eff := Step(h, j, mem, l, SkipChunk).value;
      FileSafe(h, j, t, mem + eff.marks, eff.now)
  {
    var k := l.phase.next;
    assert Good(j, t, l.file, k) by {
      if KeyOf(h, j, k) !in mem && j.e.chunks[k].id !in l.phase.claims {
        ValidExactly(h, j.e, t, k, l.file.value);
      }
    }
    MarkIsBacked(h, j, t, mem, l.file, k);
  }

  lemma QueueSafe(h: Host, j: Job, t: Bytes, mem: set<string>, l: Local)
    requires GoodJob(h, j, t) && !j.e.IsDir() && FileSafe(h, j, t, mem, l) && Step(h, j, mem, l, QueueChunk).Some?
    ensures var eff := Step(h, j, mem, l, QueueChunk).value;
      FileSafe(h, j, t, mem, eff.now)
  {
    QueuedIsUnclaimed(h, j, t, mem, l);
  }

  /** A chunk that is queued has no mark, and the delta can only speak for it if it is empty. */
  lemma QueuedIsUnclaimed(h: Host, j: Job, t: Bytes, mem: set<string>, l: Local)
    requires GoodJob(h, j, t) && !j.e.IsDir() && FileSafe(h, j, t, mem, l) && Step(h, j, mem, l, QueueChunk).Some?
    ensures Unclaimed(h, j, mem, l.phase.next)
  {
    var k := l.phase.next;
    if InDelta(j, j.e.chunks[k].id) {
      assert l.phase.size0 == 0;
      var d :| d in j.delta.value.kept && d.id == j.e.chunks[k].id;
      var i :| 0 <= i < |j.e.chunks| && j.e.chunks[i] == d;
      SameDigestSameSize(h, j.e, t, i, k);
    }
  }

  lemma WorkerSafe(h: Host, j: Job, t: Bytes, mem: set<string>, l: Local, k: nat, a: FileAction)
    requires GoodJob(h, j, t) && !j.e.IsDir() && FileSafe(h, j, t, mem, l) && Step(h, j, mem, l, a).Some?
    requires (a.Tear? && a.k == k) || (a.Write? && a.k == k)
    ensures FileSafe(h, j, t, mem, Step(h, j, mem, l, a).value.now)
  {
    match a
    case Tear(_, junk) => TearSafe(h, j, t, mem, l, k, junk);
    case Write(_, data) => WriteSafe(h, j, t, mem, l, k, data);
  }

  lemma TearSafe(h: Host, j: Job, t: Bytes, mem: set<string>, l: Local, k: nat, junk: Bytes)
    requires GoodJob(h, j, t) && !j.e.IsDir() && FileSafe(h, j, t, mem, l) && Step(h, j, mem, l, Tear(k, junk)).Some?
    ensures FileSafe(h, j, t, mem, Step(h, j, mem, l, Tear(k, junk)).value.now)
  {
    UnclaimedWrite(h, j, t, mem, l.file, k, junk);
    OthersGood(h, j, t, l.file, k, junk);
  }

  lemma WriteSafe(h: Host, j: Job, t: Bytes, mem: set<string>, l: Local, k: nat, data: Bytes)
    requires GoodJob(h, j, t) && !j.e.IsDir() && FileSafe(h, j, t, mem, l) && Step(h, j, mem, l, Write(k, data)).Some?
    ensures FileSafe(h, j, t, mem, Step(h, j, mem, l, Write(k, data)).value.now)
  {
    PayloadIsSlice(h, j, t, k, data);
    UnclaimedWrite(h, j, t, mem, l.file, k, data);
    OthersGood(h, j, t, l.file, k, data);
    assert Good(j, t, Some(WriteAt(Bytes0(l.file), j.e.chunks[k].offset, data)), k);
  }

  lemma OthersGood(h: Host, j: Job, t: Bytes, file: Option<Bytes>, k: nat, data: Bytes)
    requires GoodJob(h, j, t) && k < |j.e.chunks| && |data| <= j.e.chunks[k].size
    ensures forall i :: 0 <= i < |j.e.chunks| && i != k && Good(j, t, file, i) ==>
              Good(j, t, Some(WriteAt(Bytes0(file), j.e.chunks[k].offset, data)), i)
  {
    forall i | 0 <= i < |j.e.chunks| && i != k && Good(j, t, file, i)
      ensures Good(j, t, Some(WriteAt(Bytes0(file), j.e.chunks[k].offset, data)), i)
    {
      WriteInside(j, t, file, k, data, i);
    }
  }

  lemma MarkSafe(h: Host, j: Job, t: Bytes, mem: set<string>, l: Local, k: nat)
    requires GoodJob(h, j, t) && !j.e.IsDir() && FileSafe(h, j, t, mem, l) && Step(h, j, mem, l, Mark(k)).Some?
    ensures var eff := Step(h, j, mem, l, Mark(k)).value;
      FileSafe(h, j, t, mem + eff.marks, eff.now)
  {
    assert Good(j, t, l.file, k);
    MarkIsBacked(h, j, t, mem, l.file, k);
  }

  lemma CutSafe(h: Host, j: Job, t: Bytes, mem: set<string>, l: Local)
    requires GoodJob(h, j, t) && !j.e.IsDir() && FileSafe(h, j, t, mem, l) && Step(h, j, mem, l, Cut).Some?
    ensures FileSafe(h, j, t, mem, Step(h, j, mem, l, Cut).value.now)
  {
    var g := Resize(Bytes0(l.file), j.e.size);
    ResizeKeeps(h, j, t, mem, l.file, g);
    forall k | 0 <= k < |j.e.chunks| ensures Holds(g, j.e.chunks[k], t) {
      assert Good(j, t, l.file, k);
      assert Good(j, t, Some(g), k);
    }
    AllHoldIsContent(h, j.e, t, g);
  }

  /** Every step of a file keeps it safe; in particular the digest never rejects it. */
  lemma OwnStepSafe(h: Host, j: Job, t: Bytes, mem: set<string>, l: Local, a: FileAction)
    requires j.e.IsDir() || GoodJob(h, j, t)
    requires FileSafe(h, j, t, mem, l) && Step(h, j, mem, l, a).Some?
    ensures var eff := Step(h, j, mem, l, a).value;
      FileSafe(h, j, t, mem + eff.marks, eff.now)
  {
    if j.e.IsDir() { return; }
    var eff := Step(h, j, mem, l, a).value;
    match a
    case SkipChunk => SkipSafe(h, j, t, mem, l);
    case Mark(k) => MarkSafe(h, j, t, mem, l, k);
    case Start => assert mem + eff.marks == mem; StartSafe(h, j, t, mem, l);
    case QueueChunk => assert mem + eff.marks == mem; QueueSafe(h, j, t, mem, l);
    case Tear(k, _) => assert mem + eff.marks == mem; WorkerSafe(h, j, t, mem, l, k, a);
    case Write(k, _) => assert mem + eff.marks == mem; WorkerSafe(h, j, t, mem, l, k, a);
    case Cut => assert mem + eff.marks == mem; CutSafe(h, j, t, mem, l);
    case PlainFile => assert mem + eff.marks == mem; PlainSafe(h, j, t, mem, l);
    case StartFetch => assert mem + eff.marks == mem; QuietSafe(h, j, t, mem, l, a);
    case Count(_) => assert mem + eff.marks == mem; QuietSafe(h, j, t, mem, l, a);
    case Accept => assert mem + eff.marks == mem; QuietSafe(h, j, t, mem, l, a);
    case Reject =>
    case AcceptAgain =>
    case PassDirectory =>
  }

  lemma QuietSafe(h: Host, j: Job, t: Bytes, mem: set<string>, l: Local, a: FileAction)
    requires GoodJob(h, j, t) && !j.e.IsDir() && FileSafe(h, j, t, mem, l) && Step(h, j, mem, l, a).Some?
    requires a.StartFetch? || a.Count? || a.Accept?
    ensures FileSafe(h, j, t, mem, Step(h, j, mem, l, a).value.now)
  {
  }

  lemma PlainSafe(h: Host, j: Job, t: Bytes, mem: set<string>, l: Local)
    requires GoodJob(h, j, t) && !j.e.IsDir() && FileSafe(h, j, t, mem, l) && Step(h, j, mem, l, PlainFile).Some?
    ensures FileSafe(h, j, t, mem, Step(h, j, mem, l, PlainFile).value.now)
  {
    assert j.e.size == 0 || Covered(j.e.chunks, 0);
  }

  /** Marks of other files do not matter to this one. */
  lemma OtherStepSafe(h: Host, j: Job, t: Bytes, mem: set<string>, l: Local, marks: set<string>)
    requires j.e.IsDir() || GoodJob(h, j, t)
    requires FileSafe(h, j, t, mem, l)
    requires j.e.IsDir() || forall k :: 0 <= k < |j.e.chunks| ==> KeyOf(h, j, k) !in marks
    ensures FileSafe(h, j, t, mem + marks, l)
  {
  }

  // ---- Whole runs ----

  lemma StepMarksOwnKeys(h: Host, j: Job, mem: set<string>, l: Local, a: FileAction)
    requires Step(h, j, mem, l, a).Some?
    ensures l.phase.Idle? || l.phase.Done? ==> Step(h, j, mem, l, a).value.marks == {}
    ensures forall key :: key in Step(h, j, mem, l, a).value.marks ==> exists k :: 0 <= k < |j.e.chunks| && key == KeyOf(h, j, k)
  {
  }

  /** One step of anything, including a crash with restart, keeps every mark backed by bytes on disk. */
  lemma NextSafe(h: Host, jobs: seq<Job>, ts: seq<Bytes>, s: State, act: Action)
    requires World(h, jobs, ts) && Safe(h, jobs, ts, s) && Next(h, jobs, s, act).Some?
    ensures Safe(h, jobs, ts, Next(h, jobs, s, act).value)
  {
    var s' := Next(h, jobs, s, act).value;
    if act.OnFile? {
      var f := act.f;
      var eff := Step(h, jobs[f], s.mem, s.files[f], act.a).value;
      StepMarksOwnKeys(h, jobs[f], s.mem, s.files[f], act.a);
      forall g | 0 <= g < |jobs| ensures FileSafe(h, jobs[g], ts[g], s'.mem, s'.files[g]) {
        if g == f {
          OwnStepSafe(h, jobs[f], ts[f], s.mem, s.files[f], act.a);
        } else if !jobs[g].e.IsDir() {
          OtherKeys(h, jobs, ts, f, g, eff.marks);
          OtherStepSafe(h, jobs[g], ts[g], s.mem, s.files[g], eff.marks);
        }
      }
    } else {
      forall g | 0 <= g < |jobs| ensures FileSafe(h, jobs[g], ts[g], s'.mem, s'.files[g]) {
        assert FileSafe(h, jobs[g], ts[g], s.mem, s.files[g]);
      }
    }
  }

  lemma OtherKeys(h: Host, jobs: seq<Job>, ts: seq<Bytes>, f: nat, g: nat, marks: set<string>)
    requires Aims(h, jobs, ts) && f < |jobs| && g < |jobs| && f != g && !jobs[g].e.IsDir()
    requires forall key :: key in marks ==> exists k :: 0 <= k < |jobs[f].e.chunks| && key == KeyOf(h, jobs[f], k)
    requires jobs[f].e.IsDir() ==> marks == {}
    ensures forall k :: 0 <= k < |jobs[g].e.chunks| ==> KeyOf(h, jobs[g], k) !in marks
  {
    forall k | 0 <= k < |jobs[g].e.chunks| ensures KeyOf(h, jobs[g], k) !in marks {
      if KeyOf(h, jobs[g], k) in marks {
        var i :| 0 <= i < |jobs[f].e.chunks| && KeyOf(h, jobs[g], k) == KeyOf(h, jobs[f], i);
        KeyIdentifiesChunk(h, jobs[f].path, jobs[f].e.chunks[i], jobs[g].path, jobs[g].e.chunks[k]);
      }
    }
  }

  /** Crash and resume safety: over every run, with any number of crashes, persisted marks stay among the marks in
      memory, these stay backed by bytes on disk, and a run that finishes has left exactly the described contents. */
  lemma {:induction false} RunSafe(h: Host, jobs: seq<Job>, ts: seq<Bytes>, s: State, acts: seq<Action>, s': State)
    requires World(h, jobs, ts) && Safe(h, jobs, ts, s) && Reaches(h, jobs, s, acts, s')
    ensures Safe(h, jobs, ts, s')
    ensures s'.saved <= s'.mem
    ensures forall f :: 0 <= f < |jobs| && !jobs[f].e.IsDir() ==>
              !s'.files[f].phase.Refetching? && (s'.files[f].phase.Done? ==> s'.files[f].file == Some(ts[f]))
    decreases |acts|
  {
    if acts != [] {
      NextSafe(h, jobs, ts, s, acts[0]);
      RunSafe(h, jobs, ts, Next(h, jobs, s, acts[0]).value, acts[1..], s');
    } else {
      forall f | 0 <= f < |jobs| && !jobs[f].e.IsDir()
        ensures !s'.files[f].phase.Refetching? && (s'.files[f].phase.Done? ==> s'.files[f].file == Some(ts[f]))
      {
        assert FileSafe(h, jobs[f], ts[f], s'.mem, s'.files[f]);
      }
    }
  }

  /** The disk before the first run: jobs idle, no marks, and every delta made against the old file on disk. */
  ghost predicate FreshStart(h: Host, jobs: seq<Job>, s: State)
  {
    && |s.files| == |jobs| && s.mem == {} && s.saved == {} && s.downloaded == 0 && s.network == 0
    && (forall f :: 0 <= f < |jobs| ==> s.files[f].phase == Idle)
    && (forall f :: 0 <= f < |jobs| && jobs[f].delta.Some? ==> GroundedDelta(h, jobs[f], s.files[f].file))
  }

  ghost predicate GroundedDelta(h: Host, j: Job, file: Option<Bytes>)
  {
    file.Some? && (forall i, k :: 0 <= i < k < |j.e.chunks| ==> j.e.chunks[i].id != j.e.chunks[k].id)
    && exists o: Entry :: Describes(h, o, file.value) && j.delta == Some(DiffOf(o, j.e))
  }

  lemma FreshStartIsSafe(h: Host, jobs: seq<Job>, ts: seq<Bytes>, s: State)
    requires World(h, jobs, ts) && FreshStart(h, jobs, s)
    ensures Safe(h, jobs, ts, s)
  {
    forall f | 0 <= f < |jobs| ensures FileSafe(h, jobs[f], ts[f], s.mem, s.files[f]) {
      if !jobs[f].e.IsDir() && jobs[f].delta.Some? {
        GroundedDeltaIsBacked(h, jobs[f], ts[f], s.files[f].file);
      }
    }
  }

  lemma GroundedDeltaIsBacked(h: Host, j: Job, t: Bytes, file: Option<Bytes>)
    requires GoodJob(h, j, t) && j.delta.Some? && GroundedDelta(h, j, file)
    ensures DeltaBacked(j, t, file)
  {
    var o: Entry :| Describes(h, o, file.value) && j.delta == Some(DiffOf(o, j.e));
    forall k | 0 <= k < |j.e.chunks| && j.e.chunks[k] in j.delta.value.kept
      ensures Good(j, t, file, k) && j.e.chunks[k].End() <= |file.value|
    {
      UnchangedChunkHolds(h, o, j.e, file.value, t, k);
    }
    forall c | c in j.delta.value.kept ensures c.End() <= |file.value| {
      var k :| 0 <= k < |j.e.chunks| && j.e.chunks[k] == c;
    }
    forall k | 0 <= k < |j.e.chunks| && InDelta(j, j.e.chunks[k].id) ensures Good(j, t, file, k) {
      var c :| c in j.delta.value.kept && c.id == j.e.chunks[k].id;
      var i :| 0 <= i < |j.e.chunks| && j.e.chunks[i] == c;
      assert i == k;
    }
  }

  /** Any two finished runs from one safe state, interrupted or not, leave the same regular files. */
  lemma {:induction false} ResumedEqualsUninterrupted(h: Host, jobs: seq<Job>, ts: seq<Bytes>, s: State,
                                   acts: seq<Action>, s': State, others: seq<Action>, s'': State)
    requires World(h, jobs, ts) && Safe(h, jobs, ts, s)
    requires Reaches(h, jobs, s, acts, s') && Reaches(h, jobs, s, others, s'')
    requires |s'.files| == |s''.files| == |jobs|
    requires forall f :: 0 <= f < |jobs| ==> s'.files[f].phase.Done? && s''.files[f].phase.Done?
    ensures forall f :: 0 <= f < |jobs| && !jobs[f].e.IsDir() ==> s'.files[f].file == s''.files[f].file == Some(ts[f])
  {
    RunSafe(h, jobs, ts, s, acts, s');
    RunSafe(h, jobs, ts, s, others, s'');
  }

  // ---- Conservation of bytes ----

  /** Chunk k has been added to the downloaded-bytes counter. */
  predicate IsCredited(p: Phase, k: nat)
  {
    match p
    case Idle => false
    case Scanning(_, _, _, next, pending) => k < next && k !in pending
    case Fetching(_, ws) => k in ws ==> ws[k] == Counted || ws[k] == Marked
    case _ => true
  }

  function CreditedSize(chunks: seq<Chunk>, p: Phase, n: nat): nat
    requires n <= |chunks|
  {
    if n == 0 then 0 else CreditedSize(chunks, p, n - 1) + if IsCredited(p, n - 1) then chunks[n - 1].size else 0
  }

  function Credit(j: Job, p: Phase): nat
  {
    if j.e.IsDir() then 0
    else if j.e.chunks == [] then if p.Done? then j.e.size else 0
    else CreditedSize(j.e.chunks, p, |j.e.chunks|)
  }

  /** Queues hold chunk numbers of this file, whatever the disk looks like. */
  ghost predicate WellShaped(j: Job, p: Phase)
  {
    var n := |j.e.chunks|;
    && (j.e.IsDir() || n == 0 ==> p.Idle? || p.Done?)
    && (p.Scanning? ==> p.next <= n && forall k :: k in p.pending ==> k < p.next)
    && (p.Fetching? ==> p.workers.Keys == p.pending && forall k :: k in p.pending ==> k < n)
  }

  /** If two phases credit the same chunks except k, which only the second credits, they differ by its size. */
  lemma {:induction false} CreditOneMore(chunks: seq<Chunk>, p: Phase, q: Phase, k: int, n: nat)
    requires n <= |chunks|
    requires forall i :: 0 <= i < n && i != k ==> IsCredited(p, i) == IsCredited(q, i)
    requires 0 <= k < n ==> !IsCredited(p, k) && IsCredited(q, k)
    ensures CreditedSize(chunks, q, n) == CreditedSize(chunks, p, n) + if 0 <= k < n then chunks[k].size else 0
  {
    if n > 0 {
      CreditOneMore(chunks, p, q, k, n - 1);
    }
  }

  lemma {:induction false} FullCredit(chunks: seq<Chunk>, p: Phase, n: nat)
    requires n <= |chunks| && forall i :: 0 <= i < n ==> IsCredited(p, i)
    ensures CreditedSize(chunks, p, n) == SumSizes(chunks[..n])
  {
    if n > 0 {
      FullCredit(chunks, p, n - 1);
      assert chunks[..n][..n - 1] == chunks[..n - 1];
    }
  }

  /** A step moves the counter by exactly what it newly credits; the fallback credits nothing again. */
  lemma StepConserves(h: Host, j: Job, mem: set<string>, l: Local, a: FileAction)
    requires WellShaped(j, l.phase) && Step(h, j, mem, l, a).Some?
    ensures var eff := Step(h, j, mem, l, a).value;
      WellShaped(j, eff.now.phase) && Credit(j, eff.now.phase) == Credit(j, l.phase) + eff.downloaded
  {
    var eff := Step(h, j, mem, l, a).value;
    var n := |j.e.chunks|;
    if !j.e.IsDir() && n > 0 {
      var k := if a.SkipChunk? then l.phase.next else if a.Count? && l.phase.Fetching? then a.k else -1;
      CreditOneMore(j.e.chunks, l.phase, eff.now.phase, k, n);
    }
  }

  function TotalCredit(jobs: seq<Job>, files: seq<Local>, n: nat): nat
    requires n <= |jobs| && |files| == |jobs|
  {
    if n == 0 then 0 else TotalCredit(jobs, files, n - 1) + Credit(jobs[n - 1], files[n - 1].phase)
  }

  lemma {:induction false} TotalCreditUpdate(jobs: seq<Job>, files: seq<Local>, f: nat, l: Local, n: nat)
    requires n <= |jobs| && |files| == |jobs| && f < |jobs|
    ensures TotalCredit(jobs, files[f := l], n) ==
            TotalCredit(jobs, files, n) + if f < n then Credit(jobs[f], l.phase) - Credit(jobs[f], files[f].phase) else 0
  {
    if n > 0 {
      TotalCreditUpdate(jobs, files, f, l, n - 1);
    }
  }

  lemma {:induction false} NoCredit(jobs: seq<Job>, files: seq<Local>, n: nat)
    requires n <= |jobs| && |files| == |jobs| && forall f :: 0 <= f < |jobs| ==> files[f].phase == Idle
    ensures TotalCredit(jobs, files, n) == 0
  {
    if n > 0 {
      NoCredit(jobs, files, n - 1);
      CreditOneMore(jobs[n - 1].e.chunks, Idle, Idle, -1, |jobs[n - 1].e.chunks|);
      IdleCredit(jobs[n - 1].e.chunks, |jobs[n - 1].e.chunks|);
    }
  }

  lemma {:induction false} IdleCredit(chunks: seq<Chunk>, n: nat)
    requires n <= |chunks|
    ensures CreditedSize(chunks, Idle, n) == 0
  {
    if n > 0 {
      IdleCredit(chunks, n - 1);
    }
  }

  ghost predicate Balanced(jobs: seq<Job>, s: State)
  {
    && |s.files| == |jobs| && s.downloaded == TotalCredit(jobs, s.files, |jobs|)
    && forall f :: 0 <= f < |jobs| ==> WellShaped(jobs[f], s.files[f].phase)
  }

  lemma NextBalanced(h: Host, jobs: seq<Job>, s: State, act: Action)
    requires Balanced(jobs, s) && Next(h, jobs, s, act).Some?
    ensures Balanced(jobs, Next(h, jobs, s, act).value)
  {
    var s' := Next(h, jobs, s, act).value;
    if act.OnFile? {
      var eff := Step(h, jobs[act.f], s.mem, s.files[act.f], act.a).value;
      StepConserves(h, jobs[act.f], s.mem, s.files[act.f], act.a);
      TotalCreditUpdate(jobs, s.files, act.f, eff.now, |jobs|);
    } else if act.Crash? {
      NoCredit(jobs, s'.files, |jobs|);
    }
  }

  function TotalSize(jobs: seq<Job>, n: nat): nat
    requires n <= |jobs|
  {
    if n == 0 then 0 else TotalSize(jobs, n - 1) + if jobs[n - 1].e.IsDir() then 0 else jobs[n - 1].e.size
  }

  lemma {:induction false} AllDoneTotal(jobs: seq<Job>, files: seq<Local>, n: nat)
    requires n <= |jobs| && |files| == |jobs|
    requires forall f :: 0 <= f < n ==> files[f].phase.Done?
    requires forall f :: 0 <= f < n && !jobs[f].e.IsDir() && jobs[f].e.chunks != [] ==> Tiles(jobs[f].e.chunks, jobs[f].e.size)
    ensures TotalCredit(jobs, files, n) == TotalSize(jobs, n)
  {
    if n > 0 {
      AllDoneTotal(jobs, files, n - 1);
      var e := jobs[n - 1].e;
      if !e.IsDir() && e.chunks != [] {
        FullCredit(e.chunks, files[n - 1].phase, |e.chunks|);
        assert e.chunks[..|e.chunks|] == e.chunks;
        TilesSum(e.chunks, e.size);
      }
    }
  }

  /** Under every interleaving, with or without trust in the disk, crashes or fallbacks, a run that finishes has
      counted exactly the total size of its regular files since it last started. */
  lemma {:induction false} RunConservesBytes(h: Host, jobs: seq<Job>, s: State, acts: seq<Action>, s': State)
    requires Balanced(jobs, s) && Reaches(h, jobs, s, acts, s')
    ensures Balanced(jobs, s')
    ensures (forall f :: 0 <= f < |jobs| ==> s'.files[f].phase.Done?)
            && (forall f :: 0 <= f < |jobs| && !jobs[f].e.IsDir() && jobs[f].e.chunks != [] ==>
                  Tiles(jobs[f].e.chunks, jobs[f].e.size))
            ==> s'.downloaded == TotalSize(jobs, |jobs|)
    decreases |acts|
  {
    if acts != [] {
      NextBalanced(h, jobs, s, acts[0]);
      RunConservesBytes(h, jobs, Next(h, jobs, s, acts[0]).value, acts[1..], s');
    } else if (forall f :: 0 <= f < |jobs| ==> s'.files[f].phase.Done?)
              && (forall f :: 0 <= f < |jobs| && !jobs[f].e.IsDir() && jobs[f].e.chunks != [] ==>
                    Tiles(jobs[f].e.chunks, jobs[f].e.size)) {
      AllDoneTotal(jobs, s'.files, |jobs|);
    }
  }
}
