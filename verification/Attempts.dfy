/** Runs one after the other towards any manifests: what they do to the marks and bytes that a later run trusts. */
module Attempts {
  import opened Text
  import opened Depot
  import opened Diff
  import opened Plan
  import opened Stream
  import opened Engine
  import opened Outcomes

  /** A run towards one list of files, broken off at some point or finished; the next one finds its disk and its saved
      marks. */
  datatype Attempt = Attempt(jobs: seq<Job>, acts: seq<Action>)

  ghost predicate AttemptEnds(h: Host, a: Attempt, disk: map<string, Bytes>, marks: set<string>, s: State)
  {
    |s.files| == |a.jobs| && Reaches(h, a.jobs, Boot(a.jobs, disk, marks), a.acts, s)
  }

  ghost predicate Leaves(h: Host, a: Attempt, disk: map<string, Bytes>, marks: set<string>, disk': map<string, Bytes>, marks': set<string>)
  {
    OwnPaths(a.jobs)
    && exists s :: AttemptEnds(h, a, disk, marks, s) && disk' == DiskAfter(a.jobs, s.files, |a.jobs|, disk) && marks' == s.saved
  }

  /** Disk and checkpoint before, between and after the attempts. */
  ghost predicate History(h: Host, attempts: seq<Attempt>, disks: seq<map<string, Bytes>>, marks: seq<set<string>>)
  {
    && |disks| == |marks| == |attempts| + 1
    && forall i :: 0 <= i < |attempts| ==> Leaves(h, attempts[i], disks[i], marks[i], disks[i + 1], marks[i + 1])
  }

  /** What job j would trust carries its bytes: the chunks with a mark, and those its delta speaks of. */
  ghost predicate Sound(h: Host, j: Job, t: Bytes, disk: map<string, Bytes>, marks: set<string>)
  {
    MarksBacked(h, j, t, marks, Find(disk, j.path)) && DeltaBacked(j, t, Find(disk, j.path))
  }

  // ---- Attempts that do no harm ----

  /** Directories are never opened. */
  predicate DirectoriesRest(jobs: seq<Job>, s: State)
    requires |s.files| == |jobs|
  {
    forall f :: 0 <= f < |jobs| && jobs[f].e.IsDir() ==> s.files[f].phase.Idle? || s.files[f].phase.Done?
  }

  ghost predicate Orderly(jobs: seq<Job>, s: State)
  {
    |s.files| == |jobs| && s.saved <= s.mem && DirectoriesRest(jobs, s)
  }

  lemma NextOrderly(h: Host, jobs: seq<Job>, s: State, act: Action)
    requires Orderly(jobs, s) && Next(h, jobs, s, act).Some?
    ensures Orderly(jobs, Next(h, jobs, s, act).value)
  {
    if act.OnFile? && jobs[act.f].e.IsDir() {
      DirectoryStep(h, jobs[act.f], s.mem, s.files[act.f], act.a);
    }
  }

  lemma DirectoryStep(h: Host, j: Job, mem: set<string>, l: Local, a: FileAction)
    requires j.e.IsDir() && (l.phase.Idle? || l.phase.Done?) && Step(h, j, mem, l, a).Some?
    ensures Step(h, j, mem, l, a).value.now.phase.Done?
  {
  }

  /** The marks a step adds are keys of its own file. */
  lemma OwnKeysOnly(h: Host, jobs: seq<Job>, s: State, act: Action, key: string)
    requires Orderly(jobs, s) && act.OnFile? && Next(h, jobs, s, act).Some? && key in Next(h, jobs, s, act).value.mem && key !in s.mem
    ensures !jobs[act.f].e.IsDir() && exists k :: 0 <= k < |jobs[act.f].e.chunks| && key == KeyOf(h, jobs[act.f], k)
  {
    StepMarksOwnKeys(h, jobs[act.f], s.mem, s.files[act.f], act.a);
  }

  lemma NextKeepsFile(h: Host, jobs: seq<Job>, ts: seq<Bytes>, f: nat, s: State, act: Action)
    requires Aims(h, jobs, ts) && f < |jobs| && !jobs[f].e.IsDir() && GoodJob(h, jobs[f], ts[f]) && Orderly(jobs, s)
    requires FileSafe(h, jobs[f], ts[f], s.mem, s.files[f]) && Next(h, jobs, s, act).Some?
    ensures FileSafe(h, jobs[f], ts[f], Next(h, jobs, s, act).value.mem, Next(h, jobs, s, act).value.files[f])
  {
    if act.OnFile? {
      var eff := Step(h, jobs[act.f], s.mem, s.files[act.f], act.a).value;
      if act.f == f {
        OwnStepSafe(h, jobs[f], ts[f], s.mem, s.files[f], act.a);
      } else {
        StepMarksOwnKeys(h, jobs[act.f], s.mem, s.files[act.f], act.a);
        OtherKeys(h, jobs, ts, act.f, f, eff.marks);
        OtherStepSafe(h, jobs[f], ts[f], s.mem, s.files[f], eff.marks);
      }
    } else if act.Crash? {
      FewerMarks(h, jobs[f], ts[f], s.mem, s.saved, s.files[f].file);
    }
  }

  lemma FewerMarks(h: Host, j: Job, t: Bytes, mem: set<string>, marks: set<string>, file: Option<Bytes>)
    requires marks <= mem && MarksBacked(h, j, t, mem, file)
    ensures MarksBacked(h, j, t, marks, file)
  {
  }

  lemma {:induction false} RunKeepsFile(h: Host, jobs: seq<Job>, ts: seq<Bytes>, f: nat, s: State, acts: seq<Action>, s': State)
    requires Aims(h, jobs, ts) && f < |jobs| && !jobs[f].e.IsDir() && GoodJob(h, jobs[f], ts[f]) && Orderly(jobs, s)
    requires FileSafe(h, jobs[f], ts[f], s.mem, s.files[f]) && Reaches(h, jobs, s, acts, s')
    ensures Orderly(jobs, s') && FileSafe(h, jobs[f], ts[f], s'.mem, s'.files[f])
    decreases |acts|
  {
    if acts != [] {
      NextOrderly(h, jobs, s, acts[0]);
      NextKeepsFile(h, jobs, ts, f, s, acts[0]);
      RunKeepsFile(h, jobs, ts, f, Next(h, jobs, s, acts[0]).value, acts[1..], s');
    }
  }

  /** An entry describes one content only. */
  lemma DescribedOnce(h: Host, e: Entry, t: Bytes, u: Bytes)
    requires Describes(h, e, t) && Describes(h, e, u)
    ensures t == u
  {
    forall k | 0 <= k < |e.chunks| ensures Holds(u, e.chunks[k], t) {
      var c := e.chunks[k];
      SameIdSameData(h, c.id, c.id, Slice(t, c), Slice(u, c));
      forall i: nat | c.offset <= i < c.End() ensures At(u, i) == At(t, i) {
        SliceAt(t, c, i);
        SliceAt(u, c, i);
      }
    }
    AllHoldIsContent(h, e, t, u);
  }

  /** An attempt towards the same file, however it ends, keeps what the job trusts. */
  lemma TowardsKeeps(h: Host, a: Attempt, ts: seq<Bytes>, j: Job, t: Bytes, disk: map<string, Bytes>, marks: set<string>,
                     disk': map<string, Bytes>, marks': set<string>)
    requires Aims(h, a.jobs, ts) && GoodJob(h, j, t) && !j.e.IsDir() && j in a.jobs
    requires Leaves(h, a, disk, marks, disk', marks') && Sound(h, j, t, disk, marks)
    ensures Sound(h, j, t, disk', marks')
  {
    var s :| AttemptEnds(h, a, disk, marks, s) && disk' == DiskAfter(a.jobs, s.files, |a.jobs|, disk) && marks' == s.saved;
    var f :| 0 <= f < |a.jobs| && a.jobs[f] == j;
    DescribedOnce(h, j.e, t, ts[f]);
    RunKeepsFile(h, a.jobs, ts, f, Boot(a.jobs, disk, marks), a.acts, s);
    DiskAfterAt(a.jobs, s.files, |a.jobs|, disk, f);
    FewerMarks(h, j, t, s.mem, s.saved, s.files[f].file);
  }

  /** No job at the path of j. */
  predicate Elsewhere(h: Host, jobs: seq<Job>, j: Job)
  {
    forall f :: 0 <= f < |jobs| ==> jobs[f].path != j.path && (!jobs[f].e.IsDir() ==> h.norm(jobs[f].path) != h.norm(j.path))
  }

  /** On the keys of j the one set of marks has no more than the other. */
  predicate NoNewKeys(h: Host, j: Job, marks: set<string>, marks': set<string>)
  {
    forall k :: 0 <= k < |j.e.chunks| && KeyOf(h, j, k) in marks' ==> KeyOf(h, j, k) in marks
  }

  lemma NextElsewhere(h: Host, jobs: seq<Job>, ts: seq<Bytes>, j: Job, t: Bytes, s: State, act: Action)
    requires Aims(h, jobs, ts) && Describes(h, j.e, t) && Elsewhere(h, jobs, j) && Orderly(jobs, s) && Next(h, jobs, s, act).Some?
    ensures NoNewKeys(h, j, s.mem, Next(h, jobs, s, act).value.mem)
  {
    forall k | 0 <= k < |j.e.chunks| && KeyOf(h, j, k) in Next(h, jobs, s, act).value.mem ensures KeyOf(h, j, k) in s.mem {
      if act.OnFile? && KeyOf(h, j, k) !in s.mem {
        OwnKeysOnly(h, jobs, s, act, KeyOf(h, j, k));
        var b := jobs[act.f];
        var l :| 0 <= l < |b.e.chunks| && KeyOf(h, j, k) == KeyOf(h, b, l);
        KeyIdentifiesChunk(h, b.path, b.e.chunks[l], j.path, j.e.chunks[k]);
      }
    }
  }

  lemma {:induction false} RunElsewhere(h: Host, jobs: seq<Job>, ts: seq<Bytes>, j: Job, t: Bytes, s: State, acts: seq<Action>, s': State)
    requires Aims(h, jobs, ts) && Describes(h, j.e, t) && Elsewhere(h, jobs, j) && Orderly(jobs, s) && Reaches(h, jobs, s, acts, s')
    ensures Orderly(jobs, s') && NoNewKeys(h, j, s.mem, s'.mem)
    decreases |acts|
  {
    if acts != [] {
      NextOrderly(h, jobs, s, acts[0]);
      NextElsewhere(h, jobs, ts, j, t, s, acts[0]);
      RunElsewhere(h, jobs, ts, j, t, Next(h, jobs, s, acts[0]).value, acts[1..], s');
    }
  }

  /** So does an attempt that has nothing to do with that path. */
  lemma ElsewhereKeeps(h: Host, a: Attempt, ts: seq<Bytes>, j: Job, t: Bytes, disk: map<string, Bytes>, marks: set<string>,
                       disk': map<string, Bytes>, marks': set<string>)
    requires Aims(h, a.jobs, ts) && Describes(h, j.e, t) && Elsewhere(h, a.jobs, j)
    requires Leaves(h, a, disk, marks, disk', marks') && Sound(h, j, t, disk, marks)
    ensures Sound(h, j, t, disk', marks')
  {
    var s :| AttemptEnds(h, a, disk, marks, s) && disk' == DiskAfter(a.jobs, s.files, |a.jobs|, disk) && marks' == s.saved;
    RunElsewhere(h, a.jobs, ts, j, t, Boot(a.jobs, disk, marks), a.acts, s);
    DiskAfterElsewhere(a.jobs, s.files, |a.jobs|, disk, j.path);
    var file := Find(disk, j.path);
    forall k | 0 <= k < |j.e.chunks| && KeyOf(h, j, k) in s.saved ensures Good(j, t, file, k) {
      assert KeyOf(h, j, k) in s.mem;
    }
  }

  // ---- Attempts that do ----

  /** The attempt wants another file at the path of j. */
  predicate TowardsAnother(h: Host, a: Attempt, j: Job)
  {
    j !in a.jobs && !Elsewhere(h, a.jobs, j)
  }

  /** An attempt towards another file that left something j trusts without its bytes. */
  ghost predicate Spoils(h: Host, a: Attempt, j: Job, t: Bytes, disk: map<string, Bytes>, marks: set<string>,
                         disk': map<string, Bytes>, marks': set<string>)
  {
    TowardsAnother(h, a, j) && Sound(h, j, t, disk, marks) && !Sound(h, j, t, disk', marks')
  }

  ghost predicate SomeSpoils(h: Host, attempts: seq<Attempt>, disks: seq<map<string, Bytes>>, marks: seq<set<string>>, j: Job, t: Bytes)
    requires |disks| == |marks| == |attempts| + 1
  {
    exists i :: 0 <= i < |attempts| && Spoils(h, attempts[i], j, t, disks[i], marks[i], disks[i + 1], marks[i + 1])
  }

  ghost predicate AllAim(h: Host, attempts: seq<Attempt>, tss: seq<seq<Bytes>>)
  {
    |tss| == |attempts| && forall i :: 0 <= i < |attempts| ==> Aims(h, attempts[i].jobs, tss[i])
  }

  /** What was sound and is not any more was spoilt by an attempt towards another file. */
  lemma {:induction false} FirstSpoiler(h: Host, attempts: seq<Attempt>, tss: seq<seq<Bytes>>, disks: seq<map<string, Bytes>>,
                                        marks: seq<set<string>>, j: Job, t: Bytes, n: nat)
    requires History(h, attempts, disks, marks) && AllAim(h, attempts, tss) && GoodJob(h, j, t) && !j.e.IsDir()
    requires n <= |attempts| && Sound(h, j, t, disks[0], marks[0]) && !Sound(h, j, t, disks[n], marks[n])
    ensures SomeSpoils(h, attempts, disks, marks, j, t)
  {
    if n > 0 {
      var i := n - 1;
      assert Aims(h, attempts[i].jobs, tss[i]);
      assert Leaves(h, attempts[i], disks[i], marks[i], disks[i + 1], marks[i + 1]);
      if !Sound(h, j, t, disks[i], marks[i]) {
        FirstSpoiler(h, attempts, tss, disks, marks, j, t, i);
      } else {
        HarmIsAnothers(h, attempts[i], tss[i], j, t, disks[i], marks[i], disks[n], marks[n]);
      }
    }
  }

  lemma HarmIsAnothers(h: Host, a: Attempt, ts: seq<Bytes>, j: Job, t: Bytes, disk: map<string, Bytes>, marks: set<string>,
                       disk': map<string, Bytes>, marks': set<string>)
    requires Aims(h, a.jobs, ts) && GoodJob(h, j, t) && !j.e.IsDir() && Leaves(h, a, disk, marks, disk', marks')
    requires Sound(h, j, t, disk, marks) && !Sound(h, j, t, disk', marks')
    ensures Spoils(h, a, j, t, disk, marks, disk', marks')
  {
    if j in a.jobs {
      TowardsKeeps(h, a, ts, j, t, disk, marks, disk', marks');
    } else if Elsewhere(h, a.jobs, j) {
      ElsewhereKeeps(h, a, ts, j, t, disk, marks, disk', marks');
    }
  }

  /** A chunk with a saved mark or a claim that does not have its bytes. */
  ghost predicate LostChunk(h: Host, j: Job, t: Bytes, disk: map<string, Bytes>, marks: set<string>)
  {
    exists k :: 0 <= k < |j.e.chunks| && Trusted(h, j, marks, Find(disk, j.path), k) && !Good(j, t, Find(disk, j.path), k)
  }

  lemma SoundLosesNothing(h: Host, j: Job, t: Bytes, disk: map<string, Bytes>, marks: set<string>)
    requires Sound(h, j, t, disk, marks)
    ensures !LostChunk(h, j, t, disk, marks)
  {
    var file := Find(disk, j.path);
    forall k | 0 <= k < |j.e.chunks| && Trusted(h, j, marks, file, k) ensures Good(j, t, file, k) {
      if KeyOf(h, j, k) !in marks {
        assert InDelta(j, j.e.chunks[k].id);
      }
    }
  }

  /** Attempts towards any manifests, and then a run that is not cut off: it is done with a file, and leaves it wrong, if and
      only if nothing of a file with a digest is fetched, an earlier attempt towards another file at its path spoilt what
      had been marked or claimed, and a marked or claimed chunk is still without its bytes. */
  lemma {:induction false} LastRunDecides(h: Host, attempts: seq<Attempt>, tss: seq<seq<Bytes>>, disks: seq<map<string, Bytes>>,
                                          marks: seq<set<string>>, last: Attempt, ts: seq<Bytes>, s: State, f: nat)
    requires History(h, attempts, disks, marks) && AllAim(h, attempts, tss)
    requires Aims(h, last.jobs, ts) && Crash !in last.acts && AttemptEnds(h, last, disks[|attempts|], marks[|attempts|], s)
    requires f < |last.jobs| && !last.jobs[f].e.IsDir() && s.files[f].phase.Done? && GoodJob(h, last.jobs[f], ts[f])
    requires Sound(h, last.jobs[f], ts[f], disks[0], marks[0])
    ensures var j, t, disk, mark := last.jobs[f], ts[f], disks[|attempts|], marks[|attempts|];
      s.files[f].file != Some(t) <==>
        && (j.e.sha1 == "" || Scan(Opened(h, j.path, j.e, j.delta, Find(disk, j.path), mark), j.e.chunks).pending == [])
        && SomeSpoils(h, attempts, disks, marks, j, t)
        && LostChunk(h, j, t, disk, mark)
  {
    var j, t, disk, mark := last.jobs[f], ts[f], disks[|attempts|], marks[|attempts|];
    RunDecided(h, last.jobs, ts, Boot(last.jobs, disk, mark), last.acts, s, f);
    TrustSpelledOut(h, j, t, mark, Find(disk, j.path));
    if LostChunk(h, j, t, disk, mark) {
      if Sound(h, j, t, disk, mark) {
        SoundLosesNothing(h, j, t, disk, mark);
      } else {
        FirstSpoiler(h, attempts, tss, disks, marks, j, t, |attempts|);
      }
    }
  }
}
