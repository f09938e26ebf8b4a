/** A whole update with its files and chunks interleaved: it ends as the sequential run does. */
module FullRun {
  import opened Text
  import opened Depot
  import opened Diff
  import opened Plan
  import opened Stream
  import opened Update
  import opened Engine
  import opened Outcomes

  /** The jobs of the entries kept, each with its delta. */
  function JobsOf(h: Host, files: seq<Entry>, diffMap: map<string, FileDiff>): (jobs: seq<Job>)
    ensures |jobs| == |files|
    ensures forall f :: 0 <= f < |files| ==>
              jobs[f] == Job(h.norm(files[f].path), files[f], Find(diffMap, h.norm(files[f].path)))
  {
    seq(|files|, f requires 0 <= f < |files| =>
      Job(h.norm(files[f].path), files[f], Find(diffMap, h.norm(files[f].path))))
  }

  function ContentOf(h: Host, contents: map<string, Bytes>, e: Entry): Bytes
  {
    Bytes0(Find(contents, h.norm(e.path)))
  }

  function ContentsOf(h: Host, files: seq<Entry>, contents: map<string, Bytes>): (ts: seq<Bytes>)
    ensures |ts| == |files| && forall f :: 0 <= f < |files| ==> ts[f] == ContentOf(h, contents, files[f])
  {
    seq(|files|, f requires 0 <= f < |files| => ContentOf(h, contents, files[f]))
  }

  lemma JobsAim(h: Host, files: seq<Entry>, diffMap: map<string, FileDiff>, contents: map<string, Bytes>)
    requires WellFormed(h, files, contents)
    ensures Aims(h, JobsOf(h, files, diffMap), ContentsOf(h, files, contents))
  {
    var jobs, ts := JobsOf(h, files, diffMap), ContentsOf(h, files, contents);
    forall f | 0 <= f < |jobs| && !jobs[f].e.IsDir()
      ensures Describes(h, jobs[f].e, ts[f]) && h.norm(jobs[f].path) == h.norm(files[f].path)
    {
      assert GoodFile(h, files[f], contents);
    }
    forall f, g | 0 <= f < g < |jobs| && !jobs[f].e.IsDir() && !jobs[g].e.IsDir()
      ensures h.norm(jobs[f].path) != h.norm(jobs[g].path)
    {
      assert h.norm(files[f].path) != h.norm(files[g].path);
    }
  }

  /** Every file has come to its end. */
  predicate Finished(s: State)
  {
    forall f :: 0 <= f < |s.files| ==> s.files[f].phase.Done?
  }

  /** A run over these entries that starts on `disk` with `marks`, is not cut off, and ends in s. */
  ghost predicate Runs(h: Host, files: seq<Entry>, diffMap: map<string, FileDiff>, disk: map<string, Bytes>, marks: set<string>,
                       acts: seq<Action>, s: State)
  {
    && |s.files| == |files| && Crash !in acts && Finished(s)
    && Reaches(h, JobsOf(h, files, diffMap), Boot(JobsOf(h, files, diffMap), disk, marks), acts, s)
  }

  /** What the disk holds then. */
  function Left(h: Host, files: seq<Entry>, diffMap: map<string, FileDiff>, disk: map<string, Bytes>, s: State): map<string, Bytes>
    requires |s.files| == |files|
  {
    DiskAfter(JobsOf(h, files, diffMap), s.files, |files|, disk)
  }

  lemma OneFileExact(h: Host, files: seq<Entry>, diffMap: map<string, FileDiff>, disk: map<string, Bytes>, marks: set<string>,
                     contents: map<string, Bytes>, acts: seq<Action>, s: State, f: nat)
    requires WellFormed(h, files, contents) && DistinctPaths(h, files) && Runs(h, files, diffMap, disk, marks, acts, s)
    requires f < |files| && !files[f].IsDir() && GoodFile(h, files[f], contents)
    ensures var p, after := h.norm(files[f].path), Left(h, files, diffMap, disk, s);
      p in after && (after[p] == contents[p] <==> Verdict(h, diffMap, disk, marks, files[f], contents))
  {
    var jobs, ts := JobsOf(h, files, diffMap), ContentsOf(h, files, contents);
    JobsAim(h, files, diffMap, contents);
    RunDecided(h, jobs, ts, Boot(jobs, disk, marks), acts, s, f);
    DiskAfterAt(jobs, s.files, |files|, disk, f);
  }

  /** The outcome of every interleaving is the one of the sequential run. */
  lemma {:induction false} InterleavedExact(h: Host, files: seq<Entry>, diffMap: map<string, FileDiff>, disk: map<string, Bytes>,
                                            marks: set<string>, contents: map<string, Bytes>, acts: seq<Action>, s: State)
    requires WellFormed(h, files, contents) && DistinctPaths(h, files) && Runs(h, files, diffMap, disk, marks, acts, s)
    ensures ExactOutcome(h, diffMap, disk, marks, files, contents, Left(h, files, diffMap, disk, s))
  {
    forall e | e in files && !e.IsDir() && GoodFile(h, e, contents)
      ensures var p, after := h.norm(e.path), Left(h, files, diffMap, disk, s);
        p in after && (after[p] == contents[p] <==> Verdict(h, diffMap, disk, marks, e, contents))
    {
      var f :| 0 <= f < |files| && files[f] == e;
      OneFileExact(h, files, diffMap, disk, marks, contents, acts, s, f);
    }
  }

  /** A clean update or a fresh install: after the purge, every interleaving that finishes leaves every target file with
      exactly its target bytes. */
  lemma {:induction false} InterleavedUpdate(h: Host, m: Manifest, previous: Option<Manifest>, installed: map<nat, Manifest>,
                                             diffMap: map<string, FileDiff>, deleted: set<string>, disk: map<string, Bytes>,
                                             marks: set<string>, contents: map<string, Bytes>, acts: seq<Action>, s: State)
    requires CleanUpdate(h, Comparisons(m, previous, installed), m, disk, marks, contents)
    requires IsDelta(h, Comparisons(m, previous, installed), diffMap)
    requires Runs(h, FirstPerPath(h, m.files), diffMap, disk - Doomed(h, m.files, deleted), marks, acts, s)
    ensures AllRight(h, m.files, contents, Left(h, FirstPerPath(h, m.files), diffMap, disk - Doomed(h, m.files, deleted), s))
  {
    var kept, purged := FirstPerPath(h, m.files), disk - Doomed(h, m.files, deleted);
    var after := Left(h, kept, diffMap, purged, s);
    CleanKept(h, Comparisons(m, previous, installed), m, disk, marks, contents);
    FirstPerPathFacts(h, m.files);
    InterleavedExact(h, kept, diffMap, purged, marks, contents, acts, s);
    forall e | e in kept && !e.IsDir() && GoodFile(h, e, contents)
      ensures Verdict(h, diffMap, purged, marks, e, contents) <==> Verdict(h, diffMap, disk, marks, e, contents)
    {
      PurgedVerdict(h, diffMap, disk, marks, m.files, deleted, e, contents);
    }
    assert ExactOutcome(h, diffMap, disk, marks, kept, contents, after);
    CleanUpdateConverges(h, m, previous, installed, diffMap, disk, marks, contents, after);
  }
}
