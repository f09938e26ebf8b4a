/** Runs of a single job, built up step by step. */
module SingleRun {
  import opened Text
  import opened Depot
  import opened Plan
  import opened Engine

  ghost predicate From(h: Host, j: Job, s0: State, acts: seq<Action>, s: State)
  {
    |s0.files| == 1 && |s.files| == 1 && Reaches(h, [j], s0, acts, s)
  }

  lemma {:induction false} ReachesOneMore(h: Host, j: Job, s: State, acts: seq<Action>, mid: State, a: Action, s': State)
    requires |s.files| == 1 && Reaches(h, [j], s, acts, mid) && |mid.files| == 1
    requires Next(h, [j], mid, a) == Some(s')
    ensures Reaches(h, [j], s, acts + [a], s')
    decreases |acts|
  {
    if acts == [] {
      assert [a][0] == a && [a][1..] == [];
      assert acts + [a] == [a];
    } else {
      var next := Next(h, [j], s, acts[0]).value;
      ReachesOneMore(h, j, next, acts[1..], mid, a, s');
      assert (acts + [a])[0] == acts[0] && (acts + [a])[1..] == acts[1..] + [a];
    }
  }

  /** The file takes step `a`. */
  lemma Then(h: Host, j: Job, s0: State, acts: seq<Action>, s: State, a: FileAction, save: bool)
    returns (acts': seq<Action>, s': State)
    requires From(h, j, s0, acts, s) && Step(h, j, s.mem, s.files[0], a).Some?
    ensures acts' == acts + [OnFile(0, a, save)] && From(h, j, s0, acts', s')
    ensures var eff := Step(h, j, s.mem, s.files[0], a).value;
      && s'.files == [eff.now] && s'.mem == s.mem + eff.marks && s'.saved == (if save then s'.mem else s.saved)
      && s'.downloaded == s.downloaded + eff.downloaded
  {
    s' := Next(h, [j], s, OnFile(0, a, save)).value;
    acts' := acts + [OnFile(0, a, save)];
    ReachesOneMore(h, j, s0, acts, s, OnFile(0, a, save), s');
  }

  /** The only chunk that is fetched: its bytes arrive, are counted and marked, and the mark is saved. */
  lemma Arrives(h: Host, j: Job, s0: State, acts: seq<Action>, s: State, k: nat, f: Bytes, data: Bytes)
    returns (acts': seq<Action>, s': State)
    requires From(h, j, s0, acts, s) && k < |j.e.chunks| && EqualFold(h.sha1(data), j.e.chunks[k].id)
    requires s.files == [Local(Fetching({k}, map[k := Queued]), Some(f))]
    ensures From(h, j, s0, acts', s')
    ensures s'.files == [Local(Fetching({k}, map[k := Marked]), Some(WriteAt(f, j.e.chunks[k].offset, data)))]
    ensures s'.mem == s'.saved == s.mem + {KeyOf(h, j, k)}
  {
    var g := WriteAt(f, j.e.chunks[k].offset, data);
    acts', s' := Then(h, j, s0, acts, s, Write(k, data), false);
    OnlyWorker(k, Queued, Wrote);
    assert s'.files == [Local(Fetching({k}, map[k := Wrote]), Some(g))] && s'.mem == s.mem;
    acts', s' := Counts(h, j, s0, acts', s', k, g);
    acts', s' := Marks(h, j, s0, acts', s', k, g);
  }

  lemma Counts(h: Host, j: Job, s0: State, acts: seq<Action>, s: State, k: nat, g: Bytes) returns (acts': seq<Action>, s': State)
    requires From(h, j, s0, acts, s) && k < |j.e.chunks| && s.files == [Local(Fetching({k}, map[k := Wrote]), Some(g))]
    ensures From(h, j, s0, acts', s') && s'.mem == s.mem && s'.files == [Local(Fetching({k}, map[k := Counted]), Some(g))]
  {
    acts', s' := Then(h, j, s0, acts, s, Count(k), false);
    OnlyWorker(k, Wrote, Counted);
  }

  lemma Marks(h: Host, j: Job, s0: State, acts: seq<Action>, s: State, k: nat, g: Bytes) returns (acts': seq<Action>, s': State)
    requires From(h, j, s0, acts, s) && k < |j.e.chunks| && s.files == [Local(Fetching({k}, map[k := Counted]), Some(g))]
    ensures From(h, j, s0, acts', s') && s'.files == [Local(Fetching({k}, map[k := Marked]), Some(g))]
    ensures s'.mem == s'.saved == s.mem + {KeyOf(h, j, k)}
  {
    acts', s' := Then(h, j, s0, acts, s, Mark(k), true);
    OnlyWorker(k, Counted, Marked);
  }

  lemma OnlyWorker(k: nat, v: Worker, w: Worker)
    ensures map[k := v][k := w] == map[k := w]
  {
  }
}
