/** A crash during the digest fallback: the file was truncated, the checkpoint marks were not cleared. */
module InterruptedFallback {
  import opened Text
  import opened Depot
  import opened Diff
  import opened Plan
  import opened Stream
  import opened Update
  import opened Engine
  import opened SingleRun
  import opened Outcomes

  /** The old file is 1, 2, 2 and the new one 1, 1, 3, in chunks of one byte. The first two chunks of the new file
      share an id and the delta calls the first one unchanged. */
  ghost predicate RepeatedChunk(h: Host, j: Job)
  {
    && |j.e.chunks| == 3 && j.e.size == 3 && !j.e.IsDir() && j.e.sha1 != ""
    && (forall k :: 0 <= k < 3 ==> j.e.chunks[k].offset == k && j.e.chunks[k].size == 1 && |j.e.chunks[k].id| == 40)
    && j.e.chunks[0].id == j.e.chunks[1].id != j.e.chunks[2].id
    && j.delta.Some? && j.delta.value.kept == [j.e.chunks[0]]
    && !EqualFold(h.sha1([2]), j.e.chunks[2].id) && EqualFold(h.sha1([3]), j.e.chunks[2].id)
    && !EqualFold(h.sha1([1, 2, 3]), j.e.sha1) && !EqualFold(h.sha1([0, 0, 0]), j.e.sha1)
  }

  const ID_C: string := Repeat('c', 40)

  function Digest(d: Bytes): string
  {
    if d == [1] then ID_A else if d == [2] then ID_B else if d == [3] then ID_C
    else if d == [1, 1, 3] then "new" else ""
  }

  lemma DemoDigests(h: Host)
    requires h.sha1 == Digest
    ensures Identifies(h, ID_A, [1]) && Identifies(h, ID_C, [3]) && Identifies(h, "new", [1, 1, 3])
    ensures !EqualFold(ID_B, ID_C) && ID_A != ID_C && !EqualFold("", "new")
    ensures h.sha1([2]) == ID_B && h.sha1([3]) == ID_C && h.sha1([1, 2, 3]) == "" && h.sha1([0, 0, 0]) == ""
  {
    assert ToLower(ID_A)[0] == 'a' && ToLower(ID_B)[0] == 'b' && ToLower(ID_C)[0] == 'c';
    assert |ToLower("")| == 0 && |ToLower("new")| == 3;
  }

  lemma ThreeChunksTile(chunks: seq<Chunk>)
    requires |chunks| == 3 && forall k :: 0 <= k < 3 ==> chunks[k].offset == k && chunks[k].size == 1
    ensures Tiles(chunks, 3)
  {
    assert chunks[0].offset <= 0 < chunks[0].End() && chunks[1].offset <= 1 < chunks[1].End()
           && chunks[2].offset <= 2 < chunks[2].End();
    assert Covered(chunks, 0) && Covered(chunks, 1) && Covered(chunks, 2);
  }

  lemma {:induction false} ThreeChunksDescribed(h: Host, e: Entry, x: Byte, y: Byte, z: Byte)
    requires |e.chunks| == 3 && e.size == 3
    requires forall k :: 0 <= k < 3 ==> e.chunks[k].offset == k && e.chunks[k].size == 1 && |e.chunks[k].id| == 40
    requires Identifies(h, e.chunks[0].id, [x]) && Identifies(h, e.chunks[1].id, [y]) && Identifies(h, e.chunks[2].id, [z])
    requires Identifies(h, e.sha1, [x, y, z])
    ensures Describes(h, e, [x, y, z])
  {
    ThreeChunksTile(e.chunks);
    var t: Bytes := [x, y, z];
    assert Slice(t, e.chunks[0]) == [x] && Slice(t, e.chunks[1]) == [y] && Slice(t, e.chunks[2]) == [z];
  }

  /** Such jobs exist, with digests that are right for the new content. */
  lemma RepeatedChunkExists() returns (h: Host, j: Job)
    ensures RepeatedChunk(h, j) && Describes(h, j.e, [1, 1, 3])
  {
    h := Host(p => p, Digest);
    var chunks := [Chunk(ID_A, 0, 1), Chunk(ID_A, 1, 1), Chunk(ID_C, 2, 1)];
    j := Job("f", Entry("f", 3, 0, "new", 1, chunks), Some(FileDiff("f", 3, 3, 3, [chunks[0]], [chunks[1], chunks[2]])));
    DemoDigests(h);
    PlainPath(j.e);
    ThreeChunksDescribed(h, j.e, 1, 1, 3);
  }

  function Start0(): State
  {
    State([Local(Idle, Some([1, 2, 2]))], {}, {}, 0, 0)
  }

  ghost function AllKeys(h: Host, j: Job): set<string>
    requires |j.e.chunks| == 3
  {
    {KeyOf(h, j, 0), KeyOf(h, j, 1), KeyOf(h, j, 2)}
  }

  lemma Opens(h: Host, j: Job, acts: seq<Action>, s: State, file: Bytes) returns (acts': seq<Action>, s': State)
    requires RepeatedChunk(h, j) && From(h, j, Start0(), acts, s) && s.files[0] == Local(Idle, Some(file)) && |file| == 3
    ensures From(h, j, Start0(), acts', s') && acts <= acts'
    ensures s'.files == [Local(Scanning({j.e.chunks[0].id}, true, 3, 0, {}), Some(file))]
    ensures s'.mem == s.mem && s'.saved == s.saved && s'.downloaded == s.downloaded
  {
    assert j.e.chunks[0] in j.delta.value.kept && j.e.chunks[0].End() <= 3;
    assert ClaimedIds(j.delta.value, 3) == {j.e.chunks[0].id};
    acts', s' := Then(h, j, Start0(), acts, s, Start, false);
    assert s'.mem == s.mem;
  }

  /** The first two chunks are skipped on the delta's word. */
  lemma SkipsTwo(h: Host, j: Job) returns (acts: seq<Action>, s: State)
    requires RepeatedChunk(h, j)
    ensures From(h, j, Start0(), acts, s)
    ensures s.files == [Local(Scanning({j.e.chunks[0].id}, true, 3, 2, {}), Some([1, 2, 2]))]
    ensures s.mem == {KeyOf(h, j, 0), KeyOf(h, j, 1)}
  {
    acts, s := [], Start0();
    acts, s := Opens(h, j, acts, s, [1, 2, 2]);
    acts, s := Then(h, j, Start0(), acts, s, SkipChunk, false);
    acts, s := Then(h, j, Start0(), acts, s, SkipChunk, false);
  }

  /** The third one is queued: no mark, no claim, and the byte on disk is not its own. */
  lemma QueuesThird(h: Host, j: Job) returns (acts: seq<Action>, s: State)
    requires RepeatedChunk(h, j)
    ensures From(h, j, Start0(), acts, s) && s.files == [Local(Fetching({2}, map[2 := Queued]), Some([1, 2, 2]))]
    ensures s.mem == {KeyOf(h, j, 0), KeyOf(h, j, 1)}
  {
    acts, s := SkipsTwo(h, j);
    assert Slice([1, 2, 2], j.e.chunks[2]) == [2];
    assert KeyOf(h, j, 2) !in s.mem by {
      if KeyOf(h, j, 2) == KeyOf(h, j, 0) {
        KeyIdentifiesChunk(h, j.path, j.e.chunks[2], j.path, j.e.chunks[0]);
      }
      if KeyOf(h, j, 2) == KeyOf(h, j, 1) {
        KeyIdentifiesChunk(h, j.path, j.e.chunks[2], j.path, j.e.chunks[1]);
      }
    }
    acts, s := Then(h, j, Start0(), acts, s, QueueChunk, false);
    assert s.files[0].phase.pending == {2} && QueueAll({2}) == map[2 := Queued];
    acts, s := Then(h, j, Start0(), acts, s, StartFetch, false);
  }

  /** It arrives and is counted and marked; its mark is saved with the others. */
  lemma FetchesThird(h: Host, j: Job) returns (acts: seq<Action>, s: State)
    requires RepeatedChunk(h, j)
    ensures From(h, j, Start0(), acts, s) && s.files == [Local(Fetching({2}, map[2 := Marked]), Some([1, 2, 3]))]
    ensures s.mem == s.saved == AllKeys(h, j)
  {
    acts, s := QueuesThird(h, j);
    assert WriteAt([1, 2, 2], 2, [3]) == [1, 2, 3];
    acts, s := Arrives(h, j, Start0(), acts, s, 2, [1, 2, 2], [3]);
  }

  /** The digest objects to 1, 2, 3 and the fallback truncates the file. */
  lemma IntoFallback(h: Host, j: Job) returns (acts: seq<Action>, s: State)
    requires RepeatedChunk(h, j)
    ensures From(h, j, Start0(), acts, s) && s.files == [Local(Refetching(AllQueued(3)), Some([0, 0, 0]))]
    ensures s.mem == s.saved == AllKeys(h, j)
  {
    acts, s := FetchesThird(h, j);
    assert Resize([1, 2, 3], 3) == [1, 2, 3];
    acts, s := Then(h, j, Start0(), acts, s, Cut, false);
    assert Preallocate([], 3) == [0, 0, 0];
    acts, s := Then(h, j, Start0(), acts, s, Reject, false);
  }

  /** After a crash in the middle of the fallback every chunk is skipped on the strength of its mark, nothing is
      fetched, the digest is not looked at, and the run finishes with zeros that the digest would reject. */
  lemma InterruptedFallbackKeepsZeros(h: Host, j: Job) returns (acts: seq<Action>, s: State)
    requires RepeatedChunk(h, j)
    ensures |s.files| == 1 && Reaches(h, [j], Start0(), acts, s) && Crash in acts
    ensures s.files == [Local(Done, Some([0, 0, 0]))] && !EqualFold(h.sha1([0, 0, 0]), j.e.sha1)
    ensures s.downloaded == j.e.size
  {
    acts, s := IntoFallback(h, j);
    var s' := State(Restarted(s.files), s.saved, s.saved, 0, 0);
    assert s'.files == [Local(Idle, Some([0, 0, 0]))];
    ReachesOneMore(h, j, Start0(), acts, s, Crash, s');
    var n := |acts|;
    acts, s := acts + [Crash], s';
    acts, s := Opens(h, j, acts, s, [0, 0, 0]);
    acts, s := SkipsAll(h, j, acts, s);
    assert acts[n] == Crash;
    acts, s := Then(h, j, Start0(), acts, s, StartFetch, false);
    assert Resize([0, 0, 0], 3) == [0, 0, 0];
    acts, s := Then(h, j, Start0(), acts, s, Cut, false);
    acts, s := Then(h, j, Start0(), acts, s, Accept, false);
    assert acts[n] == Crash;
  }

  lemma SkipsAll(h: Host, j: Job, before: seq<Action>, s0: State) returns (acts: seq<Action>, s: State)
    requires RepeatedChunk(h, j) && From(h, j, Start0(), before, s0) && s0.mem == AllKeys(h, j) && s0.downloaded == 0
    requires s0.files == [Local(Scanning({j.e.chunks[0].id}, true, 3, 0, {}), Some([0, 0, 0]))]
    ensures From(h, j, Start0(), acts, s) && before <= acts && s.downloaded == 3
    ensures s.files == [Local(Scanning({j.e.chunks[0].id}, true, 3, 3, {}), Some([0, 0, 0]))]
  {
    acts, s := Then(h, j, Start0(), before, s0, SkipChunk, false);
    acts, s := Then(h, j, Start0(), acts, s, SkipChunk, false);
    acts, s := Then(h, j, Start0(), acts, s, SkipChunk, false);
  }

  // ---- What a resumed run leaves, in general ----

  /** After a crash in any state, the middle of a fallback included, a file is done right exactly when every chunk with a
      saved mark or a claim carries its bytes at that moment, or a digest is there and some chunk is to be fetched. */
  lemma {:induction false} ResumedExactly(h: Host, jobs: seq<Job>, ts: seq<Bytes>, s: State, s0: State, acts: seq<Action>,
                                          s': State, f: nat)
    requires Aims(h, jobs, ts) && |s.files| == |jobs| && Next(h, jobs, s, Crash) == Some(s0)
    requires Crash !in acts && Reaches(h, jobs, s0, acts, s') && |s'.files| == |jobs|
    requires f < |jobs| && !jobs[f].e.IsDir() && s'.files[f].phase.Done?
    ensures var j, t, file := jobs[f], ts[f], s.files[f].file;
      s'.files[f].file == Some(t) <==>
        || (forall k :: 0 <= k < |j.e.chunks| && Trusted(h, j, s.saved, file, k) ==> Good(j, t, file, k))
        || (j.e.sha1 != "" && Scan(FoundAs(h, jobs, s0, f), j.e.chunks).pending != [])
  {
    RunDecided(h, jobs, ts, s0, acts, s', f);
    TrustSpelledOut(h, jobs[f], ts[f], s.saved, s.files[f].file);
  }

  /** If all marks of the file were saved before the crash, as they may be in a fallback, the resumed run leaves the file
      as the crash left it. */
  lemma {:induction false} SavedMarksFreezeFile(h: Host, jobs: seq<Job>, ts: seq<Bytes>, s: State, s0: State, acts: seq<Action>,
                                                s': State, f: nat)
    requires Aims(h, jobs, ts) && |s.files| == |jobs| && Next(h, jobs, s, Crash) == Some(s0)
    requires Crash !in acts && Reaches(h, jobs, s0, acts, s') && |s'.files| == |jobs|
    requires f < |jobs| && !jobs[f].e.IsDir() && s'.files[f].phase.Done?
    requires forall k :: 0 <= k < |jobs[f].e.chunks| ==> KeyOf(h, jobs[f], k) in s.saved
    requires s.files[f].file.Some? && |s.files[f].file.value| == jobs[f].e.size
    ensures s'.files[f].file == Some(ts[f]) <==> s.files[f].file == Some(ts[f])
  {
    var j, t, file := jobs[f], ts[f], s.files[f].file;
    var x := FoundAs(h, jobs, s0, f);
    ResumedExactly(h, jobs, ts, s, s0, acts, s', f);
    forall k | 0 <= k < |j.e.chunks| ensures x.Trusts(j.e.chunks[k]) {
      assert x.Key(j.e.chunks[k]) == KeyOf(h, j, k);
    }
    TrustedAreSkipped(x, j.e.chunks);
    AllGoodIsContent(h, j, t, file.value);
  }

  lemma AllGoodIsContent(h: Host, j: Job, t: Bytes, file: Bytes)
    requires Describes(h, j.e, t) && |file| == j.e.size
    ensures (forall k :: 0 <= k < |j.e.chunks| ==> Good(j, t, Some(file), k)) <==> file == t
  {
    if forall k :: 0 <= k < |j.e.chunks| ==> Good(j, t, Some(file), k) {
      forall k | 0 <= k < |j.e.chunks| ensures Holds(file, j.e.chunks[k], t) {
        assert Good(j, t, Some(file), k);
      }
      AllHoldIsContent(h, j.e, t, file);
    }
  }
}
