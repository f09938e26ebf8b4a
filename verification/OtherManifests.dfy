/** Two ways in which a run towards another manifest, given up, spoils a later one. */
module OtherManifests {
  import opened Text
  import opened Depot
  import opened Diff
  import opened Plan
  import opened Stream
  import opened Update
  import opened Engine
  import opened SingleRun
  import opened Outcomes
  import opened Attempts

  /** A file of one byte in one chunk. */
  ghost predicate ByteFile(h: Host, e: Entry, byte: Byte)
  {
    && !e.IsDir() && e.size == 1 && |e.chunks| == 1
    && e.chunks[0].offset == 0 && e.chunks[0].size == 1 && |e.chunks[0].id| == 40
    && Identifies(h, e.chunks[0].id, [byte]) && e.sha1 != "" && Identifies(h, e.sha1, [byte])
  }

  /** Such a file, and no delta that claims its chunk. */
  ghost predicate OneByte(h: Host, j: Job, byte: Byte)
  {
    ByteFile(h, j.e, byte) && (j.delta.Some? ==> j.delta.value.kept == [])
  }

  function Start1(file: Option<Bytes>, marks: set<string>): State
  {
    State([Local(Idle, file)], marks, marks, 0, 0)
  }

  /** What a one-byte file that is not there, or starts with something else, reads as once it is open. */
  function OpenedAs(file: Option<Bytes>): Bytes
  {
    if file.Some? then file.value else [0]
  }

  lemma QueuesOnly(h: Host, j: Job, file: Option<Bytes>, marks: set<string>, byte: Byte)
    returns (acts: seq<Action>, s: State)
    requires OneByte(h, j, byte) && KeyOf(h, j, 0) !in marks
    requires file.Some? ==> |file.value| >= 1 && file.value[0] != byte
    ensures From(h, j, Start1(file, marks), acts, s) && s.mem == s.saved == marks
    ensures s.files == [Local(Fetching({0}, map[0 := Queued]), Some(OpenedAs(file)))]
  {
    var s0 := Start1(file, marks);
    acts, s := Then(h, j, s0, [], s0, Start, false);
    assert Preallocate([], 1) == [0];
    assert s.files[0].file == Some(OpenedAs(file));
    if file.Some? {
      assert Slice(file.value, j.e.chunks[0])[0] == file.value[0];
    }
    acts, s := Then(h, j, s0, acts, s, QueueChunk, false);
    assert QueueAll({0}) == map[0 := Queued];
    assert s.files[0].phase.pending == {0};
    acts, s := Then(h, j, s0, acts, s, StartFetch, false);
  }

  /** The chunk is fetched, counted and marked, the mark is saved, and the run is given up. */
  lemma FetchesOnly(h: Host, j: Job, file: Option<Bytes>, marks: set<string>, byte: Byte) returns (acts: seq<Action>, s: State)
    requires OneByte(h, j, byte) && KeyOf(h, j, 0) !in marks
    requires file.Some? ==> |file.value| >= 1 && file.value[0] != byte
    ensures From(h, j, Start1(file, marks), acts, s)
    ensures s.files[0].file == Some(WriteAt(OpenedAs(file), 0, [byte])) && s.saved == marks + {KeyOf(h, j, 0)}
  {
    acts, s := QueuesOnly(h, j, file, marks, byte);
    assert EqualFold(h.sha1([byte]), j.e.chunks[0].id);
    acts, s := Arrives(h, j, Start1(file, marks), acts, s, 0, OpenedAs(file), [byte]);
  }

  /** The byte is written and the run ends there: nothing is marked. */
  lemma WritesOnly(h: Host, j: Job, file: Option<Bytes>, byte: Byte) returns (acts: seq<Action>, s: State)
    requires OneByte(h, j, byte) && (file.Some? ==> |file.value| >= 1 && file.value[0] != byte)
    ensures From(h, j, Start1(file, {}), acts, s)
    ensures s.files[0].file == Some(WriteAt(OpenedAs(file), 0, [byte])) && s.saved == {}
  {
    acts, s := QueuesOnly(h, j, file, {}, byte);
    assert EqualFold(h.sha1([byte]), j.e.chunks[0].id);
    acts, s := Then(h, j, Start1(file, {}), acts, s, Write(0, [byte]), false);
  }

  /** The delta claims the only chunk of j, or its mark is there: the run is done at once, whatever the byte is. */
  lemma SkipsOnly(h: Host, j: Job, was: Bytes, marks: set<string>, byte: Byte) returns (acts: seq<Action>, s: State)
    requires ByteFile(h, j.e, byte) && |was| >= 1 && Trusted(h, j, marks, Some(was), 0)
    ensures From(h, j, Start1(Some(was), marks), acts, s)
    ensures s.files == [Local(Done, Some([was[0]]))] && Crash !in acts
  {
    var s0 := Start1(Some(was), marks);
    acts, s := Then(h, j, s0, [], s0, Start, false);
    assert s.files[0].file == Some(was) && s.files[0].phase.next == 0;
    acts, s := Then(h, j, s0, acts, s, SkipChunk, false);
    acts, s := Finishes(h, j, s0, acts, s, was);
  }

  lemma Finishes(h: Host, j: Job, s0: State, before: seq<Action>, s1: State, was: Bytes) returns (acts: seq<Action>, s: State)
    requires From(h, j, s0, before, s1) && Crash !in before && |j.e.chunks| == 1 && j.e.size == 1 && |was| >= 1
    requires s1.files[0].phase.Scanning? && s1.files[0].phase.next == 1 && s1.files[0].phase.pending == {} && s1.files[0].file == Some(was)
    ensures From(h, j, s0, acts, s) && s.files == [Local(Done, Some([was[0]]))] && Crash !in acts
  {
    acts, s := Then(h, j, s0, before, s1, StartFetch, false);
    assert QueueAll({}) == map[];
    assert Resize(was, 1) == [was[0]];
    acts, s := Then(h, j, s0, acts, s, Cut, false);
    acts, s := Then(h, j, s0, acts, s, Accept, false);
  }

  lemma {:induction false} OneAttempt(h: Host, j: Job, disk: map<string, Bytes>, marks: set<string>, acts: seq<Action>, s: State)
    requires From(h, j, Start1(Find(disk, j.path), marks), acts, s) && s.files[0].file.Some?
    ensures AttemptEnds(h, Attempt([j], acts), disk, marks, s)
    ensures Leaves(h, Attempt([j], acts), disk, marks, disk[j.path := s.files[0].file.value], s.saved)
  {
    assert Boot([j], disk, marks).files == [Local(Idle, Find(disk, j.path))];
    assert DiskAfter([j], s.files, 0, disk) == disk;
    assert DiskAfter([j], s.files, 1, disk) == disk[j.path := s.files[0].file.value];
  }

  /** Towards b, given up; towards c, given up; towards b again: the chunk is skipped on the mark of the first attempt,
      nothing is fetched, the digest is not looked at, and the run succeeds with c's byte. */
  lemma ThereAndBack(h: Host, b: Job, c: Job, x: Byte, y: Byte)
    returns (attempts: seq<Attempt>, disks: seq<map<string, Bytes>>, marks: seq<set<string>>, last: Attempt, s: State)
    requires OneByte(h, b, x) && OneByte(h, c, y) && x != y && b.path == c.path
    ensures |attempts| == 2 && attempts[0].jobs == [b] && attempts[1].jobs == [c] && last.jobs == [b] && Crash !in last.acts
    ensures History(h, attempts, disks, marks) && disks[0] == map[] && marks[0] == {}
    ensures AttemptEnds(h, last, disks[2], marks[2], s)
    ensures s.files == [Local(Done, Some([y]))] && !EqualFold(h.sha1([y]), b.e.sha1)
  {
    assert [x][0] != [y][0];
    assert WriteAt([0], 0, [x]) == [x] && WriteAt([x], 0, [y]) == [y];
    var disk1: map<string, Bytes> := map[][b.path := [x]];
    var first, s1 := FetchesOnly(h, b, None, {}, x);
    OneAttempt(h, b, map[], {}, first, s1);
    KeysDiffer(h, b, c, x, y);
    var second, s2 := FetchesOnly(h, c, Some([x]), s1.saved, y);
    OneAttempt(h, c, disk1, s1.saved, second, s2);
    attempts, disks, marks := [Attempt([b], first), Attempt([c], second)], [map[], disk1, disk1[c.path := [y]]], [{}, s1.saved, s2.saved];
    TwoLeave(h, attempts, disks, marks);
    last, s := AcceptsOther(h, b, disks[2], marks[2], x, y);
  }

  lemma TwoLeave(h: Host, attempts: seq<Attempt>, disks: seq<map<string, Bytes>>, marks: seq<set<string>>)
    requires |attempts| == 2 && |disks| == |marks| == 3
    requires Leaves(h, attempts[0], disks[0], marks[0], disks[1], marks[1])
    requires Leaves(h, attempts[1], disks[1], marks[1], disks[2], marks[2])
    ensures History(h, attempts, disks, marks)
  {
  }

  /** With its mark in the checkpoint b's chunk is not looked at again. */
  lemma AcceptsOther(h: Host, b: Job, disk: map<string, Bytes>, marks: set<string>, x: Byte, y: Byte) returns (last: Attempt, s: State)
    requires OneByte(h, b, x) && x != y && b.path in disk && disk[b.path] == [y] && KeyOf(h, b, 0) in marks
    ensures last.jobs == [b] && Crash !in last.acts && AttemptEnds(h, last, disk, marks, s)
    ensures s.files == [Local(Done, Some([y]))] && !EqualFold(h.sha1([y]), b.e.sha1)
  {
    var acts;
    acts, s := SkipsOnly(h, b, [y], marks, x);
    OneAttempt(h, b, disk, marks, acts, s);
    last := Attempt([b], acts);
    assert [y][0] != [x][0];
    assert EqualFold(h.sha1([y]), b.e.sha1) <==> [y] == [x];
  }

  lemma KeysDiffer(h: Host, b: Job, c: Job, x: Byte, y: Byte)
    requires ByteFile(h, b.e, x) && ByteFile(h, c.e, y) && [x] != [y]
    ensures KeyOf(h, c, 0) != KeyOf(h, b, 0)
  {
    if KeyOf(h, c, 0) == KeyOf(h, b, 0) {
      KeyIdentifiesChunk(h, c.path, c.e.chunks[0], b.path, b.e.chunks[0]);
      SameIdSameData(h, c.e.chunks[0].id, b.e.chunks[0].id, [y], [x]);
    }
  }

  /** Such files exist. */
  lemma TwoVersionsExist() returns (h: Host, b: Job, c: Job)
    ensures OneByte(h, b, 1) && OneByte(h, c, 2) && b.path == c.path
  {
    h := Host(p => p, DemoDigest);
    b := Job("f", Entry("f", 1, 0, ID_A, 1, [Chunk(ID_A, 0, 1)]), None);
    c := Job("f", Entry("f", 1, 0, ID_B, 1, [Chunk(ID_B, 0, 1)]), None);
    DemoDigests(h);
    PlainPath(b.e);
    PlainPath(c.e);
  }

  // ---- The same without any mark ----

  /** Installed is x, z; towards b the chunk of x stays, towards c it becomes y. Both deltas are made against what is
      installed. */
  ghost predicate Installed3(h: Host, was: Entry, b: Job, c: Job, x: Byte, y: Byte, z: Byte)
  {
    && Describes(h, was, [x, z]) && ByteFile(h, b.e, x) && ByteFile(h, c.e, y) && x != y && b.path == c.path
    && b.delta == Some(DiffOf(was, b.e)) && c.delta == Some(DiffOf(was, c.e)) && IsUnchanged(was.chunks, b.e.chunks[0])
  }

  lemma ByteDescribed(h: Host, e: Entry, byte: Byte)
    requires ByteFile(h, e, byte)
    ensures Describes(h, e, [byte])
  {
    assert e.chunks[0].offset <= 0 < e.chunks[0].End();
    assert Covered(e.chunks, 0);
    assert Slice([byte], e.chunks[0]) == [byte];
  }

  lemma {:induction false} DeltasOfBoth(h: Host, was: Entry, b: Job, c: Job, x: Byte, y: Byte, z: Byte)
    requires Installed3(h, was, b, c, x, y, z)
    ensures OneByte(h, c, y) && b.e.chunks[0] in b.delta.value.kept
  {
    ByteDescribed(h, c.e, y);
    ChangedByte(h, was, c.e, x, y, z);
    NothingKept(was.chunks, c.e.chunks);
  }

  lemma {:induction false} NothingKept(prev: seq<Chunk>, chunks: seq<Chunk>)
    requires |chunks| == 1 && !IsUnchanged(prev, chunks[0])
    ensures Keep(prev, chunks, true) == []
  {
    assert chunks[..0] == [];
    assert Keep(prev, [], true) == [];
  }

  lemma ChangedByte(h: Host, was: Entry, e: Entry, x: Byte, y: Byte, z: Byte)
    requires Describes(h, was, [x, z]) && Describes(h, e, [y]) && ByteFile(h, e, y) && x != y
    ensures !IsUnchanged(was.chunks, e.chunks[0])
  {
    assert At([x, z], 0) != At([y], 0);
    if IsUnchanged(was.chunks, e.chunks[0]) {
      UnchangedChunkHolds(h, was, e, [x, z], [y], 0);
    }
  }

  /** Towards c, given up as soon as its byte is written, with no mark; then towards b: the delta claims the chunk, nothing is
      fetched, and the run succeeds with c's byte. */
  lemma SpoiltClaim(h: Host, was: Entry, b: Job, c: Job, x: Byte, y: Byte, z: Byte)
    returns (attempts: seq<Attempt>, disks: seq<map<string, Bytes>>, marks: seq<set<string>>, last: Attempt, s: State)
    requires Installed3(h, was, b, c, x, y, z)
    ensures |attempts| == 1 && attempts[0].jobs == [c] && last.jobs == [b] && Crash !in last.acts
    ensures History(h, attempts, disks, marks) && disks[0] == map[b.path := [x, z]] && marks == [{}, {}]
    ensures AttemptEnds(h, last, disks[1], marks[1], s)
    ensures s.files == [Local(Done, Some([y]))] && !EqualFold(h.sha1([y]), b.e.sha1)
  {
    DeltasOfBoth(h, was, b, c, x, y, z);
    var disk0: map<string, Bytes> := map[b.path := [x, z]];
    assert WriteAt([x, z], 0, [y]) == [y, z];
    var first, s1 := WritesOnly(h, c, Some([x, z]), y);
    OneAttempt(h, c, disk0, {}, first, s1);
    var disk1 := disk0[c.path := [y, z]];
    attempts, disks, marks := [Attempt([c], first)], [disk0, disk1], [{}, {}];
    assert b.e.chunks[0].id in ClaimedIds(b.delta.value, 2);
    var second;
    second, s := SkipsOnly(h, b, [y, z], {}, x);
    OneAttempt(h, b, disk1, {}, second, s);
    last := Attempt([b], second);
    assert [y][0] != [x][0];
    assert EqualFold(h.sha1([y]), b.e.sha1) <==> [y] == [x];
  }

  /** Such files exist. */
  lemma SpoiltClaimExists() returns (h: Host, was: Entry, b: Job, c: Job)
    ensures Installed3(h, was, b, c, 1, 2, 2)
  {
    h := Host(p => p, DemoDigest);
    was := Entry("f", 2, 0, "old", 1, [Chunk(ID_A, 0, 1), Chunk(ID_B, 1, 1)]);
    var eb := Entry("f", 1, 0, ID_A, 1, [Chunk(ID_A, 0, 1)]);
    var ec := Entry("f", 1, 0, ID_B, 1, [Chunk(ID_B, 0, 1)]);
    b, c := Job("f", eb, Some(DiffOf(was, eb))), Job("f", ec, Some(DiffOf(was, ec)));
    DemoDigests(h);
    PlainPath(eb);
    PlainPath(ec);
    TwoChunksDescribed(h, was, 1, 2);
    FirstUnchanged(ID_A, ID_B);
  }
}
