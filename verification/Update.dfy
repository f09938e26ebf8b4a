/** A whole update: delta, purge, deduplication, streaming, and what the disk holds at the end. */
module Update {
  import opened Text
  import opened Depot
  import opened Diff
  import opened Plan
  import opened Cdn
  import opened Checkpoints
  import opened Stream

  // ---- computeDelta ----

  /** An earlier manifest and the target files it is compared with. */
  datatype Comparison = Comparison(prev: Manifest, files: seq<Entry>)

  function DepotOf(e: Entry, m: Manifest): nat
  {
    if e.depotID == 0 then m.depotID else e.depotID
  }

  function FilesOfDepot(m: Manifest, id: nat, files: seq<Entry>): seq<Entry>
  {
    if files == [] then [] else
      var rest := FilesOfDepot(m, id, files[..|files| - 1]);
      var e := files[|files| - 1];
      if DepotOf(e, m) == id then rest + [e] else rest
  }

  function DepotIds(m: Manifest): set<nat>
  {
    set e | e in m.files :: DepotOf(e, m)
  }

  function InstalledComparisons(m: Manifest, installed: map<nat, Manifest>, ids: set<nat>): set<Comparison>
  {
    set id | id in ids && id in installed :: Comparison(installed[id], FilesOfDepot(m, id, m.files))
  }

  /** What a run compares: everything with the explicit previous manifest, or else the files of each depot with what is
      installed of that depot. Nothing installed means a fresh install. */
  function Comparisons(m: Manifest, previous: Option<Manifest>, installed: map<nat, Manifest>): set<Comparison>
  {
    if previous.Some? then {Comparison(previous.value, m.files)} else InstalledComparisons(m, installed, DepotIds(m))
  }

  function Changes(h: Host, c: Comparison): map<string, FileDiff>
  {
    Modified(h, OldFiles(h, c.prev.files), c.files)
  }

  /** The change `fd` is recorded for path q, normalised once more. */
  ghost predicate Recorded(h: Host, c: Comparison, q: string, fd: FileDiff)
  {
    exists p :: p in Changes(h, c) && h.norm(p) == q && Changes(h, c)[p] == fd
  }

  /** The delta holds one recorded change for every path that has any, and nothing else. */
  ghost predicate IsDelta(h: Host, comparisons: set<Comparison>, diffMap: map<string, FileDiff>)
  {
    && (forall q :: q in diffMap ==> exists c :: c in comparisons && Recorded(h, c, q, diffMap[q]))
    && (forall c, q, fd :: c in comparisons && Recorded(h, c, q, fd) ==> q in diffMap)
  }

  /** The old paths without a successor among the files they are compared with. */
  function AllDeleted(h: Host, comparisons: set<Comparison>): set<string>
  {
    set c, p | c in comparisons && p in Dropped(OldFiles(h, c.prev.files), Paths(h, c.files)) :: p
  }

  /** Add one diff to the delta, keyed by normalised path once more. */
  method Collect(h: Host, d: DepotDiff, diffMap: map<string, FileDiff>, deleted: set<string>)
    returns (diffMap': map<string, FileDiff>, deleted': set<string>)
    ensures forall q :: q in diffMap' ==> (q in diffMap && diffMap'[q] == diffMap[q]) || TakenFrom(h, d.modified, q, diffMap'[q])
    ensures forall q :: q in diffMap ==> q in diffMap'
    ensures forall p :: p in d.modified ==> h.norm(p) in diffMap'
    ensures deleted' == deleted + d.deleted
  {
    var todo := d.modified.Keys;
    diffMap' := diffMap;
    while todo != {}
      invariant todo <= d.modified.Keys
      invariant forall q :: q in diffMap' ==> (q in diffMap && diffMap'[q] == diffMap[q]) || TakenFrom(h, d.modified, q, diffMap'[q])
      invariant forall q :: q in diffMap ==> q in diffMap'
      invariant forall p :: p in d.modified && p !in todo ==> h.norm(p) in diffMap'
      decreases todo
    {
      var p :| p in todo;
      assert TakenFrom(h, d.modified, h.norm(p), d.modified[p]);
      diffMap' := diffMap'[h.norm(p) := d.modified[p]];
      todo := todo - {p};
    }
    deleted' := deleted + d.deleted;
  }

  ghost predicate TakenFrom(h: Host, modified: map<string, FileDiff>, q: string, fd: FileDiff)
  {
    exists p :: p in modified && h.norm(p) == q && modified[p] == fd
  }

  lemma DeltaMore(h: Host, comparisons: set<Comparison>, c: Comparison, diffMap: map<string, FileDiff>, diffMap': map<string, FileDiff>)
    requires IsDelta(h, comparisons, diffMap)
    requires forall q :: q in diffMap' ==> (q in diffMap && diffMap'[q] == diffMap[q]) || TakenFrom(h, Changes(h, c), q, diffMap'[q])
    requires forall q :: q in diffMap ==> q in diffMap'
    requires forall p :: p in Changes(h, c) ==> h.norm(p) in diffMap'
    ensures IsDelta(h, comparisons + {c}, diffMap')
  {
    forall q | q in diffMap' ensures exists b :: b in comparisons + {c} && Recorded(h, b, q, diffMap'[q]) {
      if TakenFrom(h, Changes(h, c), q, diffMap'[q]) {
        assert Recorded(h, c, q, diffMap'[q]);
      } else {
        var b :| b in comparisons && Recorded(h, b, q, diffMap[q]);
        assert Recorded(h, b, q, diffMap'[q]);
      }
    }
  }

  /** computeDelta, with an explicit previous manifest or with one installed manifest per depot.
      The depots of the second case come in no particular order. */
  method ComputeDelta(h: Host, m: Manifest, previous: Option<Manifest>, installed: map<nat, Manifest>)
    returns (diffMap: map<string, FileDiff>, deleted: set<string>)
    ensures IsDelta(h, Comparisons(m, previous, installed), diffMap)
    ensures deleted == AllDeleted(h, Comparisons(m, previous, installed))
  {
    diffMap, deleted := map[], {};
    if previous.Some? {
      diffMap, deleted := CollectOne(h, Comparison(previous.value, m.files), m.depotID, diffMap, deleted, {});
      assert {} + {Comparison(previous.value, m.files)} == Comparisons(m, previous, installed);
      return;
    }
    var todo := set e | e in m.files :: DepotOf(e, m);
    ghost var done: set<nat> := {};
    while todo != {}
      invariant done + todo == DepotIds(m)
      invariant IsDelta(h, InstalledComparisons(m, installed, done), diffMap)
      invariant deleted == AllDeleted(h, InstalledComparisons(m, installed, done))
      decreases todo
    {
      var id :| id in todo;
      todo := todo - {id};
      OneMoreDepot(m, installed, done, id);
      if id in installed {
        var c := Comparison(installed[id], FilesOfDepot(m, id, m.files));
        diffMap, deleted := CollectOne(h, c, id, diffMap, deleted, InstalledComparisons(m, installed, done));
      }
      done := done + {id};
    }
    assert done == DepotIds(m);
  }

  lemma OneMoreDepot(m: Manifest, installed: map<nat, Manifest>, ids: set<nat>, id: nat)
    ensures InstalledComparisons(m, installed, ids + {id}) ==
              InstalledComparisons(m, installed, ids)
              + if id in installed then {Comparison(installed[id], FilesOfDepot(m, id, m.files))} else {}
  {
  }

  method CollectOne(h: Host, c: Comparison, id: nat, diffMap: map<string, FileDiff>, deleted: set<string>, ghost done: set<Comparison>)
    returns (diffMap': map<string, FileDiff>, deleted': set<string>)
    requires IsDelta(h, done, diffMap) && deleted == AllDeleted(h, done)
    ensures IsDelta(h, done + {c}, diffMap') && deleted' == AllDeleted(h, done + {c})
  {
    var d := DiffDepotManifests(h, Some(c.prev), Some(Manifest(id, c.files)));
    diffMap', deleted' := Collect(h, d, diffMap, deleted);
    DeltaMore(h, done, c, diffMap, diffMap');
    DeletedMore(h, done, c);
  }

  lemma DeletedMore(h: Host, done: set<Comparison>, c: Comparison)
    ensures AllDeleted(h, done + {c}) == AllDeleted(h, done) + Dropped(OldFiles(h, c.prev.files), Paths(h, c.files))
  {
  }

  // ---- What the delta means for one file ----

  lemma {:induction false} ModifiedKeys(h: Host, prev: map<string, Entry>, files: seq<Entry>)
    ensures Modified(h, prev, files).Keys <= Paths(h, files)
  {
    if files != [] {
      ModifiedKeys(h, prev, files[..|files| - 1]);
      assert files == files[..|files| - 1] + [files[|files| - 1]];
    }
  }

  lemma {:induction false} FilesOfDepotAre(m: Manifest, id: nat, files: seq<Entry>)
    ensures forall e :: e in FilesOfDepot(m, id, files) <==> e in files && DepotOf(e, m) == id
  {
    if files != [] {
      FilesOfDepotAre(m, id, files[..|files| - 1]);
      assert files == files[..|files| - 1] + [files[|files| - 1]];
    }
  }

  lemma {:induction false} DepotPathsDistinct(h: Host, m: Manifest, id: nat, files: seq<Entry>)
    requires DistinctPaths(h, files)
    ensures DistinctPaths(h, FilesOfDepot(m, id, files))
  {
    if files != [] {
      var n := |files| - 1;
      var rest, e := FilesOfDepot(m, id, files[..n]), files[n];
      DepotPathsDistinct(h, m, id, files[..n]);
      FilesOfDepotAre(m, id, files[..n]);
      forall x | x in rest ensures h.norm(x.path) != h.norm(e.path) {
        var j :| 0 <= j < n && files[..n][j] == x;
      }
      DistinctMore(h, rest, e);
    }
  }

  /** An update of one depot, whose entries name it or leave it open, compares all its files with what is installed of it. */
  lemma {:induction false} OneDepotCompared(m: Manifest, installed: map<nat, Manifest>)
    requires m.files != [] && forall e :: e in m.files ==> e.depotID == 0 || e.depotID == m.depotID
    ensures Comparisons(m, None, installed) == if m.depotID in installed then {Comparison(installed[m.depotID], m.files)} else {}
  {
    assert m.files[0] in m.files;
    assert DepotIds(m) == {m.depotID};
    AllOfDepot(m, m.files);
  }

  lemma {:induction false} AllOfDepot(m: Manifest, files: seq<Entry>)
    requires forall e :: e in files ==> DepotOf(e, m) == m.depotID
    ensures FilesOfDepot(m, m.depotID, files) == files
  {
    if files != [] {
      var n := |files| - 1;
      AllOfDepot(m, files[..n]);
      assert files[n] in files && files == files[..n] + [files[n]];
    }
  }

  /** What the comparisons look at: parts of the target in which no path repeats. */
  lemma ComparedPart(h: Host, m: Manifest, previous: Option<Manifest>, installed: map<nat, Manifest>, c: Comparison)
    requires DistinctPaths(h, m.files) && c in Comparisons(m, previous, installed)
    ensures DistinctPaths(h, c.files) && forall e :: e in c.files ==> e in m.files
  {
    if previous.None? {
      var id :| id in DepotIds(m) && id in installed && c == Comparison(installed[id], FilesOfDepot(m, id, m.files));
      DepotPathsDistinct(h, m, id, m.files);
      FilesOfDepotAre(m, id, m.files);
    }
  }

  /** The entry behind a recorded change, when normalised paths stay as they are. */
  lemma {:induction false} ChangedEntry(h: Host, c: Comparison, q: string, fd: FileDiff) returns (e: Entry)
    requires DistinctPaths(h, c.files) && Recorded(h, c, q, fd)
    requires forall x :: x in c.files && !x.IsDir() ==> h.norm(h.norm(x.path)) == h.norm(x.path)
    ensures e in c.files && !e.IsDir() && h.norm(e.path) == q && q in OldFiles(h, c.prev.files)
    ensures fd == DiffOf(OldFiles(h, c.prev.files)[q], e)
  {
    var p :| p in Changes(h, c) && h.norm(p) == q && Changes(h, c)[p] == fd;
    ModifiedKeys(h, OldFiles(h, c.prev.files), c.files);
    assert p in Paths(h, c.files);
    e :| e in c.files && !e.IsDir() && h.norm(e.path) == p;
    var k :| 0 <= k < |c.files| && c.files[k] == e;
    ModifiedAt(h, OldFiles(h, c.prev.files), c.files, k);
  }

  // ---- Deduplication and purge ----

  /** Directory nodes for the root itself are passed over. */
  predicate IsRoot(h: Host, e: Entry)
  {
    h.norm(e.path) == "" && e.IsDir()
  }

  predicate Agree(a: Entry, b: Entry)
  {
    a.sha1 == b.sha1 && a.size == b.size
  }

  /** No two entries for one path differ in digest or size. */
  predicate Consistent(h: Host, files: seq<Entry>)
  {
    forall i, j :: 0 <= i < j < |files| ==> Compatible(h, files[i], files[j])
  }

  predicate Compatible(h: Host, a: Entry, b: Entry)
  {
    IsRoot(h, a) || IsRoot(h, b) || h.norm(a.path) != h.norm(b.path) || Agree(a, b)
  }

  /** Two versions of one path, other than directory nodes for the root. */
  predicate Disagree(h: Host, a: Entry, b: Entry)
  {
    h.norm(a.path) == h.norm(b.path) && (a.sha1 != b.sha1 || a.size != b.size) && (h.norm(a.path) != "" || !(a.IsDir() || b.IsDir()))
  }

  predicate DistinctPaths(h: Host, files: seq<Entry>)
  {
    forall i, j :: 0 <= i < j < |files| ==> h.norm(files[i].path) != h.norm(files[j].path)
  }

  /** The paths entries are kept for. */
  function Listed(h: Host, files: seq<Entry>): set<string>
  {
    set e | e in files && !IsRoot(h, e) :: h.norm(e.path)
  }

  /** The first entry of every path, in order. */
  function FirstPerPath(h: Host, files: seq<Entry>): seq<Entry>
  {
    if files == [] then [] else
      var rest := FirstPerPath(h, files[..|files| - 1]);
      var e := files[|files| - 1];
      if IsRoot(h, e) || h.norm(e.path) in Listed(h, files[..|files| - 1]) then rest else rest + [e]
  }

  lemma ListedStep(h: Host, files: seq<Entry>, e: Entry)
    ensures Listed(h, files + [e]) == Listed(h, files) + if IsRoot(h, e) then {} else {h.norm(e.path)}
  {
  }

  lemma {:induction false} DedupStep(h: Host, files: seq<Entry>, i: nat)
    requires i < |files|
    ensures var e, done := files[i], files[..i];
      && files[..i + 1] == done + [e]
      && Listed(h, files[..i + 1]) == (if IsRoot(h, e) then Listed(h, done) else Listed(h, done) + {h.norm(e.path)})
      && FirstPerPath(h, files[..i + 1]) ==
           if IsRoot(h, e) || h.norm(e.path) in Listed(h, done) then FirstPerPath(h, done) else FirstPerPath(h, done) + [e]
  {
    assert files[..i + 1][..i] == files[..i] && files[..i + 1] == files[..i] + [files[i]];
    ListedStep(h, files[..i], files[i]);
  }

  /** What deduplication keeps: entries of the list, one for each listed path. */
  lemma {:induction false} FirstPerPathFacts(h: Host, files: seq<Entry>)
    ensures forall e :: e in FirstPerPath(h, files) ==> e in files && !IsRoot(h, e)
    ensures DistinctPaths(h, FirstPerPath(h, files))
    ensures Listed(h, FirstPerPath(h, files)) == Listed(h, files)
  {
    if files != [] {
      var n := |files| - 1;
      var init, e, rest := files[..n], files[n], FirstPerPath(h, files[..n]);
      FirstPerPathFacts(h, init);
      assert files == init + [e];
      ListedStep(h, init, e);
      ListedStep(h, rest, e);
      if !IsRoot(h, e) && h.norm(e.path) !in Listed(h, rest) {
        DistinctMore(h, rest, e);
      }
    }
  }

  /** Entries are kept in the order listed: more entries add to the end. */
  lemma {:induction false} KeptInOrder(h: Host, files: seq<Entry>, more: seq<Entry>)
    ensures |FirstPerPath(h, files)| <= |FirstPerPath(h, files + more)|
    ensures FirstPerPath(h, files + more)[..|FirstPerPath(h, files)|] == FirstPerPath(h, files)
  {
    if more == [] {
      assert files + more == files;
    } else {
      var n := |more| - 1;
      KeptInOrder(h, files, more[..n]);
      assert (files + more)[..|files + more| - 1] == files + more[..n];
    }
  }

  /** Of several entries for one path the first one is kept. */
  lemma {:induction false} KeptIsFirst(h: Host, files: seq<Entry>, e: Entry) returns (i: nat)
    requires e in FirstPerPath(h, files)
    ensures i < |files| && files[i] == e
    ensures forall j :: 0 <= j < i ==> IsRoot(h, files[j]) || h.norm(files[j].path) != h.norm(e.path)
  {
    var n := |files| - 1;
    assert files == files[..n] + [files[n]];
    if e in FirstPerPath(h, files[..n]) {
      i := KeptIsFirst(h, files[..n], e);
    } else {
      i := n;
      assert forall j :: 0 <= j < n ==> files[..n][j] == files[j];
    }
  }

  lemma {:induction false} DistinctMore(h: Host, rest: seq<Entry>, e: Entry)
    requires DistinctPaths(h, rest) && forall x :: x in rest ==> h.norm(x.path) != h.norm(e.path)
    ensures DistinctPaths(h, rest + [e])
  {
    forall i | 0 <= i < |rest| ensures h.norm(rest[i].path) != h.norm(e.path) {
      assert rest[i] in rest;
    }
  }

  predicate AgreesWithSeen(h: Host, seen: map<string, Entry>, e: Entry)
  {
    IsRoot(h, e) || (h.norm(e.path) in seen && Agree(seen[h.norm(e.path)], e))
  }

  /** `seen` holds, for every path so far, its first entry (at position `at`), and all entries agree with it. */
  ghost predicate SeenSoFar(h: Host, files: seq<Entry>, seen: map<string, Entry>, at: map<string, nat>)
  {
    && seen.Keys == at.Keys
    && (forall p :: p in seen ==>
          at[p] < |files| && files[at[p]] == seen[p] && h.norm(seen[p].path) == p && !IsRoot(h, seen[p]))
    && (forall j :: 0 <= j < |files| ==> AgreesWithSeen(h, seen, files[j]))
  }

  lemma {:induction false} SeenStep(h: Host, files: seq<Entry>, seen: map<string, Entry>, at: map<string, nat>, e: Entry)
    requires SeenSoFar(h, files, seen, at)
    ensures AgreesWithSeen(h, seen, e) ==> SeenSoFar(h, files + [e], seen, at)
    ensures !AgreesWithSeen(h, seen, e) && h.norm(e.path) !in seen ==>
              SeenSoFar(h, files + [e], seen[h.norm(e.path) := e], at[h.norm(e.path) := |files|])
  {
    var seen', at' := seen[h.norm(e.path) := e], at[h.norm(e.path) := |files|];
    if !AgreesWithSeen(h, seen, e) && h.norm(e.path) !in seen {
      forall j | 0 <= j <= |files| ensures AgreesWithSeen(h, seen', (files + [e])[j]) {
        if j < |files| {
          assert AgreesWithSeen(h, seen, files[j]);
        }
      }
    }
  }

  lemma {:induction false} SeenIsConsistent(h: Host, files: seq<Entry>, seen: map<string, Entry>, at: map<string, nat>)
    requires SeenSoFar(h, files, seen, at)
    ensures Consistent(h, files)
  {
    forall i, j | 0 <= i < j < |files| ensures Compatible(h, files[i], files[j]) {
      assert AgreesWithSeen(h, seen, files[i]) && AgreesWithSeen(h, seen, files[j]);
    }
  }

  ghost predicate Deduped(h: Host, files: seq<Entry>, keep: seq<Entry>, seen: map<string, Entry>, at: map<string, nat>)
  {
    keep == FirstPerPath(h, files) && SeenSoFar(h, files, seen, at) && seen.Keys == Listed(h, files)
  }

  /** One entry. */
  lemma DedupTurn(h: Host, files: seq<Entry>, i: nat, keep: seq<Entry>, seen: map<string, Entry>, at: map<string, nat>)
    requires i < |files| && Deduped(h, files[..i], keep, seen, at)
    ensures var e, p := files[i], h.norm(files[i].path);
      && (AgreesWithSeen(h, seen, e) ==> Deduped(h, files[..i + 1], keep, seen, at))
      && (!IsRoot(h, e) && p in seen && !Agree(seen[p], e) ==> !Consistent(h, files))
      && (!IsRoot(h, e) && p !in seen ==> Deduped(h, files[..i + 1], keep + [e], seen[p := e], at[p := i]))
  {
    var e, p := files[i], h.norm(files[i].path);
    DedupStep(h, files, i);
    SeenStep(h, files[..i], seen, at, e);
    if !IsRoot(h, e) && p in seen && !Agree(seen[p], e) {
      assert !Compatible(h, files[at[p]], files[i]);
    }
  }

  /** Consistent are the lists without two versions of one path that differ in digest or size. */
  lemma {:induction false} ConsistentExactly(h: Host, files: seq<Entry>)
    ensures Consistent(h, files) <==> forall i, j :: 0 <= i < j < |files| ==> !Disagree(h, files[i], files[j])
  {
    forall i, j | 0 <= i < j < |files| ensures Compatible(h, files[i], files[j]) <==> !Disagree(h, files[i], files[j]) {
    }
  }

  /** Fails exactly when two versions of one path disagree; otherwise keeps the first entry of every path. */
  method Deduplicate(h: Host, files: seq<Entry>) returns (r: Option<seq<Entry>>)
    ensures r.Some? <==> Consistent(h, files)
    ensures r.Some? ==> r.value == FirstPerPath(h, files)
  {
    var keep: seq<Entry> := [];
    var seen: map<string, Entry> := map[];
    ghost var at: map<string, nat> := map[];
    for i := 0 to |files|
      invariant Deduped(h, files[..i], keep, seen, at)
    {
      var e := files[i];
      DedupTurn(h, files, i, keep, seen, at);
      if IsRoot(h, e) {
        continue;
      }
      var p := h.norm(e.path);
      if p in seen {
        if !Agree(seen[p], e) {
          return None;
        }
        continue;
      }
      seen := seen[p := e];
      at := at[p := i];
      keep := keep + [e];
    }
    assert files[..|files|] == files;
    SeenIsConsistent(h, files, seen, at);
    r := Some(keep);
  }

  /** The deleted paths that the manifest does not list are removed; every other file stays. */
  method PurgeDeleted(h: Host, files: seq<Entry>, deleted: set<string>, disk: map<string, Bytes>) returns (disk': map<string, Bytes>)
    ensures disk' == disk - Doomed(h, files, deleted)
  {
    var active := set e | e in files :: h.norm(e.path);
    var todo := deleted;
    disk' := disk;
    while todo != {}
      invariant todo <= deleted && disk' == disk - Doomed(h, files, deleted - todo)
      decreases todo
    {
      var d :| d in todo;
      assert deleted - (todo - {d}) == deleted - todo + {d};
      todo := todo - {d};
      var p := h.norm(d);
      if p != "" && p !in active {
        disk' := disk' - {p};
      }
    }
    assert deleted - todo == deleted;
  }

  function Doomed(h: Host, files: seq<Entry>, deleted: set<string>): set<string>
  {
    set d | d in deleted && h.norm(d) != "" && h.norm(d) !in AllPaths(h, files) :: h.norm(d)
  }

  // ---- When trust is justified ----

  /** Every checkpoint mark of this file stands for bytes that are on disk. */
  ghost predicate MarksSound(h: Host, marks: set<string>, disk: map<string, Bytes>, e: Entry, t: Bytes)
  {
    var p := h.norm(e.path);
    forall k :: 0 <= k < |e.chunks| && ChunkKey(h, p, e.chunks[k]) in marks ==> Holds(Bytes0(Find(disk, p)), e.chunks[k], t)
  }

  /** The delta entry of this file, if any, was made against what the disk really holds. */
  ghost predicate DeltaSound(h: Host, diffMap: map<string, FileDiff>, disk: map<string, Bytes>, e: Entry)
  {
    var p := h.norm(e.path);
    p in diffMap && p in disk ==> exists o: Entry :: Describes(h, o, disk[p]) && diffMap[p] == DiffOf(o, e)
  }

  predicate DistinctIds(e: Entry)
  {
    forall j, k :: 0 <= j < k < |e.chunks| ==> e.chunks[j].id != e.chunks[k].id
  }

  /** Sound marks, a sound delta and, if there is one, chunk ids that do not repeat within the file make a patch come out right. */
  lemma SoundPatchConverges(h: Host, diffMap: map<string, FileDiff>, disk: map<string, Bytes>, marks: set<string>,
                            e: Entry, contents: map<string, Bytes>)
    requires GoodFile(h, e, contents) && (h.norm(e.path) in diffMap ==> DistinctIds(e))
    requires MarksSound(h, marks, disk, e, contents[h.norm(e.path)]) && DeltaSound(h, diffMap, disk, e)
    ensures Verdict(h, diffMap, disk, marks, e, contents)
  {
    var p := h.norm(e.path);
    var t := contents[p];
    var x := Open(h, diffMap, disk, marks, p, e);
    forall k | 0 <= k < |e.chunks| && x.Trusts(e.chunks[k]) ensures Holds(x.file, e.chunks[k], t) {
      if ChunkKey(h, p, e.chunks[k]) in marks {
        assert Holds(Bytes0(Find(disk, p)), e.chunks[k], t);
      } else {
        var o: Entry :| Describes(h, o, disk[p]) && diffMap[p] == DiffOf(o, e);
        ClaimHolds(h, o, e, disk[p], t, k);
      }
    }
  }

  /** Without repeated ids every claimed chunk is an unchanged one. */
  lemma ClaimHolds(h: Host, o: Entry, e: Entry, was: Bytes, t: Bytes, k: nat)
    requires Describes(h, o, was) && Describes(h, e, t) && DistinctIds(e)
    requires k < |e.chunks| && e.chunks[k].id in ClaimedIds(DiffOf(o, e), |was|)
    ensures Holds(was, e.chunks[k], t)
  {
    var d :| d in Keep(o.chunks, e.chunks, true) && d.id == e.chunks[k].id;
    var j :| 0 <= j < |e.chunks| && e.chunks[j] == d;
    assert j == k;
    UnchangedChunkHolds(h, o, e, was, t, k);
  }

  // ---- The old manifest on disk ----

  /** The disk holds, for every regular file of the old manifest, the content its last entry describes. */
  ghost predicate Installed(h: Host, prev: Manifest, disk: map<string, Bytes>)
  {
    var files := OldFiles(h, prev.files);
    forall p :: p in files ==> p in disk && Describes(h, files[p], disk[p])
  }

  /** A delta made against manifests that are on disk was made against what the disk holds. */
  lemma {:induction false} InstalledDeltaSound(h: Host, m: Manifest, comparisons: set<Comparison>, diffMap: map<string, FileDiff>,
                                               disk: map<string, Bytes>, e: Entry)
    requires IsDelta(h, comparisons, diffMap) && DistinctPaths(h, m.files) && e in m.files && !e.IsDir()
    requires forall c :: c in comparisons ==>
               Installed(h, c.prev, disk) && DistinctPaths(h, c.files) && forall x :: x in c.files ==> x in m.files
    requires forall x :: x in m.files && !x.IsDir() ==> h.norm(h.norm(x.path)) == h.norm(x.path)
    ensures DeltaSound(h, diffMap, disk, e)
  {
    var p := h.norm(e.path);
    if p in diffMap && p in disk {
      var c :| c in comparisons && Recorded(h, c, p, diffMap[p]);
      var x := ChangedEntry(h, c, p, diffMap[p]);
      SamePathSameEntry(h, m.files, x, e);
      assert Describes(h, OldFiles(h, c.prev.files)[p], disk[p]);
    }
  }

  lemma SamePathSameEntry(h: Host, files: seq<Entry>, a: Entry, b: Entry)
    requires DistinctPaths(h, files) && a in files && b in files && h.norm(a.path) == h.norm(b.path)
    ensures a == b
  {
    var i :| 0 <= i < |files| && files[i] == a;
    var j :| 0 <= j < |files| && files[j] == b;
    assert i == j;
  }

  // ---- Byte totals ----

  function TotalBytes(files: seq<Entry>): nat
  {
    if files == [] then 0 else
      var e := files[|files| - 1];
      TotalBytes(files[..|files| - 1]) + if e.IsDir() then 0 else e.size
  }

  /** For tiled files the ledger of a run is the total size, chunk by chunk or file by file, dry or not. */
  lemma {:induction false} LedgerIsTotal(files: seq<Entry>, dryRun: bool)
    requires forall k :: 0 <= k < |files| && !files[k].IsDir() && files[k].chunks != [] ==>
               Tiles(files[k].chunks, files[k].size)
    ensures Ledger(files, dryRun) == TotalBytes(files)
  {
    if files != [] {
      var n := |files| - 1;
      var e := files[n];
      assert forall k :: 0 <= k < n ==> files[..n][k] == files[k];
      LedgerIsTotal(files[..n], dryRun);
      if !e.IsDir() && e.chunks != [] {
        TilesSum(e.chunks, e.size);
      }
    }
  }

  // ---- The whole run ----

  /** One of the comparisons finds the file changed. */
  ghost predicate HasDelta(h: Host, comparisons: set<Comparison>, e: Entry)
  {
    exists c, fd :: c in comparisons && Recorded(h, c, h.norm(e.path), fd)
  }

  /** Everything the update theorem needs of one target file. */
  ghost predicate PatchReady(h: Host, comparisons: set<Comparison>, marks: set<string>, disk: map<string, Bytes>, e: Entry,
                             contents: map<string, Bytes>)
  {
    && GoodFile(h, e, contents) && MarksSound(h, marks, disk, e, contents[h.norm(e.path)])
    && (HasDelta(h, comparisons, e) ==> DistinctIds(e))
  }

  /** Old manifests, if any, that are really on disk, and a target manifest with one entry per path. */
  ghost predicate CleanUpdate(h: Host, comparisons: set<Comparison>, m: Manifest, disk: map<string, Bytes>, marks: set<string>,
                              contents: map<string, Bytes>)
  {
    && (forall c :: c in comparisons ==> Installed(h, c.prev, disk))
    && DistinctPaths(h, m.files)
    && forall e :: e in m.files && !e.IsDir() ==> PatchReady(h, comparisons, marks, disk, e, contents)
  }

  ghost predicate AllTiled(files: seq<Entry>)
  {
    forall e :: e in files && !e.IsDir() && e.chunks != [] ==> Tiles(e.chunks, e.size)
  }

  /** Each kept file came out as described exactly when its verdict on the initial state says so. */
  ghost predicate ExactOutcome(h: Host, diffMap: map<string, FileDiff>, disk0: map<string, Bytes>, marks0: set<string>,
                               files: seq<Entry>, contents: map<string, Bytes>, disk: map<string, Bytes>)
  {
    forall e :: e in files && !e.IsDir() && GoodFile(h, e, contents) ==>
      var p := h.norm(e.path);
      p in disk && (disk[p] == contents[p] <==> Verdict(h, diffMap, disk0, marks0, e, contents))
  }

  ghost predicate AllRight(h: Host, files: seq<Entry>, contents: map<string, Bytes>, disk: map<string, Bytes>)
  {
    forall e :: e in files && !e.IsDir() ==>
      var p := h.norm(e.path); p in contents && p in disk && disk[p] == contents[p]
  }

  /** Purging what the manifest does not list changes no verdict. */
  lemma {:induction false} PurgedVerdict(h: Host, diffMap: map<string, FileDiff>, disk: map<string, Bytes>, marks: set<string>,
                      files: seq<Entry>, deleted: set<string>, e: Entry, contents: map<string, Bytes>)
    requires e in files && h.norm(e.path) in contents
    ensures Verdict(h, diffMap, disk - Doomed(h, files, deleted), marks, e, contents)
            <==> Verdict(h, diffMap, disk, marks, e, contents)
  {
    var p := h.norm(e.path);
    assert p !in Doomed(h, files, deleted);
    assert Open(h, diffMap, disk - Doomed(h, files, deleted), marks, p, e) == Open(h, diffMap, disk, marks, p, e);
  }

  lemma {:induction false} RunIsExact(h: Host, diffMap: map<string, FileDiff>, disk0: map<string, Bytes>, marks0: set<string>,
                   files: seq<Entry>, kept: seq<Entry>, deleted: set<string>, contents: map<string, Bytes>,
                   disk: map<string, Bytes>, marks: set<string>)
    requires WellFormed(h, kept, contents) && forall e :: e in kept ==> e in files
    requires RunInvariant(h, diffMap, disk0 - Doomed(h, files, deleted), marks0, kept, contents, |kept|, disk, marks)
    ensures ExactOutcome(h, diffMap, disk0, marks0, kept, contents, disk)
  {
    forall e | e in kept && !e.IsDir() && GoodFile(h, e, contents)
      ensures var p := h.norm(e.path);
        p in disk && (disk[p] == contents[p] <==> Verdict(h, diffMap, disk0, marks0, e, contents))
    {
      var k :| 0 <= k < |kept| && kept[k] == e;
      PurgedVerdict(h, diffMap, disk0, marks0, files, deleted, e, contents);
    }
  }

  lemma {:induction false} CleanUpdateConverges(h: Host, m: Manifest, previous: Option<Manifest>, installed: map<nat, Manifest>,
                             diffMap: map<string, FileDiff>, disk0: map<string, Bytes>, marks0: set<string>,
                             contents: map<string, Bytes>, disk: map<string, Bytes>)
    requires CleanUpdate(h, Comparisons(m, previous, installed), m, disk0, marks0, contents)
    requires IsDelta(h, Comparisons(m, previous, installed), diffMap)
    requires ExactOutcome(h, diffMap, disk0, marks0, FirstPerPath(h, m.files), contents, disk)
    ensures AllRight(h, m.files, contents, disk)
  {
    var comparisons := Comparisons(m, previous, installed);
    CleanKept(h, comparisons, m, disk0, marks0, contents);
    forall c | c in comparisons ensures DistinctPaths(h, c.files) && forall x :: x in c.files ==> x in m.files {
      ComparedPart(h, m, previous, installed, c);
    }
    forall e | e in m.files && !e.IsDir()
      ensures var p := h.norm(e.path); p in contents && p in disk && disk[p] == contents[p]
    {
      assert PatchReady(h, comparisons, marks0, disk0, e, contents);
      assert forall x :: x in m.files && !x.IsDir() ==> PatchReady(h, comparisons, marks0, disk0, x, contents);
      InstalledDeltaSound(h, m, comparisons, diffMap, disk0, e);
      SoundPatchConverges(h, diffMap, disk0, marks0, e, contents);
    }
  }

  /** One of the old manifests compared lists a regular file at p. */
  ghost predicate WasCompared(h: Host, comparisons: set<Comparison>, p: string)
  {
    exists c :: c in comparisons && p in OldFiles(h, c.prev.files)
  }

  /** Of the files the target does not list, exactly those that a compared manifest lists are gone; the others stay as
      they were. */
  ghost predicate PurgedExactly(h: Host, comparisons: set<Comparison>, files: seq<Entry>, disk: map<string, Bytes>, disk': map<string, Bytes>)
  {
    forall p :: p !in AllPaths(h, files) ==>
      (p in disk' <==> p in disk && (p == "" || !WasCompared(h, comparisons, p))) && (p in disk' ==> disk'[p] == disk[p])
  }

  function AllPaths(h: Host, files: seq<Entry>): set<string>
  {
    set e | e in files :: h.norm(e.path)
  }

  lemma {:induction false} OldFileAt(h: Host, files: seq<Entry>, p: string)
    requires p in OldFiles(h, files)
    ensures h.norm(OldFiles(h, files)[p].path) == p
  {
    var e := files[|files| - 1];
    if e.IsDir() || h.norm(e.path) != p {
      OldFileAt(h, files[..|files| - 1], p);
    }
  }

  lemma DoomedExactly(h: Host, m: Manifest, previous: Option<Manifest>, installed: map<nat, Manifest>, p: string)
    requires p !in AllPaths(h, m.files)
    ensures var comparisons := Comparisons(m, previous, installed);
      p in Doomed(h, m.files, AllDeleted(h, comparisons)) <==> p != "" && WasCompared(h, comparisons, p)
  {
    var comparisons := Comparisons(m, previous, installed);
    if p != "" && WasCompared(h, comparisons, p) {
      var c :| c in comparisons && p in OldFiles(h, c.prev.files);
      ComparedFiles(m, previous, installed, c);
      OldFileAt(h, c.prev.files, p);
      assert p !in Paths(h, c.files);
      assert OldFiles(h, c.prev.files)[p].path in Dropped(OldFiles(h, c.prev.files), Paths(h, c.files));
      assert OldFiles(h, c.prev.files)[p].path in AllDeleted(h, comparisons);
    }
    if p in Doomed(h, m.files, AllDeleted(h, comparisons)) {
      var d :| d in AllDeleted(h, comparisons) && h.norm(d) == p;
      var c :| c in comparisons && d in Dropped(OldFiles(h, c.prev.files), Paths(h, c.files));
      DroppedWasOld(h, c, d);
    }
  }

  lemma DroppedWasOld(h: Host, c: Comparison, d: string)
    requires d in Dropped(OldFiles(h, c.prev.files), Paths(h, c.files))
    ensures h.norm(d) in OldFiles(h, c.prev.files)
  {
    var q :| q in OldFiles(h, c.prev.files) && OldFiles(h, c.prev.files)[q].path == d;
    OldFileAt(h, c.prev.files, q);
  }

  lemma OldOnlyPurged(h: Host, m: Manifest, previous: Option<Manifest>, installed: map<nat, Manifest>,
                      disk: map<string, Bytes>, disk': map<string, Bytes>)
    requires OnlyListedMoved(h, m.files, AllDeleted(h, Comparisons(m, previous, installed)), disk, disk')
    ensures PurgedExactly(h, Comparisons(m, previous, installed), m.files, disk, disk')
  {
    forall p | p !in AllPaths(h, m.files)
      ensures p !in Paths(h, m.files)
      ensures p in Doomed(h, m.files, AllDeleted(h, Comparisons(m, previous, installed)))
              <==> p != "" && WasCompared(h, Comparisons(m, previous, installed), p)
    {
      DoomedExactly(h, m, previous, installed, p);
    }
  }

  /** Some depot the target still has files of was installed with a regular file at p. */
  ghost predicate LivingDepotHad(h: Host, m: Manifest, installed: map<nat, Manifest>, p: string)
  {
    exists id :: id in DepotIds(m) && id in installed && p in OldFiles(h, installed[id].files)
  }

  /** With installed manifests an old-only file is removed exactly if a depot the target still has files of had it. */
  lemma InstalledPurgedExactly(h: Host, m: Manifest, installed: map<nat, Manifest>, disk: map<string, Bytes>, disk': map<string, Bytes>, p: string)
    requires PurgedExactly(h, Comparisons(m, None, installed), m.files, disk, disk')
    requires p in disk && p != "" && p !in AllPaths(h, m.files)
    ensures p !in disk' <==> LivingDepotHad(h, m, installed, p)
    ensures p in disk' ==> disk'[p] == disk[p]
  {
    var comparisons := Comparisons(m, None, installed);
    if LivingDepotHad(h, m, installed, p) {
      var id :| id in DepotIds(m) && id in installed && p in OldFiles(h, installed[id].files);
      assert Comparison(installed[id], FilesOfDepot(m, id, m.files)) in comparisons;
    }
  }

  /** So the old-only files of an installed depot that has no file in the target any more stay, all but those a living
      depot had too. */
  lemma DroppedDepotStays(h: Host, m: Manifest, installed: map<nat, Manifest>, disk: map<string, Bytes>, disk': map<string, Bytes>, id: nat)
    requires PurgedExactly(h, Comparisons(m, None, installed), m.files, disk, disk')
    requires id in installed && id !in DepotIds(m) && Installed(h, installed[id], disk)
    ensures forall p :: p in OldFiles(h, installed[id].files) && p != "" && p !in AllPaths(h, m.files) ==>
              (p in disk' <==> !LivingDepotHad(h, m, installed, p)) && (p in disk' ==> disk'[p] == disk[p])
  {
    forall p | p in OldFiles(h, installed[id].files) && p != "" && p !in AllPaths(h, m.files)
      ensures (p in disk' <==> !LivingDepotHad(h, m, installed, p)) && (p in disk' ==> disk'[p] == disk[p])
    {
      InstalledPurgedExactly(h, m, installed, disk, disk', p);
    }
  }

  lemma ComparedFiles(m: Manifest, previous: Option<Manifest>, installed: map<nat, Manifest>, c: Comparison)
    requires c in Comparisons(m, previous, installed)
    ensures forall e :: e in c.files ==> e in m.files
  {
    if previous.None? {
      var id :| id in DepotIds(m) && id in installed && c == Comparison(installed[id], FilesOfDepot(m, id, m.files));
      FilesOfDepotAre(m, id, m.files);
    }
  }

  /** Success drops the checkpoint file, failure saves what was completed; a dry run touches neither. */
  method FinishCheckpoint(cp: Checkpoint, ok: bool, dryRun: bool)
    requires cp.Valid()
    modifies cp
    ensures ok && !dryRun ==> cp.saved == None
    ensures !(ok && !dryRun) ==> cp.Valid()
    ensures dryRun ==> cp.saved == old(cp.saved)
  {
    if !dryRun {
      if ok {
        cp.Remove();
      } else {
        var writeOk := *;
        cp.Flush(writeOk);
      }
    }
  }

  ghost predicate OnlyListedMoved(h: Host, files: seq<Entry>, deleted: set<string>, disk: map<string, Bytes>, disk': map<string, Bytes>)
  {
    forall q :: q !in Paths(h, files) ==>
      (q in disk' <==> q in disk && q !in Doomed(h, files, deleted)) && (q in disk' ==> disk'[q] == disk[q])
  }

  lemma {:induction false} OnlyListed(h: Host, files: seq<Entry>, kept: seq<Entry>, deleted: set<string>, disk: map<string, Bytes>,
                   purged: map<string, Bytes>, disk': map<string, Bytes>)
    requires kept == FirstPerPath(h, files) && purged == disk - Doomed(h, files, deleted)
    requires ChangedWithin(Paths(h, kept), purged, disk')
    ensures OnlyListedMoved(h, files, deleted, disk, disk')
  {
    KeptPaths(h, files);
  }

  /** The purge takes no file the manifest lists. */
  lemma PurgedIntact(h: Host, files: seq<Entry>, kept: seq<Entry>, deleted: set<string>, disk: map<string, Bytes>, contents: map<string, Bytes>)
    requires AllIntact(h, disk, kept, contents) && forall e :: e in kept ==> e in files
    ensures AllIntact(h, disk - Doomed(h, files, deleted), kept, contents)
  {
    forall k | 0 <= k < |kept| && !kept[k].IsDir() ensures h.norm(kept[k].path) !in Doomed(h, files, deleted) {
      assert kept[k] in files;
    }
  }

  /** Everything after the delta is known: purge, deduplicate, stream. */
  method Transfer(h: Host, hosts: seq<string>, net: nat -> nat -> Reply, m: Manifest, delta: map<string, FileDiff>,
                  deleted: set<string>, dryRun: bool, disk: map<string, Bytes>, cp: Checkpoint, ghost contents: map<string, Bytes>)
    returns (ok: bool, disk': map<string, Bytes>, bytes: int, updated: nat, network: nat)
    requires cp.Valid()
    modifies cp
    ensures cp.Valid()
    ensures !Consistent(h, m.files) ==> !ok
    ensures dryRun ==> disk' == disk && cp.saved == old(cp.saved)
    ensures ok ==> bytes == Ledger(FirstPerPath(h, m.files), dryRun)
    ensures !dryRun ==> OnlyListedMoved(h, m.files, deleted, disk, disk')
    ensures ok && !dryRun && WellFormed(h, FirstPerPath(h, m.files), contents) ==>
              ExactOutcome(h, delta, disk, old(cp.completed), FirstPerPath(h, m.files), contents, disk')
    ensures ok && AllIntact(h, disk, FirstPerPath(h, m.files), contents) ==>
              updated == 0 && network == 0 && AllIntact(h, disk', FirstPerPath(h, m.files), contents)
  {
    disk', bytes, updated, network := disk, 0, 0, 0;
    if !dryRun {
      disk' := PurgeDeleted(h, m.files, deleted, disk);
    }
    var files := Deduplicate(h, m.files);
    if files.None? {
      return false, disk', bytes, updated, network;
    }
    FirstPerPathFacts(h, m.files);
    var d := new DepotDownload(h, hosts, net, cp, delta, dryRun, disk');
    if AllIntact(h, disk, files.value, contents) {
      PurgedIntact(h, m.files, files.value, deleted, disk, contents);
    }
    ok := d.StreamFiles(files.value, contents);
    if !dryRun {
      OnlyListed(h, m.files, files.value, deleted, disk, disk', d.disk);
    }
    disk', bytes, updated, network := d.disk, d.downloaded, d.updated, d.network;
    if ok && !dryRun && WellFormed(h, files.value, contents) {
      RunIsExact(h, delta, disk, old(cp.completed), m.files, files.value, deleted, contents, disk', cp.completed);
    }
  }

  /** streamDepotFiles. `contents` gives the bytes aimed at; nothing is required of it. */
  method StreamDepotFiles(h: Host, hosts: seq<string>, net: nat -> nat -> Reply, m: Manifest,
                          previous: Option<Manifest>, installed: map<nat, Manifest>, dryRun: bool,
                          disk: map<string, Bytes>, cp: Checkpoint, ghost contents: map<string, Bytes>)
    returns (ok: bool, disk': map<string, Bytes>, bytes: int, updated: nat, network: nat,
             ghost diffMap: map<string, FileDiff>, ghost deleted: set<string>)
    requires cp.Valid()
    modifies cp
    ensures IsDelta(h, Comparisons(m, previous, installed), diffMap)
    ensures deleted == AllDeleted(h, Comparisons(m, previous, installed))
    ensures !Consistent(h, m.files) ==> !ok
    ensures dryRun ==> disk' == disk && cp.saved == old(cp.saved)
    ensures ok && AllTiled(m.files) ==> bytes == TotalBytes(FirstPerPath(h, m.files))
    ensures ok && !dryRun ==> cp.saved == None
    ensures !dryRun ==> OnlyListedMoved(h, m.files, deleted, disk, disk')
    ensures !dryRun ==> PurgedExactly(h, Comparisons(m, previous, installed), m.files, disk, disk')
    ensures ok && !dryRun && WellFormed(h, FirstPerPath(h, m.files), contents) ==>
              ExactOutcome(h, diffMap, disk, old(cp.completed), FirstPerPath(h, m.files), contents, disk')
    ensures ok && !dryRun && CleanUpdate(h, Comparisons(m, previous, installed), m, disk, old(cp.completed), contents) ==>
              AllRight(h, m.files, contents, disk')
    ensures ok && AllIntact(h, disk, FirstPerPath(h, m.files), contents) ==>
              updated == 0 && network == 0 && AllIntact(h, disk', FirstPerPath(h, m.files), contents)
  {
    var delta, dropped := ComputeDelta(h, m, previous, installed);
    diffMap, deleted := delta, dropped;
    ok, disk', bytes, updated, network := Transfer(h, hosts, net, m, delta, dropped, dryRun, disk, cp, contents);
    if !dryRun {
      OldOnlyPurged(h, m, previous, installed, disk, disk');
    }
    if ok && !dryRun && CleanUpdate(h, Comparisons(m, previous, installed), m, disk, old(cp.completed), contents) {
      CleanKept(h, Comparisons(m, previous, installed), m, disk, old(cp.completed), contents);
      CleanUpdateConverges(h, m, previous, installed, delta, disk, old(cp.completed), contents, disk');
    }
    if ok && AllTiled(m.files) {
      TiledLedger(h, m.files, dryRun);
    }
    FinishCheckpoint(cp, ok, dryRun);
  }

  lemma {:induction false} TiledLedger(h: Host, files: seq<Entry>, dryRun: bool)
    requires AllTiled(files)
    ensures Ledger(FirstPerPath(h, files), dryRun) == TotalBytes(FirstPerPath(h, files))
  {
    FirstPerPathFacts(h, files);
    LedgerIsTotal(FirstPerPath(h, files), dryRun);
  }

  /** Deduplication loses no path of a regular file. */
  lemma {:induction false} KeptPaths(h: Host, files: seq<Entry>)
    ensures Paths(h, FirstPerPath(h, files)) <= Paths(h, files)
  {
    FirstPerPathFacts(h, files);
  }

  /** With one entry per path every regular file is kept. */
  lemma {:induction false} UniquePathsKept(h: Host, files: seq<Entry>)
    requires DistinctPaths(h, files)
    ensures forall e :: e in files && !e.IsDir() ==> e in FirstPerPath(h, files)
  {
    if files != [] {
      var n := |files| - 1;
      UniquePathsKept(h, files[..n]);
      assert files == files[..n] + [files[n]];
      forall e | e in files[..n] ensures h.norm(e.path) != h.norm(files[n].path) {
        var k :| 0 <= k < n && files[k] == e;
      }
    }
  }

  lemma {:induction false} CleanKept(h: Host, comparisons: set<Comparison>, m: Manifest, disk: map<string, Bytes>,
                                     marks: set<string>, contents: map<string, Bytes>)
    requires CleanUpdate(h, comparisons, m, disk, marks, contents)
    ensures WellFormed(h, FirstPerPath(h, m.files), contents)
    ensures forall e :: e in m.files && !e.IsDir() ==> e in FirstPerPath(h, m.files)
  {
    var kept := FirstPerPath(h, m.files);
    FirstPerPathFacts(h, m.files);
    UniquePathsKept(h, m.files);
    forall k | 0 <= k < |kept| && !kept[k].IsDir() ensures GoodFile(h, kept[k], contents) {
      assert kept[k] in m.files;
      assert PatchReady(h, comparisons, marks, disk, kept[k], contents);
    }
  }

  // ---- Where the delta goes wrong ----

  /** Chunk k has the id of a chunk that is unchanged since `o`; the delta is keyed by the id alone. */
  predicate Claimed(o: Entry, e: Entry, k: nat)
    requires k < |e.chunks|
  {
    exists j :: 0 <= j < |e.chunks| && IsUnchanged(o.chunks, e.chunks[j]) && e.chunks[j].id == e.chunks[k].id
  }

  lemma ClaimedExactly(h: Host, o: Entry, e: Entry, was: Bytes, t: Bytes, k: nat)
    requires Describes(h, o, was) && Describes(h, e, t) && k < |e.chunks|
    ensures e.chunks[k].id in ClaimedIds(DiffOf(o, e), |was|) <==> Claimed(o, e, k)
  {
    if Claimed(o, e, k) {
      var j :| 0 <= j < |e.chunks| && IsUnchanged(o.chunks, e.chunks[j]) && e.chunks[j].id == e.chunks[k].id;
      UnchangedChunkHolds(h, o, e, was, t, j);
      assert e.chunks[j] in DiffOf(o, e).kept;
    }
  }

  /** With sound marks and a delta made against the real file, the outcome is right exactly when every place that repeats
      an unchanged chunk's id without being unchanged already carries its bytes, or a digest was there and some chunk was
      fetched. */
  lemma {:induction false} DeltaVerdict(h: Host, diffMap: map<string, FileDiff>, disk: map<string, Bytes>, marks: set<string>,
                     o: Entry, e: Entry, contents: map<string, Bytes>)
    requires GoodFile(h, e, contents) && MarksSound(h, marks, disk, e, contents[h.norm(e.path)])
    requires h.norm(e.path) in diffMap && h.norm(e.path) in disk && disk[h.norm(e.path)] != []
    requires Describes(h, o, disk[h.norm(e.path)]) && diffMap[h.norm(e.path)] == DiffOf(o, e)
    ensures var p := h.norm(e.path);
      Verdict(h, diffMap, disk, marks, e, contents) <==>
        || (e.sha1 != "" && Scan(Open(h, diffMap, disk, marks, p, e), e.chunks).pending != [])
        || forall k :: 0 <= k < |e.chunks| && Claimed(o, e, k) && !IsUnchanged(o.chunks, e.chunks[k]) ==>
             Holds(disk[p], e.chunks[k], contents[p])
  {
    var p := h.norm(e.path);
    var x := Open(h, diffMap, disk, marks, p, e);
    forall k | 0 <= k < |e.chunks|
      ensures e.chunks[k].id in x.claims <==> Claimed(o, e, k)
      ensures x.Key(e.chunks[k]) in marks ==> Holds(x.file, e.chunks[k], contents[p])
      ensures IsUnchanged(o.chunks, e.chunks[k]) ==> Holds(x.file, e.chunks[k], contents[p])
    {
      ClaimedExactly(h, o, e, disk[p], contents[p], k);
      assert x.Key(e.chunks[k]) == ChunkKey(h, p, e.chunks[k]);
      if IsUnchanged(o.chunks, e.chunks[k]) {
        UnchangedChunkHolds(h, o, e, disk[p], contents[p], k);
      }
    }
  }

  /** The old file has no empty chunks, and one at the place of every claimed chunk. */
  ghost predicate SamePlaces(o: Entry, e: Entry)
  {
    && (forall i :: 0 <= i < |o.chunks| ==> o.chunks[i].size > 0)
    && forall k :: 0 <= k < |e.chunks| && Claimed(o, e, k) ==> HasPlace(o, e.chunks[k])
  }

  ghost predicate HasPlace(o: Entry, c: Chunk)
  {
    exists i :: 0 <= i < |o.chunks| && o.chunks[i].offset == c.offset && o.chunks[i].size == c.size
  }

  /** At a place both files have, the bytes are the same exactly if the ids are. */
  lemma SamePlaceHolds(h: Host, o: Entry, e: Entry, was: Bytes, t: Bytes, k: nat)
    requires Describes(h, o, was) && Describes(h, e, t) && k < |e.chunks|
    requires (forall i :: 0 <= i < |o.chunks| ==> o.chunks[i].size > 0) && HasPlace(o, e.chunks[k])
    ensures Holds(was, e.chunks[k], t) <==> IsUnchanged(o.chunks, e.chunks[k])
  {
    var c := e.chunks[k];
    var i :| 0 <= i < |o.chunks| && o.chunks[i].offset == c.offset && o.chunks[i].size == c.size;
    LastAtPlace(o.chunks, i);
    if IsUnchanged(o.chunks, c) {
      UnchangedChunkHolds(h, o, e, was, t, k);
    }
    if Holds(was, c, t) {
      SameBytesSameId(h, o, e, was, t, i, k);
    }
  }

  lemma {:induction false} SameBytesSameId(h: Host, o: Entry, e: Entry, was: Bytes, t: Bytes, i: nat, k: nat)
    requires Describes(h, o, was) && Describes(h, e, t) && i < |o.chunks| && k < |e.chunks| && e.chunks[k].size > 0
    requires o.chunks[i].offset == e.chunks[k].offset && o.chunks[i].size == e.chunks[k].size && Holds(was, e.chunks[k], t)
    ensures EqualFold(o.chunks[i].id, e.chunks[k].id)
  {
    var c := e.chunks[k];
    SameSlices(was, t, c);
    assert Slice(was, o.chunks[i]) == Slice(was, c);
    assert EqualFold(h.sha1(Slice(was, c)), o.chunks[i].id) && EqualFold(h.sha1(Slice(t, c)), c.id);
  }

  /** Of disjoint chunks that are not empty, one starts at an offset. */
  lemma {:induction false} LastAtPlace(chunks: seq<Chunk>, i: nat)
    requires i < |chunks| && forall k :: 0 <= k < |chunks| ==> chunks[k].size > 0
    requires forall j, k :: 0 <= j < k < |chunks| ==> Disjoint(chunks[j], chunks[k])
    ensures IdAt(chunks, chunks[i].offset) == Some(chunks[i].id)
  {
    var n := |chunks| - 1;
    if i < n {
      assert Disjoint(chunks[i], chunks[n]);
      LastAtPlace(chunks[..n], i);
    }
  }

  /** Between files cut at the same places the two manifests decide: right exactly when no chunk repeats the id of an
      unchanged one without being unchanged itself, or a digest was there and some chunk was fetched. */
  lemma {:induction false} DeltaVerdictOfManifests(h: Host, diffMap: map<string, FileDiff>, disk: map<string, Bytes>, marks: set<string>,
                                o: Entry, e: Entry, contents: map<string, Bytes>)
    requires GoodFile(h, e, contents) && MarksSound(h, marks, disk, e, contents[h.norm(e.path)])
    requires h.norm(e.path) in diffMap && h.norm(e.path) in disk && disk[h.norm(e.path)] != []
    requires Describes(h, o, disk[h.norm(e.path)]) && diffMap[h.norm(e.path)] == DiffOf(o, e) && SamePlaces(o, e)
    ensures Verdict(h, diffMap, disk, marks, e, contents) <==>
              || (e.sha1 != "" && Scan(Open(h, diffMap, disk, marks, h.norm(e.path), e), e.chunks).pending != [])
              || forall k :: 0 <= k < |e.chunks| && Claimed(o, e, k) ==> IsUnchanged(o.chunks, e.chunks[k])
  {
    var p := h.norm(e.path);
    DeltaVerdict(h, diffMap, disk, marks, o, e, contents);
    forall k | 0 <= k < |e.chunks| && Claimed(o, e, k)
      ensures Holds(disk[p], e.chunks[k], contents[p]) <==> IsUnchanged(o.chunks, e.chunks[k])
    {
      SamePlaceHolds(h, o, e, disk[p], contents[p], k);
    }
  }

  function Repeat(c: char, n: nat): (s: string)
    ensures |s| == n
  {
    seq(n, i => c)
  }

  const ID_A: string := Repeat('a', 40)
  const ID_B: string := Repeat('b', 40)

  /** Old file 1, 2 and new file 1, 1, in chunks of one byte: both chunks of the new file have the id the old file
      had at offset 0. */
  ghost predicate RepeatsId(h: Host, was: Entry, e: Entry)
  {
    && was.path == e.path && h.norm(e.path) == e.path && !was.IsDir() && !e.IsDir()
    && was.size == 2 && e.size == 2 && e.sha1 != "" && !SameFile(was, e)
    && |e.chunks| == 2 && e.chunks[0] == Chunk(e.chunks[0].id, 0, 1) && e.chunks[1] == Chunk(e.chunks[0].id, 1, 1)
    && IsUnchanged(was.chunks, e.chunks[0])
    && Describes(h, was, [1, 2]) && Describes(h, e, [1, 1])
  }

  lemma {:induction false} OnlyDiff(h: Host, was: Entry, e: Entry)
    requires RepeatsId(h, was, e)
    ensures Modified(h, OldFiles(h, [was]), [e]) == map[e.path := DiffOf(was, e)]
  {
    assert [was][..0] == [] && [e][..0] == [];
    assert OldFiles(h, [was]) == map[e.path := was];
    assert Modified(h, map[e.path := was], []) == map[];
  }

  /** Nothing is fetched, no digest is checked, and 1, 2 stays where 1, 1 should be. */
  lemma {:induction false} RepeatedIdBreaksDelta(h: Host, was: Entry, e: Entry)
    requires RepeatsId(h, was, e)
    ensures Modified(h, OldFiles(h, [was]), [e]) == map[e.path := DiffOf(was, e)]
    ensures !Verdict(h, map[e.path := DiffOf(was, e)], map[e.path := [1, 2]], {}, e, map[e.path := [1, 1]])
  {
    OnlyDiff(h, was, e);
    var x := Open(h, map[e.path := DiffOf(was, e)], map[e.path := [1, 2]], {}, e.path, e);
    assert e.chunks[0] in DiffOf(was, e).kept;
    assert e.chunks[0].id in x.claims;
    TrustedAreSkipped(x, e.chunks);
    assert x.Trusts(e.chunks[1]) && At(x.file, 1) != At([1, 1], 1);
  }

  function DemoDigest(d: Bytes): string
  {
    if d == [1] then ID_A else if d == [2] then ID_B
    else if d == [1, 1] then "new" else if d == [1, 2] then "old" else ""
  }

  lemma DemoDigests(h: Host)
    requires h.sha1 == DemoDigest
    ensures Identifies(h, ID_A, [1]) && Identifies(h, ID_B, [2]) && Identifies(h, "new", [1, 1]) && Identifies(h, "old", [1, 2])
  {
    assert ToLower(ID_A)[0] == 'a' && ToLower(ID_B)[0] == 'b' && ToLower("new")[0] == 'n' && ToLower("old")[0] == 'o';
  }

  lemma TwoChunksTile(a: string, b: string)
    ensures Tiles([Chunk(a, 0, 1), Chunk(b, 1, 1)], 2)
  {
    var c := [Chunk(a, 0, 1), Chunk(b, 1, 1)];
    assert c[0].offset <= 0 < c[0].End() && c[1].offset <= 1 < c[1].End();
    assert Covered(c, 0) && Covered(c, 1);
  }

  lemma {:induction false} TwoChunksDescribed(h: Host, e: Entry, x: Byte, y: Byte)
    requires |e.chunks| == 2 && e.chunks == [Chunk(e.chunks[0].id, 0, 1), Chunk(e.chunks[1].id, 1, 1)] && e.size == 2
    requires |e.chunks[0].id| == 40 && |e.chunks[1].id| == 40
    requires Identifies(h, e.chunks[0].id, [x]) && Identifies(h, e.chunks[1].id, [y]) && Identifies(h, e.sha1, [x, y])
    ensures Describes(h, e, [x, y])
  {
    TwoChunksTile(e.chunks[0].id, e.chunks[1].id);
    assert Slice([x, y], e.chunks[0]) == [x] && Slice([x, y], e.chunks[1]) == [y];
  }

  lemma {:induction false} FirstUnchanged(a: string, b: string)
    ensures IsUnchanged([Chunk(a, 0, 1), Chunk(b, 1, 1)], Chunk(a, 0, 1))
  {
    var prev := [Chunk(a, 0, 1), Chunk(b, 1, 1)];
    assert prev[..1] == [Chunk(a, 0, 1)];
    assert IdAt(prev[..1], 0) == Some(a);
  }

  lemma DemoEntries(a: string, b: string) returns (was: Entry, e: Entry)
    ensures was == Entry("f", 2, 0, "old", 1, [Chunk(a, 0, 1), Chunk(b, 1, 1)])
    ensures e == Entry("f", 2, 0, "new", 1, [Chunk(a, 0, 1), Chunk(a, 1, 1)])
    ensures !was.IsDir() && !e.IsDir() && !SameFile(was, e)
  {
    was := Entry("f", 2, 0, "old", 1, [Chunk(a, 0, 1), Chunk(b, 1, 1)]);
    e := Entry("f", 2, 0, "new", 1, [Chunk(a, 0, 1), Chunk(a, 1, 1)]);
    PlainPath(was);
    PlainPath(e);
    DifferentDigests();
  }

  lemma DifferentDigests()
    ensures !EqualFold("old", "new")
  {
    assert ToLower("new")[0] == 'n' && ToLower("old")[0] == 'o';
  }

  /** Such files exist. */
  lemma RepeatedIdExists() returns (h: Host, was: Entry, e: Entry)
    ensures RepeatsId(h, was, e)
  {
    h := Host(p => p, DemoDigest);
    was, e := DemoEntries(ID_A, ID_B);
    DemoDigests(h);
    TwoChunksDescribed(h, was, 1, 2);
    TwoChunksDescribed(h, e, 1, 1);
    FirstUnchanged(ID_A, ID_B);
  }
}
