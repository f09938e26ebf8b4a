/** ReconcileDepots: eliminate conflicting depots one by one, then merge the survivors' files. */
module Reconcile {
  import opened Text
  import opened Depot
  import opened Update

  /** The candidates in ascending order, which pairs conflict, and how well each depot fits. */
  datatype Field = Field(ids: seq<nat>, conflict: (nat, nat) -> bool, score: nat -> int)

  function Ids(g: Field): set<nat>
  {
    set d | d in g.ids
  }

  predicate Ascending(ids: seq<nat>)
  {
    forall i, j :: 0 <= i < j < |ids| ==> ids[i] < ids[j]
  }

  ghost predicate Symmetric(g: Field)
  {
    forall a, b :: g.conflict(a, b) == g.conflict(b, a)
  }

  // ---- Elimination, as a function of the active set ----

  /** The conflict of ids[i] with ids[j], if there is one. */
  function PairAt(g: Field, active: set<nat>, i: nat, j: nat): seq<(nat, nat)>
    requires i < |g.ids| && j < |g.ids|
  {
    if g.ids[j] in active && g.conflict(g.ids[i], g.ids[j]) then [(g.ids[i], g.ids[j])] else []
  }

  /** Conflicts of ids[i] with active depots listed from position j on. */
  function PairsWith(g: Field, active: set<nat>, i: nat, j: nat): (r: seq<(nat, nat)>)
    requires i < |g.ids| && j <= |g.ids|
    decreases |g.ids| - j
  {
    if j == |g.ids| then []
    else
      PairAt(g, active, i, j) + PairsWith(g, active, i, j + 1)
  }

  /** The conflicting pairs of active depots whose first member is among the first n, in the order the source finds them. */
  function Pairs(g: Field, active: set<nat>, n: nat): seq<(nat, nat)>
    requires n <= |g.ids|
  {
    if n == 0 then []
    else Pairs(g, active, n - 1) + if g.ids[n - 1] in active then PairsWith(g, active, n - 1, n) else []
  }

  /** Active depots that conflict with d, among the first n. */
  function Conflicts(g: Field, active: set<nat>, d: nat, n: nat): nat
    requires n <= |g.ids|
  {
    if n == 0 then 0 else
      var o := g.ids[n - 1];
      Conflicts(g, active, d, n - 1) + if o != d && o in active && g.conflict(d, o) then 1 else 0
  }

  /** The winner of a pair: higher score, then fewer conflicts, then lower id. */
  function Winner(g: Field, active: set<nat>, a: nat, b: nat): nat
  {
    var ca, cb := Conflicts(g, active, a, |g.ids|), Conflicts(g, active, b, |g.ids|);
    if g.score(a) != g.score(b) then (if g.score(a) > g.score(b) then a else b)
    else if ca != cb then (if ca < cb then a else b)
    else if a < b then a else b
  }

  function Loser(g: Field, active: set<nat>, a: nat, b: nat): nat
  {
    if Winner(g, active, a, b) == a then b else a
  }

  lemma {:induction false} PairsWithFound(g: Field, active: set<nat>, i: nat, j: nat, p: (nat, nat)) returns (k: nat)
    requires i < |g.ids| && j <= |g.ids| && p in PairsWith(g, active, i, j)
    ensures j <= k < |g.ids| && p == (g.ids[i], g.ids[k]) && g.ids[k] in active && g.conflict(p.0, p.1)
    decreases |g.ids| - j
  {
    if p in PairAt(g, active, i, j) {
      k := j;
    } else {
      k := PairsWithFound(g, active, i, j + 1, p);
    }
  }

  lemma {:induction false} PairsWithFinds(g: Field, active: set<nat>, i: nat, j: nat, k: nat)
    requires i < |g.ids| && j <= k < |g.ids| && g.ids[k] in active && g.conflict(g.ids[i], g.ids[k])
    ensures (g.ids[i], g.ids[k]) in PairsWith(g, active, i, j)
    decreases |g.ids| - j
  {
    if j < k {
      PairsWithFinds(g, active, i, j + 1, k);
    }
  }

  /** A pair is a conflict of two active depots, the lower one first. */
  predicate IsPair(g: Field, active: set<nat>, p: (nat, nat))
  {
    p.0 in active && p.1 in active && p.0 < p.1 && g.conflict(p.0, p.1)
  }

  lemma {:induction false} RowPair(g: Field, active: set<nat>, i: nat, p: (nat, nat))
    requires i < |g.ids| && g.ids[i] in active && Ascending(g.ids) && p in PairsWith(g, active, i, i + 1)
    ensures IsPair(g, active, p)
  {
    var k := PairsWithFound(g, active, i, i + 1, p);
    assert g.ids[i] < g.ids[k];
  }

  predicate Listed(g: Field, active: set<nat>, n: nat, p: (nat, nat))
    requires n <= |g.ids|
  {
    p in Pairs(g, active, n)
  }

  predicate InRow(g: Field, active: set<nat>, i: nat, p: (nat, nat))
    requires i < |g.ids|
  {
    g.ids[i] in active && p in PairsWith(g, active, i, i + 1)
  }

  lemma {:induction false} RowAdded(g: Field, active: set<nat>, i: nat, p: (nat, nat))
    requires i < |g.ids|
    ensures Listed(g, active, i + 1, p) <==> Listed(g, active, i, p) || InRow(g, active, i, p)
  {
  }

  lemma {:induction false} NothingListed(g: Field, active: set<nat>, p: (nat, nat))
    ensures !Listed(g, active, 0, p)
  {
  }

  lemma {:induction false} ListedExactly(g: Field, active: set<nat>, n: nat, p: (nat, nat))
    requires n <= |g.ids|
    ensures Listed(g, active, n, p) <==> exists i :: 0 <= i < n && InRow(g, active, i, p)
  {
    var upTo := (i: nat) => i <= |g.ids| && Listed(g, active, i, p);
    var row := (i: nat) => i < |g.ids| && InRow(g, active, i, p);
    NothingListed(g, active, p);
    forall i: nat | i < n ensures upTo(i + 1) <==> upTo(i) || row(i) {
      RowAdded(g, active, i, p);
    }
    Accumulates(upTo, row, n);
    assert forall i :: 0 <= i < n ==> (row(i) <==> InRow(g, active, i, p));
  }

  /** What starts empty and takes in row after row. */
  lemma {:induction false} Accumulates(upTo: nat -> bool, row: nat -> bool, n: nat)
    requires !upTo(0) && forall i: nat :: i < n ==> (upTo(i + 1) <==> upTo(i) || row(i))
    ensures upTo(n) <==> exists i: nat :: i < n && row(i)
  {
    if n > 0 {
      Accumulates(upTo, row, n - 1);
      assert upTo(n - 1 + 1) <==> upTo(n - 1) || row(n - 1);
    }
  }

  /** The pairs found are exactly the conflicting pairs of active depots, lower position first. */
  lemma {:induction false} PairsAre(g: Field, active: set<nat>, n: nat)
    requires n <= |g.ids| && Ascending(g.ids)
    ensures forall p :: p in Pairs(g, active, n) ==> p.0 in active && p.1 in active && p.0 < p.1 && g.conflict(p.0, p.1)
    ensures forall k, l :: (0 <= k < l < |g.ids| && k < n && g.ids[k] in active && g.ids[l] in active && g.conflict(g.ids[k], g.ids[l])) ==>
              (g.ids[k], g.ids[l]) in Pairs(g, active, n)
  {
    forall p | p in Pairs(g, active, n) ensures IsPair(g, active, p) {
      ListedExactly(g, active, n, p);
      var i :| 0 <= i < n && InRow(g, active, i, p);
      RowPair(g, active, i, p);
    }
    forall k, l | 0 <= k < l < |g.ids| && k < n && g.ids[k] in active && g.ids[l] in active && g.conflict(g.ids[k], g.ids[l])
      ensures (g.ids[k], g.ids[l]) in Pairs(g, active, n)
    {
      PairsWithFinds(g, active, k, k + 1, l);
      ListedExactly(g, active, n, (g.ids[k], g.ids[l]));
      assert InRow(g, active, k, (g.ids[k], g.ids[l]));
    }
  }

  /** The surviving depots. */
  function Survivors(g: Field, active: set<nat>): (r: set<nat>)
    requires Ascending(g.ids)
    ensures r <= active
    decreases |active|
  {
    var pairs := Pairs(g, active, |g.ids|);
    if pairs == [] then active else
      PairsAre(g, active, |g.ids|);
      assert pairs[0] in pairs;
      Survivors(g, active - {Loser(g, active, pairs[0].0, pairs[0].1)})
  }

  // ---- What elimination guarantees ----

  /** No two survivors conflict. */
  lemma {:induction false} SurvivorsCompatible(g: Field, active: set<nat>, a: nat, b: nat)
    requires Ascending(g.ids) && Symmetric(g) && active <= Ids(g)
    requires a in Survivors(g, active) && b in Survivors(g, active) && a != b
    ensures !g.conflict(a, b)
    decreases |active|
  {
    var pairs := Pairs(g, active, |g.ids|);
    PairsAre(g, active, |g.ids|);
    if pairs == [] {
      var k :| 0 <= k < |g.ids| && g.ids[k] == a;
      var l :| 0 <= l < |g.ids| && g.ids[l] == b;
    } else {
      assert pairs[0] in pairs;
      SurvivorsCompatible(g, active - {Loser(g, active, pairs[0].0, pairs[0].1)}, a, b);
    }
  }

  /** A chain of conflicts along which the score never drops. */
  ghost predicate Climbs(g: Field, path: seq<nat>)
  {
    |path| > 0 && forall i :: 0 <= i < |path| - 1 ==>
      g.conflict(path[i], path[i + 1]) && g.score(path[i]) <= g.score(path[i + 1])
  }

  /** Every eliminated depot lost to one at least as good, which lost to one at least as good, and so on up to a survivor. */
  lemma {:induction false} ClimbToSurvivor(g: Field, active: set<nat>, d: nat) returns (path: seq<nat>)
    requires Ascending(g.ids) && Symmetric(g) && d in active
    ensures Climbs(g, path) && path[0] == d && path[|path| - 1] in Survivors(g, active)
    ensures forall x :: x in path ==> x in active
    decreases |active|
  {
    var pairs := Pairs(g, active, |g.ids|);
    if pairs == [] {
      return [d];
    }
    PairsAre(g, active, |g.ids|);
    assert pairs[0] in pairs;
    var a, b := pairs[0].0, pairs[0].1;
    var w, l := Winner(g, active, a, b), Loser(g, active, a, b);
    if l != d {
      path := ClimbToSurvivor(g, active - {l}, d);
    } else {
      var rest := ClimbToSurvivor(g, active - {l}, w);
      path := [d] + rest;
      forall i | 0 <= i < |path| - 1 ensures g.conflict(path[i], path[i + 1]) && g.score(path[i]) <= g.score(path[i + 1]) {
        if i > 0 {
          assert path[i] == rest[i - 1] && path[i + 1] == rest[i];
        }
      }
    }
  }

  /** A set of candidates that no conflict leads out of, such as a connected component of the conflict graph. */
  ghost predicate Closed(g: Field, c: set<nat>)
  {
    forall a, b :: a in c && b in g.ids && g.conflict(a, b) ==> b in c
  }

  lemma {:induction false} ChainStaysInside(g: Field, c: set<nat>, path: seq<nat>, i: nat)
    requires Closed(g, c) && Climbs(g, path) && path[0] in c && i < |path|
    requires forall x :: x in path ==> x in g.ids
    ensures path[i] in c && g.score(path[0]) <= g.score(path[i])
  {
    if i > 0 {
      ChainStaysInside(g, c, path, i - 1);
      assert path[i] in path;
    }
  }

  lemma {:induction false} BestOf(score: nat -> int, c: set<nat>) returns (d: nat)
    requires c != {}
    ensures d in c && forall x :: x in c ==> score(x) <= score(d)
    decreases |c|
  {
    d :| d in c;
    if c != {d} {
      var e := BestOf(score, c - {d});
      if score(e) > score(d) {
        d := e;
      }
    }
  }

  /** In every component one of its best depots survives. */
  lemma ComponentKeepsItsBest(g: Field, c: set<nat>) returns (s: nat)
    requires Ascending(g.ids) && Symmetric(g) && c != {} && c <= Ids(g) && Closed(g, c)
    ensures s in c && s in Survivors(g, Ids(g))
    ensures forall x :: x in c ==> g.score(x) <= g.score(s)
  {
    var d := BestOf(g.score, c);
    var path := ClimbToSurvivor(g, Ids(g), d);
    s := path[|path| - 1];
    ChainStaysInside(g, c, path, |path| - 1);
  }

  /** Sorting leaves no choice: one ascending sequence per set, so the outcome does not depend on map order. */
  lemma {:induction false} AscendingUnique(a: seq<nat>, b: seq<nat>)
    requires Ascending(a) && Ascending(b) && forall x :: x in a <==> x in b
    ensures a == b
  {
    assert a == [] || a[0] in a;
    assert b == [] || b[0] in b;
    if a != [] {
      forall x ensures x in a[1..] <==> x in b[1..] {
        assert x in a[1..] <==> x in a && x != a[0];
        assert x in b[1..] <==> x in b && x != b[0];
      }
      AscendingUnique(a[1..], b[1..]);
      assert a == [a[0]] + a[1..] && b == [b[0]] + b[1..];
    }
  }

  /** Two runs over the same depots with the same scores keep the same depots, however the map was walked. */
  lemma {:induction false} OrderDoesNotMatter(g: Field, ids: seq<nat>)
    requires Ascending(g.ids) && Ascending(ids) && forall x :: x in g.ids <==> x in ids
    ensures g.(ids := ids) == g && Survivors(g.(ids := ids), Ids(g)) == Survivors(g, Ids(g))
  {
    AscendingUnique(g.ids, ids);
  }

  // ---- The source's loops ----

  predicate IsDirFlag(e: Entry)
  {
    e.flags & 0x40 != 0
  }

  /** Non-empty regular files by path; of several entries for one path the last counts. */
  function FileMap(h: Host, files: seq<Entry>): map<string, Entry>
  {
    if files == [] then map[] else
      var e := files[|files| - 1];
      var m := FileMap(h, files[..|files| - 1]);
      if !IsDirFlag(e) && e.size > 0 then m[h.norm(e.path) := e] else m
  }

  /** Some path occurs in both with different digest or size. */
  predicate Conflicting(m1: map<string, Entry>, m2: map<string, Entry>)
  {
    exists p :: p in m1 && p in m2 && !Agree(m1[p], m2[p])
  }

  function FieldOf(h: Host, depots: map<nat, seq<Entry>>, ids: seq<nat>, score: (nat, seq<Entry>) -> int): Field
  {
    Field(ids,
      (a, b) => a in depots && b in depots && Conflicting(FileMap(h, depots[a]), FileMap(h, depots[b])),
      a => if a in depots then score(a, depots[a]) else 0)
  }

  /** `maps` lists the files of every candidate, and conflicts are conflicts of these. */
  ghost predicate Tabulated(g: Field, maps: map<nat, map<string, Entry>>)
  {
    && (forall x :: x in g.ids ==> x in maps)
    && (forall a, b :: a in maps && b in maps ==> g.conflict(a, b) == Conflicting(maps[a], maps[b]))
  }

  method IndexFiles(h: Host, files: seq<Entry>) returns (m: map<string, Entry>)
    ensures m == FileMap(h, files)
  {
    m := map[];
    for i := 0 to |files|
      invariant m == FileMap(h, files[..i])
    {
      assert files[..i + 1][..i] == files[..i];
      if !IsDirFlag(files[i]) && files[i].size > 0 {
        m := m[h.norm(files[i].path) := files[i]];
      }
    }
    assert files[..|files|] == files;
  }

  method HasConflict(m1: map<string, Entry>, m2: map<string, Entry>) returns (r: bool)
    ensures r == Conflicting(m1, m2)
    ensures r <==> exists p :: p in m1 && p in m2 && (m1[p].sha1 != m2[p].sha1 || m1[p].size != m2[p].size)
  {
    var todo := m1.Keys;
    while todo != {}
      invariant todo <= m1.Keys
      invariant forall p :: p in m1 && p !in todo && p in m2 ==> Agree(m1[p], m2[p])
      decreases todo
    {
      var p :| p in todo;
      todo := todo - {p};
      if p in m2 && !Agree(m1[p], m2[p]) {
        return true;
      }
    }
    r := false;
  }

  /** The depot ids in ascending order; any sorting will do. */
  method SortIds(ids: set<nat>) returns (r: seq<nat>)
    ensures Ascending(r) && forall d :: d in r <==> d in ids
  {
    r := [];
    var todo := ids;
    while todo != {}
      invariant Ascending(r) && todo <= ids && forall d :: d in ids <==> d in r || d in todo
      invariant forall d, x :: d in r && x in todo ==> d < x
      decreases todo
    {
      var least := Least(todo);
      assert forall i :: 0 <= i < |r| ==> r[i] in r;
      r := r + [least];
      todo := todo - {least};
    }
  }

  method Least(s: set<nat>) returns (d: nat)
    requires s != {}
    ensures d in s && forall x :: x in s ==> d <= x
  {
    d :| d in s;
    var todo := s - {d};
    while todo != {}
      invariant todo <= s && d in s && forall x :: x in s && x !in todo ==> d <= x
      decreases todo
    {
      var x :| x in todo;
      todo := todo - {x};
      if x < d {
        d := x;
      }
    }
  }

  method CountConflicts(g: Field, maps: map<nat, map<string, Entry>>, active: set<nat>, d: nat) returns (n: nat)
    requires d in maps
    requires Tabulated(g, maps)
    ensures n == Conflicts(g, active, d, |g.ids|)
  {
    n := 0;
    for i := 0 to |g.ids|
      invariant n == Conflicts(g, active, d, i)
    {
      var o := g.ids[i];
      if o != d && o in active {
        var c := HasConflict(maps[d], maps[o]);
        if c {
          n := n + 1;
        }
      }
    }
  }

  lemma {:induction false} PairsFrom(g: Field, active: set<nat>, i: nat, j: nat, pairs: seq<(nat, nat)>)
    requires i < |g.ids| && j < |g.ids|
    ensures pairs + PairsWith(g, active, i, j) == pairs + PairAt(g, active, i, j) + PairsWith(g, active, i, j + 1)
  {
    Regrouped(pairs, PairAt(g, active, i, j), PairsWith(g, active, i, j + 1));
  }

  method FindPairsOf(g: Field, maps: map<nat, map<string, Entry>>, active: set<nat>, i: nat) returns (pairs: seq<(nat, nat)>)
    requires i < |g.ids|
    requires Tabulated(g, maps)
    ensures pairs == PairsWith(g, active, i, i + 1)
  {
    pairs := [];
    for j := i + 1 to |g.ids|
      invariant pairs + PairsWith(g, active, i, j) == PairsWith(g, active, i, i + 1)
    {
      PairsFrom(g, active, i, j, pairs);
      ghost var more := pairs + PairAt(g, active, i, j);
      if g.ids[j] in active {
        var c := HasConflict(maps[g.ids[i]], maps[g.ids[j]]);
        if c {
          pairs := pairs + [(g.ids[i], g.ids[j])];
        }
      }
      assert pairs == more;
    }
  }

  /** One round: collect all conflicting active pairs. */
  method FindPairs(g: Field, maps: map<nat, map<string, Entry>>, active: set<nat>) returns (pairs: seq<(nat, nat)>)
    requires Tabulated(g, maps)
    ensures pairs == Pairs(g, active, |g.ids|)
  {
    pairs := [];
    for i := 0 to |g.ids|
      invariant pairs == Pairs(g, active, i)
    {
      if g.ids[i] in active {
        var more := FindPairsOf(g, maps, active, i);
        pairs := pairs + more;
      }
    }
  }

  /** The elimination loop; the active set shrinks every round. */
  method ResolveConflicts(g: Field, maps: map<nat, map<string, Entry>>) returns (active: set<nat>)
    requires Ascending(g.ids)
    requires Tabulated(g, maps)
    ensures active == Survivors(g, Ids(g))
  {
    active := set d | d in g.ids;
    while true
      invariant active <= Ids(g) && Survivors(g, active) == Survivors(g, Ids(g))
      decreases active
    {
      var pairs := FindPairs(g, maps, active);
      if pairs == [] {
        break;
      }
      PairsAre(g, active, |g.ids|);
      assert pairs[0] in pairs;
      var (d1, d2) := pairs[0];
      var loser;
      if g.score(d1) > g.score(d2) {
        loser := d2;
      } else if g.score(d2) > g.score(d1) {
        loser := d1;
      } else {
        var c1 := CountConflicts(g, maps, active, d1);
        var c2 := CountConflicts(g, maps, active, d2);
        loser := if c1 < c2 then d2 else if c2 < c1 then d1 else if d1 < d2 then d2 else d1;
      }
      assert loser == Loser(g, active, d1, d2);
      active := active - {loser};
    }
  }

  // ---- Merging the survivors ----

  /** Directory entries for the root are not merged. */
  predicate RootDir(h: Host, e: Entry)
  {
    h.norm(e.path) == "" && IsDirFlag(e)
  }

  predicate IsContent(e: Entry)
  {
    !IsDirFlag(e) && e.size > 0
  }

  /** The first entry of every path, in order. */
  function Merged(h: Host, files: seq<Entry>): seq<Entry>
  {
    if files == [] then [] else
      var e := files[|files| - 1];
      var rest := Merged(h, files[..|files| - 1]);
      if RootDir(h, e) || HasPath(h, rest, h.norm(e.path)) then rest else rest + [e]
  }

  /** All files of the given depots, depot after depot. */
  function Concat(depots: map<nat, seq<Entry>>, ids: seq<nat>): seq<Entry>
  {
    if ids == [] then [] else
      var d := ids[|ids| - 1];
      Concat(depots, ids[..|ids| - 1]) + if d in depots then depots[d] else []
  }

  /** `e` is the first entry for its path. */
  predicate IsFirst(h: Host, files: seq<Entry>, i: int)
  {
    0 <= i < |files| && !RootDir(h, files[i]) && forall j :: 0 <= j < i ==> RootDir(h, files[j]) || h.norm(files[j].path) != h.norm(files[i].path)
  }

  /** Merged files are first entries, one a path, and every path but the root's is there. */
  lemma {:induction false} MergedAre(h: Host, files: seq<Entry>)
    ensures DistinctPaths(h, Merged(h, files))
    ensures forall e :: e in Merged(h, files) ==> exists i :: IsFirst(h, files, i) && files[i] == e
    ensures forall i :: 0 <= i < |files| && !RootDir(h, files[i]) ==> HasPath(h, Merged(h, files), h.norm(files[i].path))
  {
    MergedDistinct(h, files);
    forall e | e in Merged(h, files) ensures exists i :: IsFirst(h, files, i) && files[i] == e {
      var i := MergedIsFirst(h, files, e);
    }
    forall i | 0 <= i < |files| && !RootDir(h, files[i]) ensures HasPath(h, Merged(h, files), h.norm(files[i].path)) {
      MergedHas(h, files, i);
    }
  }

  predicate HasPath(h: Host, files: seq<Entry>, p: string)
  {
    exists x :: x in files && h.norm(x.path) == p
  }

  lemma {:induction false} MergedDistinct(h: Host, files: seq<Entry>)
    ensures DistinctPaths(h, Merged(h, files))
  {
    if files != [] {
      var n := |files| - 1;
      MergedDistinct(h, files[..n]);
      var rest := Merged(h, files[..n]);
      if Merged(h, files) != rest {
        DistinctMore(h, rest, files[n]);
      }
    }
  }

  lemma {:induction false} MergedHas(h: Host, files: seq<Entry>, i: nat)
    requires i < |files| && !RootDir(h, files[i])
    ensures HasPath(h, Merged(h, files), h.norm(files[i].path))
  {
    var n := |files| - 1;
    var rest := Merged(h, files[..n]);
    if i < n {
      MergedHas(h, files[..n], i);
      var x :| x in rest && h.norm(x.path) == h.norm(files[i].path);
      assert x in Merged(h, files);
    } else if Merged(h, files) == rest + [files[n]] {
      assert files[n] in rest + [files[n]];
    }
  }

  lemma {:induction false} MergedIsFirst(h: Host, files: seq<Entry>, e: Entry) returns (i: nat)
    requires e in Merged(h, files)
    ensures IsFirst(h, files, i) && files[i] == e
  {
    var n := |files| - 1;
    var init := files[..n];
    if e in Merged(h, init) {
      i := MergedIsFirst(h, init, e);
      FirstStays(h, init, files[n], i);
      assert init + [files[n]] == files;
    } else {
      i := n;
      forall j | 0 <= j < n ensures RootDir(h, files[j]) || h.norm(files[j].path) != h.norm(e.path) {
        if !RootDir(h, files[j]) {
          MergedHas(h, init, j);
        }
      }
    }
  }

  lemma FirstStays(h: Host, init: seq<Entry>, e: Entry, i: nat)
    requires IsFirst(h, init, i)
    ensures IsFirst(h, init + [e], i)
  {
  }

  /** More files add to the end of the merged list and change nothing before it. */
  lemma {:induction false} MergedGrows(h: Host, files: seq<Entry>, more: seq<Entry>)
    ensures |Merged(h, files)| <= |Merged(h, files + more)| && Merged(h, files + more)[..|Merged(h, files)|] == Merged(h, files)
  {
    if more == [] {
      assert files + more == files;
    } else {
      var n := |more| - 1;
      MergedGrows(h, files, more[..n]);
      assert (files + more)[..|files + more| - 1] == files + more[..n];
    }
  }

  /** The later abort over conflicting versions of one path cannot happen. */
  lemma {:induction false} MergedIsConsistent(h: Host, files: seq<Entry>)
    ensures Consistent(h, Merged(h, files))
  {
    MergedAre(h, files);
  }

  lemma {:induction false} ConcatHas(depots: map<nat, seq<Entry>>, ids: seq<nat>)
    requires forall d :: d in ids ==> d in depots
    ensures forall e :: e in Concat(depots, ids) <==> exists d :: d in ids && e in depots[d]
  {
    if ids != [] {
      var n := |ids| - 1;
      assert ids == ids[..n] + [ids[n]];
      ConcatHas(depots, ids[..n]);
      forall e ensures e in Concat(depots, ids) <==> exists d :: d in ids && e in depots[d] {
        if e in Concat(depots, ids[..n]) {
          var d :| d in ids[..n] && e in depots[d];
          assert d in ids;
        } else if e in depots[ids[n]] {
          assert ids[n] in ids;
        }
      }
    }
  }

  // ---- What the merged list contains ----

  /** One depot never lists two versions of a non-empty file. */
  ghost predicate OneVersionEach(h: Host, files: seq<Entry>)
  {
    forall a, b :: a in files && b in files && IsContent(a) && IsContent(b) && h.norm(a.path) == h.norm(b.path) ==> Agree(a, b)
  }

  /** No non-empty file comes after a directory or an empty file of the same path. */
  ghost predicate Unshadowed(h: Host, files: seq<Entry>)
  {
    forall i, f :: IsFirst(h, files, i) && f in files && IsContent(f) && h.norm(f.path) == h.norm(files[i].path) ==> IsContent(files[i])
  }

  /** Every non-empty file is listed, with its own digest and size. */
  ghost predicate Complete(h: Host, files: seq<Entry>, merged: seq<Entry>)
  {
    forall f :: f in files && IsContent(f) ==> ListsFile(h, merged, f)
  }

  ghost predicate ListsFile(h: Host, merged: seq<Entry>, f: Entry)
  {
    exists e :: e in merged && IsContent(e) && h.norm(e.path) == h.norm(f.path) && Agree(e, f)
  }

  lemma {:induction false} FileMapIs(h: Host, files: seq<Entry>)
    ensures forall e :: e in files && IsContent(e) ==> h.norm(e.path) in FileMap(h, files)
    ensures forall p :: p in FileMap(h, files) ==> FileMap(h, files)[p] in files && IsContent(FileMap(h, files)[p]) && h.norm(FileMap(h, files)[p].path) == p
  {
    if files != [] {
      var n := |files| - 1;
      assert files == files[..n] + [files[n]];
      FileMapIs(h, files[..n]);
    }
  }

  /** Of several versions in one depot the last one counts in comparisons. */
  lemma {:induction false} LastVersionCounts(h: Host, files: seq<Entry>, k: nat)
    requires k < |files| && IsContent(files[k])
    requires forall j :: k < j < |files| && IsContent(files[j]) ==> h.norm(files[j].path) != h.norm(files[k].path)
    ensures h.norm(files[k].path) in FileMap(h, files) && FileMap(h, files)[h.norm(files[k].path)] == files[k]
  {
    var n := |files| - 1;
    if k < n {
      LastVersionCounts(h, files[..n], k);
    }
  }

  /** Depots without a conflict agree on the non-empty files they share. */
  lemma {:induction false} CompatibleDepotsAgree(h: Host, a: seq<Entry>, b: seq<Entry>, x: Entry, y: Entry)
    requires OneVersionEach(h, a) && OneVersionEach(h, b)
    requires a == b || !Conflicting(FileMap(h, a), FileMap(h, b))
    requires x in a && y in b && IsContent(x) && IsContent(y) && h.norm(x.path) == h.norm(y.path)
    ensures Agree(x, y)
  {
    FileMapIs(h, a);
    FileMapIs(h, b);
    var p := h.norm(x.path);
    assert Agree(x, FileMap(h, a)[p]) && Agree(y, FileMap(h, b)[p]);
  }

  ghost predicate OneVersionInEach(h: Host, depots: map<nat, seq<Entry>>, ids: seq<nat>)
    requires forall d :: d in ids ==> d in depots
  {
    forall d :: d in ids ==> OneVersionEach(h, depots[d])
  }

  ghost predicate PairwiseCompatible(h: Host, depots: map<nat, seq<Entry>>, ids: seq<nat>)
    requires forall d :: d in ids ==> d in depots
  {
    forall a, b :: a in ids && b in ids && a != b ==> !Conflicting(FileMap(h, depots[a]), FileMap(h, depots[b]))
  }

  lemma {:induction false} FirstEntryAgrees(h: Host, depots: map<nat, seq<Entry>>, ids: seq<nat>, e: Entry, f: Entry)
    requires forall d :: d in ids ==> d in depots
    requires PairwiseCompatible(h, depots, ids) && OneVersionInEach(h, depots, ids)
    requires e in Concat(depots, ids) && f in Concat(depots, ids)
    requires IsContent(e) && IsContent(f) && h.norm(e.path) == h.norm(f.path)
    ensures Agree(e, f)
  {
    ConcatHas(depots, ids);
    var a :| a in ids && e in depots[a];
    var b :| b in ids && f in depots[b];
    CompatibleDepotsAgree(h, depots[a], depots[b], e, f);
  }

  lemma {:induction false} UnshadowedIsComplete(h: Host, depots: map<nat, seq<Entry>>, ids: seq<nat>)
    requires forall d :: d in ids ==> d in depots
    requires PairwiseCompatible(h, depots, ids) && OneVersionInEach(h, depots, ids)
    requires Unshadowed(h, Concat(depots, ids))
    ensures Complete(h, Concat(depots, ids), Merged(h, Concat(depots, ids)))
  {
    var all := Concat(depots, ids);
    MergedAre(h, all);
    forall f | f in all && IsContent(f) ensures ListsFile(h, Merged(h, all), f) {
      var k :| 0 <= k < |all| && all[k] == f;
      var e :| e in Merged(h, all) && h.norm(e.path) == h.norm(f.path);
      var i :| IsFirst(h, all, i) && all[i] == e;
      FirstEntryAgrees(h, depots, ids, e, f);
    }
  }

  /** The survivors' files all arrive in the merged list exactly when no survivor lists two versions of a file
      and no file is shadowed by an earlier directory or empty file. */
  lemma {:induction false} MergeCompleteness(h: Host, depots: map<nat, seq<Entry>>, ids: seq<nat>)
    requires forall d :: d in ids ==> d in depots
    requires PairwiseCompatible(h, depots, ids)
    ensures var all := Concat(depots, ids);
      Complete(h, all, Merged(h, all)) <==> OneVersionInEach(h, depots, ids) && Unshadowed(h, all)
  {
    var all := Concat(depots, ids);
    if OneVersionInEach(h, depots, ids) && Unshadowed(h, all) {
      UnshadowedIsComplete(h, depots, ids);
    }
    if Complete(h, all, Merged(h, all)) {
      MergedAre(h, all);
      CompleteMeansOneVersion(h, all, Merged(h, all));
      ConcatHas(depots, ids);
      forall d | d in ids ensures OneVersionEach(h, depots[d]) {
        assert forall e :: e in depots[d] ==> e in all;
      }
      CompleteMeansUnshadowed(h, all);
    }
  }

  lemma SamePathSameEntry(h: Host, merged: seq<Entry>, x: Entry, y: Entry)
    requires DistinctPaths(h, merged) && x in merged && y in merged && h.norm(x.path) == h.norm(y.path)
    ensures x == y
  {
  }

  lemma {:induction false} CompleteMeansOneVersion(h: Host, all: seq<Entry>, merged: seq<Entry>)
    requires Complete(h, all, merged) && DistinctPaths(h, merged)
    ensures OneVersionEach(h, all)
  {
    forall a, b | a in all && b in all && IsContent(a) && IsContent(b) && h.norm(a.path) == h.norm(b.path) ensures Agree(a, b) {
      assert ListsFile(h, merged, a) && ListsFile(h, merged, b);
      var x :| x in merged && IsContent(x) && h.norm(x.path) == h.norm(a.path) && Agree(x, a);
      var y :| y in merged && IsContent(y) && h.norm(y.path) == h.norm(b.path) && Agree(y, b);
      SamePathSameEntry(h, merged, x, y);
    }
  }

  lemma {:induction false} CompleteMeansUnshadowed(h: Host, all: seq<Entry>)
    requires Complete(h, all, Merged(h, all))
    ensures Unshadowed(h, all)
  {
    MergedAre(h, all);
    forall i, f | IsFirst(h, all, i) && f in all && IsContent(f) && h.norm(f.path) == h.norm(all[i].path) ensures IsContent(all[i]) {
      assert ListsFile(h, Merged(h, all), f);
      var x :| x in Merged(h, all) && IsContent(x) && h.norm(x.path) == h.norm(f.path) && Agree(x, f);
      var j :| IsFirst(h, all, j) && all[j] == x;
      assert i == j by {
        assert !(i < j) && !(j < i);
      }
    }
  }

  // ---- The whole function ----

  /** Merge one more depot's files after those merged before. */
  method AddFiles(h: Host, list: seq<Entry>, files: seq<Entry>, seen: set<string>, ghost before: seq<Entry>)
    returns (files': seq<Entry>, seen': set<string>)
    requires files == Merged(h, before) && Seen(h, files, seen)
    ensures files' == Merged(h, before + list) && Seen(h, files', seen')
  {
    files', seen' := files, seen;
    ghost var done := before;
    PrefixEnds(before, list);
    for j := 0 to |list|
      invariant done == before + list[..j]
      invariant files' == Merged(h, done) && Seen(h, files', seen')
    {
      var f := list[j];
      PrefixMore(before, list, j);
      AddStep(h, done, f, files', seen');
      done := done + [f];
      var p := h.norm(f.path);
      if p == "" && IsDirFlag(f) {
        continue;
      }
      if p !in seen' {
        seen' := seen' + {p};
        files' := files' + [f];
      }
    }
  }

  method MergeFiles(h: Host, depots: map<nat, seq<Entry>>, ids: seq<nat>) returns (files: seq<Entry>)
    requires forall d :: d in ids ==> d in depots
    ensures files == Merged(h, Concat(depots, ids))
  {
    files := [];
    var seen: set<string> := {};
    for i := 0 to |ids|
      invariant files == Merged(h, Concat(depots, ids[..i]))
      invariant Seen(h, files, seen)
    {
      assert ids[..i + 1][..i] == ids[..i];
      files, seen := AddFiles(h, depots[ids[i]], files, seen, Concat(depots, ids[..i]));
    }
    assert ids[..|ids|] == ids;
  }

  /** One file. */
  lemma {:induction false} AddStep(h: Host, before: seq<Entry>, f: Entry, files: seq<Entry>, seen: set<string>)
    requires files == Merged(h, before) && Seen(h, files, seen)
    ensures RootDir(h, f) || h.norm(f.path) in seen ==> Merged(h, before + [f]) == files
    ensures !RootDir(h, f) && h.norm(f.path) !in seen ==>
              Merged(h, before + [f]) == files + [f] && Seen(h, files + [f], seen + {h.norm(f.path)})
  {
    MergeStep(h, before, f);
    SeenMore(h, files, seen, f);
  }

  lemma {:induction false} SeenMore(h: Host, files: seq<Entry>, seen: set<string>, f: Entry)
    requires Seen(h, files, seen)
    ensures Seen(h, files + [f], seen + {h.norm(f.path)})
  {
    assert (files + [f])[|files|] == f;
  }

  ghost predicate Seen(h: Host, files: seq<Entry>, seen: set<string>)
  {
    forall p :: p in seen <==> HasPath(h, files, p)
  }

  lemma {:induction false} MergeStep(h: Host, files: seq<Entry>, e: Entry)
    ensures Merged(h, files + [e]) ==
              var rest := Merged(h, files);
              if RootDir(h, e) || HasPath(h, rest, h.norm(e.path)) then rest else rest + [e]
  {
    assert (files + [e])[..|files|] == files;
  }

  method IndexDepots(h: Host, depots: map<nat, seq<Entry>>) returns (maps: map<nat, map<string, Entry>>)
    ensures maps.Keys == depots.Keys && forall d :: d in maps ==> maps[d] == FileMap(h, depots[d])
  {
    maps := map[];
    var todo := depots.Keys;
    while todo != {}
      invariant todo <= depots.Keys && maps.Keys == depots.Keys - todo
      invariant forall d :: d in maps ==> maps[d] == FileMap(h, depots[d])
      decreases todo
    {
      var d :| d in todo;
      todo := todo - {d};
      var m := IndexFiles(h, depots[d]);
      maps := maps[d := m];
    }
  }

  method KeepActive(ids: seq<nat>, active: set<nat>) returns (included: seq<nat>)
    requires Ascending(ids)
    ensures Ascending(included) && forall d :: d in included <==> d in ids && d in active
  {
    included := [];
    for i := 0 to |ids|
      invariant Ascending(included)
      invariant forall d :: d in included <==> d in ids[..i] && d in active
    {
      assert forall k :: 0 <= k < |included| ==> included[k] in included;
      assert ids[..i + 1] == ids[..i] + [ids[i]];
      if ids[i] in active {
        included := included + [ids[i]];
      }
    }
    assert ids[..|ids|] == ids;
  }

  /** Exactly the surviving depots, whatever order they were listed in before sorting. */
  ghost predicate Chosen(h: Host, depots: map<nat, seq<Entry>>, score: (nat, seq<Entry>) -> int, included: seq<nat>)
  {
    forall ids :: Ascending(ids) && (forall d :: d in ids <==> d in depots) ==>
      forall d :: d in included <==> d in Survivors(FieldOf(h, depots, ids, score), depots.Keys)
  }

  lemma SurvivorsAreChosen(h: Host, depots: map<nat, seq<Entry>>, ids: seq<nat>, score: (nat, seq<Entry>) -> int, included: seq<nat>)
    requires Ascending(ids) && forall d :: d in ids <==> d in depots
    requires forall d :: d in included <==> d in Survivors(FieldOf(h, depots, ids, score), depots.Keys)
    ensures Chosen(h, depots, score, included)
  {
    forall other | Ascending(other) && (forall d :: d in other <==> d in depots) ensures other == ids {
      AscendingUnique(ids, other);
    }
  }

  /** The depots to keep, in ascending order, and their merged files. */
  method ReconcileDepots(h: Host, depots: map<nat, seq<Entry>>, score: (nat, seq<Entry>) -> int)
    returns (files: seq<Entry>, included: seq<nat>)
    ensures Ascending(included) && Chosen(h, depots, score, included)
    ensures files == Merged(h, Concat(depots, included)) && Consistent(h, files)
  {
    if |depots| == 0 {
      return [], [];
    }
    var maps := IndexDepots(h, depots);
    var ids := SortIds(depots.Keys);
    var g := FieldOf(h, depots, ids, score);
    var active := ResolveConflicts(g, maps);
    assert Ids(g) == depots.Keys;
    included := KeepActive(ids, active);
    SurvivorsAreChosen(h, depots, ids, score, included);
    files := MergeFiles(h, depots, included);
    MergedIsConsistent(h, Concat(depots, included));
  }

  /** The conflict relation of real depots is symmetric. */
  lemma FieldOfSymmetric(h: Host, depots: map<nat, seq<Entry>>, ids: seq<nat>, score: (nat, seq<Entry>) -> int)
    ensures Symmetric(FieldOf(h, depots, ids, score))
  {
  }

  /** Whatever the depots, the merged list can be streamed, and it is complete
      exactly when no survivor lists two versions of a file and nothing is shadowed. */
  lemma {:induction false} ReconciledIsStreamable(h: Host, depots: map<nat, seq<Entry>>, ids: seq<nat>, score: (nat, seq<Entry>) -> int, included: seq<nat>)
    requires Ascending(ids) && forall d :: d in ids <==> d in depots
    requires Chosen(h, depots, score, included)
    ensures forall d :: d in included ==> d in depots
    ensures var all := Concat(depots, included);
      && Consistent(h, Merged(h, all))
      && (Complete(h, all, Merged(h, all)) <==> OneVersionInEach(h, depots, included) && Unshadowed(h, all))
  {
    var g := FieldOf(h, depots, ids, score);
    FieldOfSymmetric(h, depots, ids, score);
    MergedIsConsistent(h, Concat(depots, included));
    forall a, b | a in included && b in included && a != b ensures !Conflicting(FileMap(h, depots[a]), FileMap(h, depots[b])) {
      SurvivorsCompatible(g, depots.Keys, a, b);
    }
    MergeCompleteness(h, depots, included);
  }
}
