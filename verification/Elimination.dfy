/** How depots are eliminated, in terms of conflicts and survivors alone: who leaves, and what that spares. */
module Elimination {
  import opened Text
  import opened Depot
  import opened Update
  import opened Reconcile

  /** The active depots that d conflicts with. */
  ghost function Rivals(g: Field, active: set<nat>, d: nat): set<nat>
  {
    set o | o in active && o in g.ids && o != d && g.conflict(d, o)
  }

  /** Two active depots that conflict, the lower id first. */
  ghost predicate Clash(g: Field, active: set<nat>, a: nat, b: nat)
  {
    a in active && b in active && a in g.ids && b in g.ids && a < b && g.conflict(a, b)
  }

  /** Of all clashes the first one: lowest first depot, then lowest second one. */
  ghost predicate FirstClash(g: Field, active: set<nat>, a: nat, b: nat)
  {
    Clash(g, active, a, b) && forall c, d :: Clash(g, active, c, d) ==> a < c || (a == c && b <= d)
  }

  // ---- Counting ----

  ghost function RivalsAmong(g: Field, active: set<nat>, d: nat, n: nat): set<nat>
    requires n <= |g.ids|
  {
    set o | o in active && o in g.ids[..n] && o != d && g.conflict(d, o)
  }

  /** Whether d is rivalled by o. */
  ghost predicate Rivalled(g: Field, active: set<nat>, d: nat, o: nat)
  {
    o != d && o in active && g.conflict(d, o)
  }

  lemma {:induction false} RivalsMore(g: Field, active: set<nat>, d: nat, n: nat)
    requires n < |g.ids|
    ensures RivalsAmong(g, active, d, n + 1) == RivalsAmong(g, active, d, n) + if Rivalled(g, active, d, g.ids[n]) then {g.ids[n]} else {}
  {
    PrefixMore([], g.ids, n);
    assert [] + g.ids[..n + 1] == g.ids[..n + 1] && [] + g.ids[..n] == g.ids[..n];
  }

  lemma {:induction false} NotBefore(g: Field, active: set<nat>, d: nat, n: nat)
    requires n < |g.ids| && Ascending(g.ids)
    ensures g.ids[n] !in RivalsAmong(g, active, d, n)
  {
    assert forall k :: 0 <= k < n ==> g.ids[..n][k] < g.ids[n];
  }

  lemma {:induction false} CountMore(g: Field, active: set<nat>, d: nat, n: nat)
    requires n < |g.ids| && Ascending(g.ids) && Conflicts(g, active, d, n) == |RivalsAmong(g, active, d, n)|
    ensures Conflicts(g, active, d, n + 1) == |RivalsAmong(g, active, d, n + 1)|
  {
    NotBefore(g, active, d, n);
    RivalsMore(g, active, d, n);
    OneMore(RivalsAmong(g, active, d, n), g.ids[n], Rivalled(g, active, d, g.ids[n]));
  }

  lemma OneMore(before: set<nat>, o: nat, yes: bool)
    requires o !in before
    ensures |before + if yes then {o} else {}| == |before| + if yes then 1 else 0
  {
    assert !yes ==> before + {} == before;
  }

  lemma {:induction false} CountedAmong(g: Field, active: set<nat>, d: nat, n: nat)
    requires n <= |g.ids| && Ascending(g.ids)
    ensures Conflicts(g, active, d, n) == |RivalsAmong(g, active, d, n)|
  {
    if n == 0 {
      NoRivals(g, active, d);
    } else {
      CountedAmong(g, active, d, n - 1);
      CountMore(g, active, d, n - 1);
    }
  }

  lemma {:induction false} NoRivals(g: Field, active: set<nat>, d: nat)
    ensures RivalsAmong(g, active, d, 0) == {}
  {
    assert g.ids[..0] == [];
  }

  /** The conflicts counted for a depot are its active rivals, each once. */
  lemma {:induction false} ConflictsAreRivals(g: Field, active: set<nat>, d: nat)
    requires Ascending(g.ids)
    ensures Conflicts(g, active, d, |g.ids|) == |Rivals(g, active, d)|
  {
    CountedAmong(g, active, d, |g.ids|);
    assert g.ids[..|g.ids|] == g.ids;
    assert RivalsAmong(g, active, d, |g.ids|) == Rivals(g, active, d);
  }

  // ---- The first pair ----

  /** The first pair found from position j on has the lowest conflicting second member. */
  lemma {:induction false} RowStarts(g: Field, active: set<nat>, i: nat, j: nat, l: nat) returns (k: nat)
    requires i < |g.ids| && j <= l < |g.ids| && g.ids[l] in active && g.conflict(g.ids[i], g.ids[l])
    ensures j <= k <= l && PairsWith(g, active, i, j) != [] && PairsWith(g, active, i, j)[0] == (g.ids[i], g.ids[k])
    decreases |g.ids| - j
  {
    if g.ids[j] in active && g.conflict(g.ids[i], g.ids[j]) {
      k := j;
      RowHere(g, active, i, j);
    } else {
      k := RowStarts(g, active, i, j + 1, l);
      RowLater(g, active, i, j);
    }
  }

  lemma RowHere(g: Field, active: set<nat>, i: nat, j: nat)
    requires i < |g.ids| && j < |g.ids| && g.ids[j] in active && g.conflict(g.ids[i], g.ids[j])
    ensures PairsWith(g, active, i, j) != [] && PairsWith(g, active, i, j)[0] == (g.ids[i], g.ids[j])
  {
  }

  lemma RowLater(g: Field, active: set<nat>, i: nat, j: nat)
    requires i < |g.ids| && j < |g.ids| && !(g.ids[j] in active && g.conflict(g.ids[i], g.ids[j]))
    ensures PairsWith(g, active, i, j) == PairsWith(g, active, i, j + 1)
  {
    assert [] + PairsWith(g, active, i, j + 1) == PairsWith(g, active, i, j + 1);
  }

  /** Position (k, m) of the ascending pairs comes no later than (i, l). */
  predicate NoLater(k: nat, m: nat, i: nat, l: nat)
  {
    k < i || (k == i && m <= l)
  }

  /** The first pair is the one at (k, m). */
  predicate StartsAt(g: Field, pairs: seq<(nat, nat)>, k: nat, m: nat)
  {
    pairs != [] && k < m < |g.ids| && pairs[0] == (g.ids[k], g.ids[m])
  }

  lemma {:induction false} PairsStart(g: Field, active: set<nat>, n: nat, i: nat, l: nat) returns (k: nat, m: nat)
    requires i < n <= |g.ids| && i < l < |g.ids| && g.ids[i] in active && g.ids[l] in active && g.conflict(g.ids[i], g.ids[l])
    ensures StartsAt(g, Pairs(g, active, n), k, m) && NoLater(k, m, i, l)
  {
    if i < n - 1 {
      k, m := PairsStart(g, active, n - 1, i, l);
    } else if Pairs(g, active, i) == [] {
      k := i;
      m := RowStartsBy(g, active, i, l);
    } else {
      k, m := FirstIsEarlier(g, active, i);
    }
  }

  /** The row of ids[i], when nothing was found before it. */
  lemma {:induction false} RowStartsBy(g: Field, active: set<nat>, i: nat, l: nat) returns (m: nat)
    requires i < l < |g.ids| && g.ids[i] in active && g.ids[l] in active && g.conflict(g.ids[i], g.ids[l]) && Pairs(g, active, i) == []
    ensures m <= l && StartsAt(g, Pairs(g, active, i + 1), i, m)
  {
    m := RowStarts(g, active, i, i + 1, l);
    RowAlone(g, active, i, m);
  }

  lemma RowAlone(g: Field, active: set<nat>, i: nat, m: nat)
    requires i < m < |g.ids| && g.ids[i] in active && Pairs(g, active, i) == []
    requires PairsWith(g, active, i, i + 1) != [] && PairsWith(g, active, i, i + 1)[0] == (g.ids[i], g.ids[m])
    ensures StartsAt(g, Pairs(g, active, i + 1), i, m)
  {
    assert Pairs(g, active, i + 1) == PairsWith(g, active, i, i + 1);
  }

  lemma {:induction false} FirstIsEarlier(g: Field, active: set<nat>, n: nat) returns (k: nat, m: nat)
    requires n <= |g.ids| && Pairs(g, active, n) != []
    ensures k < n && StartsAt(g, Pairs(g, active, n), k, m)
  {
    if Pairs(g, active, n - 1) != [] {
      k, m := FirstIsEarlier(g, active, n - 1);
    } else {
      k := n - 1;
      RowStart(g, active, k);
      m := PairsWithFound(g, active, k, n, PairsWith(g, active, k, n)[0]);
    }
  }

  lemma RowStart(g: Field, active: set<nat>, k: nat)
    requires k < |g.ids| && Pairs(g, active, k + 1) != [] && Pairs(g, active, k) == []
    ensures Pairs(g, active, k + 1) == PairsWith(g, active, k, k + 1)
  {
  }

  lemma {:induction false} PositionsOf(g: Field, active: set<nat>, a: nat, b: nat) returns (i: nat, l: nat)
    requires Ascending(g.ids) && Clash(g, active, a, b)
    ensures i < l < |g.ids| && g.ids[i] == a && g.ids[l] == b
  {
    i :| 0 <= i < |g.ids| && g.ids[i] == a;
    l :| 0 <= l < |g.ids| && g.ids[l] == b;
  }

  /** No clash comes before the first pair found. */
  lemma {:induction false} NoneEarlier(g: Field, active: set<nat>, x: nat, y: nat)
    requires Ascending(g.ids) && Clash(g, active, x, y)
    ensures Pairs(g, active, |g.ids|) != []
    ensures var p := Pairs(g, active, |g.ids|)[0]; p.0 < x || (p.0 == x && p.1 <= y)
  {
    var i, l := PositionsOf(g, active, x, y);
    var k, m := PairsStart(g, active, |g.ids|, i, l);
  }

  lemma {:induction false} FirstIsClash(g: Field, active: set<nat>)
    requires Ascending(g.ids) && Pairs(g, active, |g.ids|) != []
    ensures var p := Pairs(g, active, |g.ids|)[0]; Clash(g, active, p.0, p.1)
  {
    PairsAre(g, active, |g.ids|);
    var k, m := FirstIsEarlier(g, active, |g.ids|);
    assert Pairs(g, active, |g.ids|)[0] in Pairs(g, active, |g.ids|);
  }

  lemma {:induction false} FirstClashIsFirst(g: Field, active: set<nat>, a: nat, b: nat)
    requires Ascending(g.ids) && FirstClash(g, active, a, b)
    ensures Pairs(g, active, |g.ids|) != [] && Pairs(g, active, |g.ids|)[0] == (a, b)
  {
    NoneEarlier(g, active, a, b);
    FirstIsClash(g, active);
  }

  // ---- Who leaves ----

  /** Of the first pair the depot with the lower score leaves; with equal scores the one with more active rivals; with
      equal counts the one with the higher id. Nothing else decides about it. */
  lemma {:induction false} FirstPairLeaves(g: Field, active: set<nat>, a: nat, b: nat)
    requires Ascending(g.ids) && FirstClash(g, active, a, b)
    ensures var ra, rb := |Rivals(g, active, a)|, |Rivals(g, active, b)|;
      var leaves := if g.score(a) < g.score(b) || (g.score(a) == g.score(b) && ra > rb) then a else b;
      leaves !in Survivors(g, active) && Survivors(g, active) == Survivors(g, active - {leaves})
  {
    FirstClashIsFirst(g, active, a, b);
    ConflictsAreRivals(g, active, a);
    ConflictsAreRivals(g, active, b);
  }

  /** Without a clash everybody stays. */
  lemma {:induction false} NobodyLeaves(g: Field, active: set<nat>)
    requires Ascending(g.ids) && forall a, b :: !Clash(g, active, a, b)
    ensures Survivors(g, active) == active
  {
    if Pairs(g, active, |g.ids|) != [] {
      FirstIsClash(g, active);
    }
  }

  /** There is a first clash if there is one at all. */
  lemma {:induction false} SomeFirstClash(g: Field, active: set<nat>, c: nat, d: nat) returns (a: nat, b: nat)
    requires Ascending(g.ids) && Clash(g, active, c, d)
    ensures FirstClash(g, active, a, b)
  {
    NoneEarlier(g, active, c, d);
    FirstIsClash(g, active);
    var p := Pairs(g, active, |g.ids|)[0];
    a, b := p.0, p.1;
    forall x, y | Clash(g, active, x, y) ensures a < x || (a == x && b <= y) {
      NoneEarlier(g, active, x, y);
    }
  }

  // ---- What that spares ----

  /** A depot that clashes with nobody stays. */
  lemma {:induction false} FreeSurvives(g: Field, active: set<nat>, a: nat)
    requires Ascending(g.ids) && a in active && forall x, y :: Clash(g, active, x, y) ==> x != a && y != a
    ensures a in Survivors(g, active)
    decreases |active|
  {
    if x, y :| Clash(g, active, x, y) {
      var c, d := SomeFirstClash(g, active, x, y);
      FirstPairLeaves(g, active, c, d);
      var l := if g.score(c) < g.score(d) || (g.score(c) == g.score(d) && |Rivals(g, active, c)| > |Rivals(g, active, d)|) then c else d;
      assert forall u, v :: Clash(g, active - {l}, u, v) ==> Clash(g, active, u, v);
      FreeSurvives(g, active - {l}, a);
    } else {
      NobodyLeaves(g, active);
    }
  }

  /** Two depots with equal scores that clash with each other and with nobody else: the lower id stays, the other leaves. */
  lemma {:induction false} LowerIdStays(g: Field, active: set<nat>, a: nat, b: nat)
    requires Ascending(g.ids) && Symmetric(g) && Clash(g, active, a, b) && g.score(a) == g.score(b)
    requires forall x, y :: Clash(g, active, x, y) && (x == a || x == b || y == a || y == b) ==> x == a && y == b
    ensures a in Survivors(g, active) && b !in Survivors(g, active)
    decreases |active|
  {
    var c, d := SomeFirstClash(g, active, a, b);
    FirstPairLeaves(g, active, c, d);
    var l := if g.score(c) < g.score(d) || (g.score(c) == g.score(d) && |Rivals(g, active, c)| > |Rivals(g, active, d)|) then c else d;
    assert forall u, v :: Clash(g, active - {l}, u, v) ==> Clash(g, active, u, v);
    if c == a {
      OnlyRival(g, active, a, b);
      OnlyRival(g, active, b, a);
      FreeSurvives(g, active - {b}, a);
    } else {
      LowerIdStays(g, active - {l}, a, b);
    }
  }

  lemma OnlyRival(g: Field, active: set<nat>, a: nat, b: nat)
    requires Symmetric(g) && (Clash(g, active, a, b) || Clash(g, active, b, a)) && a in g.ids
    requires forall x, y :: Clash(g, active, x, y) && (x == a || y == a) ==> x == b || y == b
    ensures |Rivals(g, active, a)| == 1
  {
    forall o ensures o in Rivals(g, active, a) <==> o == b {
      assert o in Rivals(g, active, a) ==> Clash(g, active, a, o) || Clash(g, active, o, a);
    }
    assert Rivals(g, active, a) == {b};
  }

  /** Depot c clashes with the leaves and nobody else, and each leaf with c alone. */
  ghost predicate Star(g: Field, active: set<nat>, c: nat, leaves: set<nat>)
  {
    && c in active && c in g.ids && c !in leaves && leaves <= active && (forall l :: l in leaves ==> l in g.ids && g.conflict(c, l))
    && (forall x, y :: Clash(g, active, x, y) && (x == c || y == c) ==> x in leaves || y in leaves)
    && forall x, y :: Clash(g, active, x, y) && (x in leaves || y in leaves) ==> x == c || y == c
  }

  lemma StarRivals(g: Field, active: set<nat>, c: nat, leaves: set<nat>, l: nat)
    requires Symmetric(g) && Star(g, active, c, leaves) && l in leaves
    ensures Rivals(g, active, c) == leaves && Rivals(g, active, l) == {c}
    ensures Clash(g, active, c, l) || Clash(g, active, l, c)
  {
    forall o ensures o in Rivals(g, active, c) <==> o in leaves {
      assert o in Rivals(g, active, c) ==> Clash(g, active, c, o) || Clash(g, active, o, c);
    }
    forall o ensures o in Rivals(g, active, l) <==> o == c {
      assert o in Rivals(g, active, l) ==> Clash(g, active, l, o) || Clash(g, active, o, l);
    }
  }

  /** With equal scores and at least two leaves the centre of a star leaves and all leaves stay. */
  lemma {:induction false} LeavesStay(g: Field, active: set<nat>, c: nat, leaves: set<nat>)
    requires Ascending(g.ids) && Symmetric(g) && Star(g, active, c, leaves) && |leaves| >= 2
    requires forall l :: l in leaves ==> g.score(l) == g.score(c)
    ensures leaves <= Survivors(g, active) && c !in Survivors(g, active)
    decreases |active|
  {
    var l :| l in leaves;
    StarRivals(g, active, c, leaves, l);
    var x, y := SomeFirstClash(g, active, if l < c then l else c, if l < c then c else l);
    FirstPairLeaves(g, active, x, y);
    var gone := if g.score(x) < g.score(y) || (g.score(x) == g.score(y) && |Rivals(g, active, x)| > |Rivals(g, active, y)|) then x else y;
    assert forall u, v :: Clash(g, active - {gone}, u, v) ==> Clash(g, active, u, v);
    if x == c || y == c {
      StarRivals(g, active, c, leaves, if x == c then y else x);
      assert gone == c;
      forall k | k in leaves ensures k in Survivors(g, active) {
        FreeSurvives(g, active - {c}, k);
      }
    } else {
      LeavesStay(g, active - {gone}, c, leaves);
    }
  }

  // ---- Real depots ----

  /** The two depots have the same version of every non-empty file they share. */
  ghost predicate ShareAlike(h: Host, a: seq<Entry>, b: seq<Entry>)
  {
    forall x, y :: x in a && y in b && IsContent(x) && IsContent(y) && h.norm(x.path) == h.norm(y.path) ==> Agree(x, y)
  }

  /** Depots that share alike all stay. */
  lemma {:induction false} AgreeingStay(h: Host, depots: map<nat, seq<Entry>>, ids: seq<nat>, score: (nat, seq<Entry>) -> int, included: seq<nat>)
    requires Ascending(ids) && forall d :: d in ids <==> d in depots
    requires forall a, b :: a in depots && b in depots && a != b ==> ShareAlike(h, depots[a], depots[b])
    requires Chosen(h, depots, score, included)
    ensures forall d :: d in included <==> d in depots
  {
    var g := FieldOf(h, depots, ids, score);
    forall a, b ensures !Clash(g, depots.Keys, a, b) {
      if a in depots && b in depots && a != b {
        AlikeIsNoConflict(h, depots[a], depots[b]);
      }
    }
    NobodyLeaves(g, depots.Keys);
  }

  lemma {:induction false} AlikeIsNoConflict(h: Host, a: seq<Entry>, b: seq<Entry>)
    requires ShareAlike(h, a, b)
    ensures !Conflicting(FileMap(h, a), FileMap(h, b))
  {
    FileMapIs(h, a);
    FileMapIs(h, b);
  }

  /** A depot whose own files score higher than those of every other candidate stays. */
  lemma {:induction false} HighestStays(h: Host, depots: map<nat, seq<Entry>>, ids: seq<nat>, score: (nat, seq<Entry>) -> int, included: seq<nat>, d: nat)
    requires Ascending(ids) && (forall x :: x in ids <==> x in depots) && d in depots
    requires forall x :: x in depots && x != d ==> score(x, depots[x]) < score(d, depots[d])
    requires Chosen(h, depots, score, included)
    ensures d in included
  {
    var g := FieldOf(h, depots, ids, score);
    FieldOfSymmetric(h, depots, ids, score);
    assert Ids(g) == depots.Keys;
    var s := ComponentKeepsItsBest(g, Ids(g));
    assert g.score(d) <= g.score(s);
  }
}
