/** The stage pipeline: stages run in order, and a failed or cancelled run undoes what it can, last stage first. */
module Saga {
  import opened Text

  /** The world a step leaves behind, and its error if it failed. */
  datatype Done<S> = Done(world: S, fault: Option<string>)

  /** A stage; one that can be rolled back says how. */
  datatype Stage<!S> = Stage(name: string, execute: S -> Done<S>, rollback: Option<S -> Done<S>>)

  /** What stages report to: the caller's reporter, or one that scales a stage's progress into the whole. */
  datatype Reporter = Caller | Scaled(step: nat, total: nat, name: string)

  /** What happened, in order: stage i ran, stage i was rolled back. */
  datatype Event = Ran(i: nat) | Undone(i: nat)

  /** An entry of the result's error list. */
  datatype Note = StageFailed(stage: string, fault: string) | RollbackFailed(stage: string, fault: string)

  /** How a run ends. */
  datatype Result = Completed | Cancelled | Failed(stage: string, fault: string)

  /** The world, the errors collected, and what happened. */
  datatype State<S> = State(world: S, errors: seq<Note>, trace: seq<Event>)

  // ---- The run as a function ----

  /** Stage i, run. */
  function AfterStage<S>(stages: seq<Stage<S>>, i: nat, s: State<S>): State<S>
    requires i < |stages|
  {
    var r := stages[i].execute(s.world);
    State(r.world, if r.fault.Some? then s.errors + [StageFailed(stages[i].name, r.fault.value)] else s.errors, s.trace + [Ran(i)])
  }

  /** The first i stages, run. */
  function AfterStages<S>(stages: seq<Stage<S>>, s: State<S>, i: nat): State<S>
    requires i <= |stages|
  {
    if i == 0 then s else AfterStage(stages, i - 1, AfterStages(stages, s, i - 1))
  }

  predicate Fails<S>(stages: seq<Stage<S>>, s: State<S>, i: nat)
    requires i < |stages|
  {
    stages[i].execute(AfterStages(stages, s, i).world).fault.Some?
  }

  /** The first stage from i on that is not reached because of a cancellation, or that fails. */
  function StopAt<S>(stages: seq<Stage<S>>, s: State<S>, cancelled: nat -> bool, i: nat): (k: nat)
    requires i <= |stages|
    ensures i <= k <= |stages|
    ensures k < |stages| ==> cancelled(k) || Fails(stages, s, k)
    ensures forall j :: i <= j < k ==> !cancelled(j) && !Fails(stages, s, j)
    decreases |stages| - i
  {
    if i == |stages| || cancelled(i) || Fails(stages, s, i) then i else StopAt(stages, s, cancelled, i + 1)
  }

  predicate CanUndo<S>(stages: seq<Stage<S>>, x: nat)
  {
    x < |stages| && stages[x].rollback.Some?
  }

  /** The stages among the first k that can be rolled back, in order. */
  function Undoable<S>(stages: seq<Stage<S>>, k: nat): (r: seq<nat>)
    requires k <= |stages|
    ensures forall i :: 0 <= i < |r| ==> CanUndo(stages, r[i])
  {
    if k == 0 then [] else Undoable(stages, k - 1) + if CanUndo(stages, k - 1) then [k - 1] else []
  }

  /** Stage x, rolled back; an error is noted and does not stop anything. */
  function AfterUndo<S>(stages: seq<Stage<S>>, x: nat, s: State<S>): State<S>
    requires CanUndo(stages, x)
  {
    var r := stages[x].rollback.value(s.world);
    State(r.world, if r.fault.Some? then s.errors + [RollbackFailed(stages[x].name, r.fault.value)] else s.errors,
          s.trace + [Undone(x)])
  }

  /** The listed stages rolled back from the last to the first. */
  function Unwound<S>(stages: seq<Stage<S>>, list: seq<nat>, s: State<S>): State<S>
    requires forall i :: 0 <= i < |list| ==> CanUndo(stages, list[i])
    decreases |list|
  {
    if list == [] then s else Unwound(stages, list[..|list| - 1], AfterUndo(stages, list[|list| - 1], s))
  }

  /** A run that stops at stage k. */
  function Final<S>(stages: seq<Stage<S>>, s: State<S>, cancelled: nat -> bool): State<S>
  {
    var k := StopAt(stages, s, cancelled, 0);
    if k == |stages| then AfterStages(stages, s, k)
    else Unwound(stages, Undoable(stages, k), AfterStages(stages, s, if cancelled(k) then k else k + 1))
  }

  function ResultOf<S>(stages: seq<Stage<S>>, s: State<S>, cancelled: nat -> bool): Result
  {
    var k := StopAt(stages, s, cancelled, 0);
    if k == |stages| then Completed
    else if cancelled(k) then Cancelled
    else Failed(stages[k].name, stages[k].execute(AfterStages(stages, s, k).world).fault.value)
  }

  /** How the run goes on or ends at stage i, reached in state t. */
  lemma {:induction false} TurnOfStage<S>(stages: seq<Stage<S>>, s: State<S>, cancelled: nat -> bool, i: nat, t: State<S>)
    requires i < |stages| && StopAt(stages, s, cancelled, i) == StopAt(stages, s, cancelled, 0) && t == AfterStages(stages, s, i)
    ensures cancelled(i) ==> ResultOf(stages, s, cancelled) == Cancelled
                             && Final(stages, s, cancelled) == Unwound(stages, Undoable(stages, i), t)
    ensures !cancelled(i) && stages[i].execute(t.world).fault.Some? ==>
              ResultOf(stages, s, cancelled) == Failed(stages[i].name, stages[i].execute(t.world).fault.value)
              && Final(stages, s, cancelled) == Unwound(stages, Undoable(stages, i), AfterStage(stages, i, t))
    ensures !cancelled(i) && stages[i].execute(t.world).fault.None? ==>
              StopAt(stages, s, cancelled, i + 1) == StopAt(stages, s, cancelled, 0)
    ensures AfterStages(stages, s, i + 1) == AfterStage(stages, i, t)
    ensures Undoable(stages, i + 1) == Undoable(stages, i) + if stages[i].rollback.Some? then [i] else []
  {
    if cancelled(i) {
      StopsHere(stages, s, cancelled, i);
      EndsCancelled(stages, s, cancelled, i);
    } else if stages[i].execute(t.world).fault.Some? {
      StopsHere(stages, s, cancelled, i);
      EndsFailed(stages, s, cancelled, i);
    } else {
      GoesOn(stages, s, cancelled, i);
    }
    StageMore(stages, s, i);
  }

  lemma {:induction false} StageMore<S>(stages: seq<Stage<S>>, s: State<S>, i: nat)
    requires i < |stages|
    ensures AfterStages(stages, s, i + 1) == AfterStage(stages, i, AfterStages(stages, s, i))
    ensures Undoable(stages, i + 1) == Undoable(stages, i) + if stages[i].rollback.Some? then [i] else []
  {
  }

  lemma {:induction false} EndsCancelled<S>(stages: seq<Stage<S>>, s: State<S>, cancelled: nat -> bool, i: nat)
    requires i < |stages| && StopAt(stages, s, cancelled, 0) == i && cancelled(i)
    ensures ResultOf(stages, s, cancelled) == Cancelled
    ensures Final(stages, s, cancelled) == Unwound(stages, Undoable(stages, i), AfterStages(stages, s, i))
  {
  }

  lemma {:induction false} EndsFailed<S>(stages: seq<Stage<S>>, s: State<S>, cancelled: nat -> bool, i: nat)
    requires i < |stages| && StopAt(stages, s, cancelled, 0) == i && !cancelled(i) && Fails(stages, s, i)
    ensures ResultOf(stages, s, cancelled) ==
              Failed(stages[i].name, stages[i].execute(AfterStages(stages, s, i).world).fault.value)
    ensures Final(stages, s, cancelled) == Unwound(stages, Undoable(stages, i), AfterStage(stages, i, AfterStages(stages, s, i)))
  {
    StageMore(stages, s, i);
  }

  lemma {:induction false} StopsHere<S>(stages: seq<Stage<S>>, s: State<S>, cancelled: nat -> bool, i: nat)
    requires i < |stages| && (cancelled(i) || Fails(stages, s, i))
    ensures StopAt(stages, s, cancelled, i) == i
  {
  }

  lemma {:induction false} GoesOn<S>(stages: seq<Stage<S>>, s: State<S>, cancelled: nat -> bool, i: nat)
    requires i < |stages| && !cancelled(i) && !Fails(stages, s, i)
    ensures StopAt(stages, s, cancelled, i) == StopAt(stages, s, cancelled, i + 1)
  {
  }

  // ---- The pipeline ----

  class Context<S> {
    var world: S
    var reporter: Option<Reporter>
    var errors: seq<Note>
    ghost var trace: seq<Event>

    constructor (world: S, reporter: Option<Reporter>)
      ensures Snap() == State(world, [], []) && this.reporter == reporter
    {
      this.world, this.reporter, errors, trace := world, reporter, [], [];
    }

    ghost function Snap(): State<S>
      reads this
    {
      State(world, errors, trace)
    }
  }

  class Pipeline<S> {
    var stages: seq<Stage<S>>

    constructor (stages: seq<Stage<S>>)
      ensures this.stages == stages
    {
      this.stages := stages;
    }

    method AddStage(stage: Stage<S>)
      modifies this
      ensures stages == old(stages) + [stage]
    {
      stages := stages + [stage];
    }

    /** Runs the stages. `cancelled(i)` tells whether the run is found cancelled before stage i. */
    method Execute(pctx: Context<S>, cancelled: nat -> bool) returns (r: Result)
      modifies pctx
      ensures pctx.reporter == old(pctx.reporter)
      ensures pctx.Snap() == Final(stages, old(pctx.Snap()), cancelled)
      ensures r == ResultOf(stages, old(pctx.Snap()), cancelled)
    {
      ghost var start := pctx.Snap();
      var origReporter := pctx.reporter;
      var executed: seq<nat> := [];
      for i := 0 to |stages|
        invariant pctx.reporter == origReporter && executed == Undoable(stages, i)
        invariant pctx.Snap() == AfterStages(stages, start, i)
        invariant StopAt(stages, start, cancelled, i) == StopAt(stages, start, cancelled, 0)
      {
        TurnOfStage(stages, start, cancelled, i, pctx.Snap());
        if cancelled(i) {
          Rollback(pctx, executed);
          return Cancelled;
        }
        var fault, _ := RunStage(pctx, i);
        if fault.Some? {
          Rollback(pctx, executed);
          return Failed(stages[i].name, fault.value);
        }
        if stages[i].rollback.Some? {
          executed := executed + [i];
        }
      }
      r := Completed;
    }

    /** One stage, under a reporter that scales its progress; the caller's reporter is put back. */
    method RunStage(pctx: Context<S>, i: nat) returns (fault: Option<string>, ghost under: Option<Reporter>)
      requires i < |stages|
      modifies pctx
      ensures pctx.reporter == old(pctx.reporter)
      ensures pctx.Snap() == AfterStage(stages, i, old(pctx.Snap()))
      ensures fault == stages[i].execute(old(pctx.world)).fault
      ensures under == if old(pctx.reporter).Some? then Some(Scaled(i + 1, |stages|, stages[i].name)) else None
    {
      var origReporter := pctx.reporter;
      if origReporter.Some? {
        pctx.reporter := Some(Scaled(i + 1, |stages|, stages[i].name));
      }
      under := pctx.reporter;
      var r := stages[i].execute(pctx.world);
      pctx.world := r.world;
      pctx.trace := pctx.trace + [Ran(i)];
      pctx.reporter := origReporter;
      if r.fault.Some? {
        pctx.errors := pctx.errors + [StageFailed(stages[i].name, r.fault.value)];
      }
      fault := r.fault;
    }

    method Rollback(pctx: Context<S>, list: seq<nat>)
      requires forall i :: 0 <= i < |list| ==> CanUndo(stages, list[i])
      modifies pctx
      ensures pctx.reporter == old(pctx.reporter)
      ensures pctx.Snap() == Unwound(stages, list, old(pctx.Snap()))
    {
      var i := |list|;
      assert list[..i] == list;
      while i > 0
        invariant i <= |list| && pctx.reporter == old(pctx.reporter)
        invariant Unwound(stages, list[..i], pctx.Snap()) == Unwound(stages, list, old(pctx.Snap()))
      {
        i := i - 1;
        var x := list[i];
        assert list[..i + 1][..i] == list[..i];
        var r := stages[x].rollback.value(pctx.world);
        pctx.world := r.world;
        pctx.trace := pctx.trace + [Undone(x)];
        if r.fault.Some? {
          pctx.errors := pctx.errors + [RollbackFailed(stages[x].name, r.fault.value)];
        }
      }
    }
  }

  // ---- What a run leaves behind ----

  function Backwards(list: seq<nat>): (r: seq<Event>)
    ensures |r| == |list| && forall i :: 0 <= i < |r| ==> r[i] == Undone(list[|list| - 1 - i])
  {
    if list == [] then [] else [Undone(list[|list| - 1])] + Backwards(list[..|list| - 1])
  }

  function Forwards(k: nat): (r: seq<Event>)
    ensures |r| == k && forall i :: 0 <= i < k ==> r[i] == Ran(i)
  {
    if k == 0 then [] else Forwards(k - 1) + [Ran(k - 1)]
  }

  lemma {:induction false} StagesInOrder<S>(stages: seq<Stage<S>>, s: State<S>, i: nat)
    requires i <= |stages|
    ensures AfterStages(stages, s, i).trace == s.trace + Forwards(i)
  {
    if i == 0 {
      assert s.trace + Forwards(0) == s.trace;
    } else {
      StagesInOrder(stages, s, i - 1);
    }
  }

  lemma {:induction false} UndoneInReverse<S>(stages: seq<Stage<S>>, list: seq<nat>, s: State<S>)
    requires forall i :: 0 <= i < |list| ==> CanUndo(stages, list[i])
    ensures Unwound(stages, list, s).trace == s.trace + Backwards(list)
    decreases |list|
  {
    if list == [] {
      assert s.trace + Backwards(list) == s.trace;
    } else {
      var n := |list| - 1;
      UndoneInReverse(stages, list[..n], AfterUndo(stages, list[n], s));
      assert s.trace + [Undone(list[n])] + Backwards(list[..n]) == s.trace + Backwards(list);
    }
  }

  /** Exactly the completed stages that can be rolled back are listed, each once, in order. */
  lemma {:induction false} UndoableExactly<S>(stages: seq<Stage<S>>, k: nat)
    requires k <= |stages|
    ensures forall x: nat :: x in Undoable(stages, k) <==> x < k && CanUndo(stages, x)
    ensures Increasing(Undoable(stages, k))
  {
    forall x: nat ensures x in Undoable(stages, k) <==> x < k && CanUndo(stages, x) {
      UndoableHas(stages, k, x);
    }
    UndoableIncreases(stages, k);
  }

  lemma {:induction false} UndoableIncreases<S>(stages: seq<Stage<S>>, k: nat)
    requires k <= |stages|
    ensures Increasing(Undoable(stages, k))
  {
    if k > 0 {
      UndoableIncreases(stages, k - 1);
      forall x: nat ensures x in Undoable(stages, k - 1) <==> x < k - 1 && CanUndo(stages, x) {
        UndoableHas(stages, k - 1, x);
      }
      IncreasingMore(Undoable(stages, k - 1), k - 1);
    }
  }

  lemma {:induction false} UndoableHas<S>(stages: seq<Stage<S>>, k: nat, x: nat)
    requires k <= |stages|
    ensures x in Undoable(stages, k) <==> x < k && CanUndo(stages, x)
  {
    if k > 0 {
      UndoableHas(stages, k - 1, x);
    }
  }

  lemma IncreasingMore(list: seq<nat>, m: nat)
    requires Increasing(list) && forall x :: x in list ==> x < m
    ensures Increasing(list + [m])
  {
    forall i | 0 <= i < |list| ensures list[i] < m {
      assert list[i] in list;
    }
  }

  predicate Increasing(list: seq<nat>)
  {
    forall i, j :: 0 <= i < j < |list| ==> list[i] < list[j]
  }

  /** A run that stops at stage k ran the stages up to it, and rolled back each completed stage that can be, once,
      the latest first, whatever errors rollbacks gave. */
  lemma {:induction false} WhatHappened<S>(stages: seq<Stage<S>>, s: State<S>, cancelled: nat -> bool)
    ensures var k := StopAt(stages, s, cancelled, 0);
      && (k == |stages| ==> Final(stages, s, cancelled).trace == s.trace + Forwards(k))
      && (k < |stages| ==> Final(stages, s, cancelled).trace ==
                             s.trace + Forwards(if cancelled(k) then k else k + 1) + Backwards(Undoable(stages, k)))
      && Increasing(Undoable(stages, k))
      && forall x: nat :: x in Undoable(stages, k) <==> x < k && CanUndo(stages, x)
  {
    var k := StopAt(stages, s, cancelled, 0);
    UndoableExactly(stages, k);
    StagesInOrder(stages, s, k);
    if k < |stages| {
      var reached := if cancelled(k) then k else k + 1;
      StagesInOrder(stages, s, reached);
      UndoneInReverse(stages, Undoable(stages, k), AfterStages(stages, s, reached));
    }
  }

  /** The notes of the rollbacks that gave an error, the latest stage first. */
  function RollbackNotes<S>(stages: seq<Stage<S>>, list: seq<nat>, world: S): seq<Note>
    requires forall i :: 0 <= i < |list| ==> CanUndo(stages, list[i])
    decreases |list|
  {
    if list == [] then [] else
      var x := list[|list| - 1];
      assert CanUndo(stages, x);
      var r := stages[x].rollback.value(world);
      (if r.fault.Some? then [RollbackFailed(stages[x].name, r.fault.value)] else []) + RollbackNotes(stages, list[..|list| - 1], r.world)
  }

  lemma {:induction false} UnwindingNotes<S>(stages: seq<Stage<S>>, list: seq<nat>, s: State<S>)
    requires forall i :: 0 <= i < |list| ==> CanUndo(stages, list[i])
    ensures Unwound(stages, list, s).errors == s.errors + RollbackNotes(stages, list, s.world)
    decreases |list|
  {
    if list != [] {
      var x, front := list[|list| - 1], list[..|list| - 1];
      assert CanUndo(stages, x);
      var r := stages[x].rollback.value(s.world);
      UnwindingNotes(stages, front, AfterUndo(stages, x, s));
      Regrouped(s.errors, if r.fault.Some? then [RollbackFailed(stages[x].name, r.fault.value)] else [], RollbackNotes(stages, front, r.world));
      assert s.errors + [] == s.errors;
    } else {
      assert s.errors + [] == s.errors;
    }
  }

  lemma {:induction false} StagesNoteNothing<S>(stages: seq<Stage<S>>, s: State<S>, i: nat)
    requires i <= |stages| && forall j :: 0 <= j < i ==> !Fails(stages, s, j)
    ensures AfterStages(stages, s, i).errors == s.errors
  {
    if i > 0 {
      StagesNoteNothing(stages, s, i - 1);
      assert !Fails(stages, s, i - 1);
    }
  }

  /** The result names how the run ended and, if a stage failed, which one and why; the same goes into the error list, and
      behind it every rollback that gave an error, under its own stage. */
  lemma {:induction false} ErrorsTold<S>(stages: seq<Stage<S>>, s: State<S>, cancelled: nat -> bool)
    ensures var k, r := StopAt(stages, s, cancelled, 0), ResultOf(stages, s, cancelled);
      && (r == Completed <==> k == |stages|) && (r == Cancelled <==> k < |stages| && cancelled(k))
      && (r.Failed? ==> r.stage == stages[k].name && stages[k].execute(AfterStages(stages, s, k).world).fault == Some(r.fault))
    ensures var k, r := StopAt(stages, s, cancelled, 0), ResultOf(stages, s, cancelled);
      Final(stages, s, cancelled).errors ==
        s.errors + (if r.Failed? then [StageFailed(r.stage, r.fault)] else [])
        + if k == |stages| then [] else
            RollbackNotes(stages, Undoable(stages, k), AfterStages(stages, s, if cancelled(k) then k else k + 1).world)
  {
    var k := StopAt(stages, s, cancelled, 0);
    StagesNoteNothing(stages, s, k);
    if k < |stages| {
      StageMore(stages, s, k);
      UnwindingNotes(stages, Undoable(stages, k), AfterStages(stages, s, if cancelled(k) then k else k + 1));
    }
    assert s.errors + [] == s.errors;
  }

  /** Stage i, run where it is run, is undone by its rollback; one that cannot be rolled back changes nothing. */
  ghost predicate Reversible<S>(stages: seq<Stage<S>>, s: State<S>, i: nat)
    requires i < |stages|
  {
    var before, after := AfterStages(stages, s, i).world, AfterStages(stages, s, i + 1).world;
    if CanUndo(stages, i) then stages[i].rollback.value(after).world == before else after == before
  }

  lemma {:induction false} UnwindingRestores<S>(stages: seq<Stage<S>>, s: State<S>, k: nat, t: State<S>)
    requires k <= |stages| && forall i :: 0 <= i < k ==> Reversible(stages, s, i)
    requires t.world == AfterStages(stages, s, k).world
    ensures Unwound(stages, Undoable(stages, k), t).world == s.world
  {
    if k > 0 {
      var list := Undoable(stages, k);
      assert Reversible(stages, s, k - 1);
      if CanUndo(stages, k - 1) {
        assert list[..|list| - 1] == Undoable(stages, k - 1);
        UnwindingRestores(stages, s, k - 1, AfterUndo(stages, k - 1, t));
      } else {
        assert list == Undoable(stages, k - 1);
        UnwindingRestores(stages, s, k - 1, t);
      }
    }
  }

  /** A failed or cancelled run ends in the world it started in, if every completed stage is reversible
      where it ran and the failing stage changed nothing. */
  lemma Atomicity<S>(stages: seq<Stage<S>>, s: State<S>, cancelled: nat -> bool)
    requires StopAt(stages, s, cancelled, 0) < |stages|
    requires forall i :: 0 <= i < StopAt(stages, s, cancelled, 0) ==> Reversible(stages, s, i)
    requires var k := StopAt(stages, s, cancelled, 0);
      cancelled(k) || AfterStages(stages, s, k + 1).world == AfterStages(stages, s, k).world
    ensures Final(stages, s, cancelled).world == s.world
  {
    var k := StopAt(stages, s, cancelled, 0);
    UnwindingRestores(stages, s, k, AfterStages(stages, s, if cancelled(k) then k else k + 1));
  }

  // ---- Progress ----

  /** A stage's percentage as part of the whole. */
  function ScaledPercent(step: nat, total: nat, percent: real): real
    requires 0 < total
  {
    ((step - 1) as real * 100.0 + percent) / total as real
  }

  /** Progress over a run never goes back: it stays in the band of its stage, bands do not overlap, and the last ends at 100. */
  lemma {:induction false} ProgressMovesOn(total: nat, step: nat, percent: real, step': nat, percent': real)
    requires 1 <= step <= total && 1 <= step' <= total
    requires 0.0 <= percent <= 100.0 && 0.0 <= percent' <= 100.0
    requires step < step' || (step == step' && percent <= percent')
    ensures 0.0 <= ScaledPercent(step, total, percent) <= ScaledPercent(step', total, percent') <= 100.0
    ensures ScaledPercent(total, total, 100.0) == 100.0 && ScaledPercent(1, total, 0.0) == 0.0
  {
    assert (total - 1) as real * 100.0 + 100.0 == total as real * 100.0;
    var a, b := (step - 1) as real * 100.0 + percent, (step' - 1) as real * 100.0 + percent';
    PercentsOrdered(total, step, percent, step', percent');
    DivideOrdered(a, b, total as real);
    DivideOrdered(b, total as real * 100.0, total as real);
    DivideOrdered(0.0, a, total as real);
    DivideBack(total as real, 100.0);
  }

  lemma {:induction false} PercentsOrdered(total: nat, step: nat, percent: real, step': nat, percent': real)
    requires 1 <= step <= total && 1 <= step' <= total
    requires 0.0 <= percent <= 100.0 && 0.0 <= percent' <= 100.0
    requires step < step' || (step == step' && percent <= percent')
    ensures 0.0 <= (step - 1) as real * 100.0 + percent <= (step' - 1) as real * 100.0 + percent' <= total as real * 100.0
  {
    assert (step' - 1) as real + 1.0 <= total as real;
    assert step < step' ==> (step - 1) as real + 1.0 <= (step' - 1) as real;
  }

  lemma DivideOrdered(a: real, b: real, n: real)
    requires a <= b && n > 0.0
    ensures a / n <= b / n
  {
  }

  lemma DivideBack(n: real, x: real)
    requires n > 0.0
    ensures n * x / n == x && 0.0 / n == 0.0
  {
  }
}
