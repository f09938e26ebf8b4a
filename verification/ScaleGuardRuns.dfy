/** Runs of ScaleGuard with crashes at every point: which displays can always be put back, and which failures lose them. */
module ScaleGuardRuns {
  import opened ScaleGuards

  /** Where the guard is: between two external effects, or dead. */
  datatype Phase =
    | Idle
    | Writing(targets: set<string>)
    | Locking(targets: set<string>)
    | Restored
    | Off
    | Recovered

  datatype Machine = Machine(s: State, phase: Phase)

  datatype Action =
    | Begin(targets: set<string>)
    | Persist(write: Write)
    | Lock(c: Command)
    | RestoreAll(c: Command)
    | Forget(removed: bool)
    | Crash
    | Recover(c: Command)

  /** The action can happen here. */
  predicate Enabled(m: Machine, a: Action)
  {
    match a
    case Begin(targets) =>
      m.phase == Idle && targets != {} && targets <= m.s.durable.scales.Keys && forall d :: d in targets ==> Deviates(m.s.durable.scales[d])
    case Persist(_) => m.phase.Writing?
    case Lock(c) => m.phase.Locking? && Plausible(c, m.phase.targets)
    case RestoreAll(c) => m.phase == Idle && m.s.locked != map[] && Plausible(c, m.s.locked.Keys)
    case Forget(_) => m.phase == Restored || m.phase == Recovered || (m.phase == Idle && m.s.locked == map[])
    case Crash => m.phase != Off
    case Recover(c) => m.phase == Off && Plausible(c, Recorded(m.s.durable.file).Keys)
  }

  function Next(m: Machine, a: Action): Machine
    requires Enabled(m, a)
  {
    match a
    case Begin(targets) => Machine(State(m.s.durable, Remember(m.s.locked, targets, m.s.durable.scales)), Writing(targets))
    case Persist(write) => Machine(AfterWrite(m.s, write), Locking(m.phase.targets))
    case Lock(c) => Machine(AfterLock(m.s, c, m.phase.targets), Idle)
    case RestoreAll(c) =>
      if c.ok then Machine(AfterRestore(m.s, c).(locked := map[]), Restored) else Machine(AfterRestore(m.s, c), Idle)
    case Forget(removed) => Machine(AfterRemove(m.s, removed), Idle)
    case Crash => Machine(m.s.(locked := map[]), Off)
    case Recover(c) =>
      if Recorded(m.s.durable.file) == map[] then Machine(m.s, Recovered) else Machine(AfterRecovery(m.s, c), Recovered)
  }

  predicate Possible(m: Machine, run: seq<Action>)
    decreases |run|
  {
    run == [] || (Enabled(m, run[0]) && Possible(Next(m, run[0]), run[1..]))
  }

  function After(m: Machine, run: seq<Action>): Machine
    requires Possible(m, run)
    decreases |run|
  {
    if run == [] then m else After(Next(m, run[0]), run[1..])
  }

  // ---- Safety ----

  /** Every display is at its baseline or has it on record. */
  predicate Recoverable(d: Durable, baseline: Scales)
  {
    d.scales.Keys == baseline.Keys
    && forall n :: n in baseline ==> d.scales[n] == baseline[n] || (n in Recorded(d.file) && Recorded(d.file)[n] == baseline[n])
  }

  predicate Agrees(scales: Scales, baseline: Scales)
  {
    forall n :: n in scales ==> n in baseline && scales[n] == baseline[n]
  }

  /** Displays away from their baseline are remembered by a guard at work. */
  predicate Remembered(s: State, baseline: Scales)
  {
    forall n :: n in baseline && n in s.durable.scales && s.durable.scales[n] != baseline[n] ==> n in s.locked
  }

  predicate Safe(m: Machine, baseline: Scales)
  {
    && Recoverable(m.s.durable, baseline)
    && Agrees(Recorded(m.s.durable.file), baseline)
    && Agrees(m.s.locked, baseline)
    && (if m.phase.Off? then m.s.locked == map[] else Remembered(m.s, baseline))
    && (m.phase.Writing? || m.phase.Locking? ==> m.phase.targets <= m.s.locked.Keys)
    && (m.phase.Locking? ==> m.s.locked.Keys <= Recorded(m.s.durable.file).Keys)
    && (m.phase == Restored || m.phase == Recovered ==> m.s.durable.scales == baseline && m.s.locked == map[])
  }

  /** The record is written when it has to be, and recovery commands succeed. */
  predicate Reliable(a: Action)
  {
    (a.Persist? ==> a.write == Done) && (a.Recover? ==> a.c.ok)
  }

  lemma {:induction false} StepKeepsSafe(m: Machine, a: Action, baseline: Scales)
    requires Safe(m, baseline) && Enabled(m, a) && Reliable(a)
    ensures Safe(Next(m, a), baseline)
  {
    match a
    case Begin(targets) =>
    case Persist(_) =>
    case Lock(c) =>
    case RestoreAll(c) => RestoreKeepsSafe(m, c, baseline);
    case Forget(_) => NothingAway(m, baseline);
    case Crash =>
    case Recover(c) => RecoveryRestores(m, c, baseline);
  }

  lemma {:induction false} RestoreKeepsSafe(m: Machine, c: Command, baseline: Scales)
    requires Safe(m, baseline) && Enabled(m, RestoreAll(c))
    ensures Safe(Next(m, RestoreAll(c)), baseline)
    ensures c.ok ==> Next(m, RestoreAll(c)).s.durable.scales == baseline
  {
    var scales := Next(m, RestoreAll(c)).s.durable.scales;
    assert scales.Keys == baseline.Keys;
  }

  lemma NothingAway(m: Machine, baseline: Scales)
    requires Safe(m, baseline) && !m.phase.Off? && m.s.locked == map[]
    ensures m.s.durable.scales == baseline
  {
  }

  /** Recovery that succeeds puts every display back. */
  lemma {:induction false} RecoveryRestores(m: Machine, c: Command, baseline: Scales)
    requires Safe(m, baseline) && Enabled(m, Recover(c)) && c.ok
    ensures Next(m, Recover(c)).s.durable.scales == baseline
  {
    var scales := Next(m, Recover(c)).s.durable.scales;
    assert scales.Keys == baseline.Keys;
  }

  /** Over every run with crashes anywhere. */
  lemma {:induction false} RunKeepsSafe(m: Machine, run: seq<Action>, baseline: Scales)
    requires Safe(m, baseline) && Possible(m, run) && forall i :: 0 <= i < |run| ==> Reliable(run[i])
    ensures Safe(After(m, run), baseline)
    decreases |run|
  {
    if run != [] {
      assert Reliable(run[0]);
      StepKeepsSafe(m, run[0], baseline);
      assert forall i :: 0 <= i < |run| - 1 ==> run[1..][i] == run[i + 1];
      RunKeepsSafe(Next(m, run[0]), run[1..], baseline);
    }
  }

  /** A desktop at its baseline, and a new guard. */
  function Fresh(baseline: Scales): Machine
  {
    Machine(State(Durable(baseline, Missing), map[]), Idle)
  }

  /** Whatever happened, a restart that recovers puts every display back; so does a Restore that succeeds. */
  lemma {:induction false} AlwaysRestorable(baseline: Scales, run: seq<Action>, c: Command)
    requires Possible(Fresh(baseline), run) && forall i :: 0 <= i < |run| ==> Reliable(run[i])
    requires c.ok
    ensures var m := After(Fresh(baseline), run);
      && Recoverable(m.s.durable, baseline)
      && (Enabled(m, RestoreAll(c)) ==> Next(m, RestoreAll(c)).s.durable.scales == baseline)
      && (Enabled(m, Crash) && Enabled(Next(m, Crash), Recover(c)) ==> Next(Next(m, Crash), Recover(c)).s.durable.scales == baseline)
      && (Enabled(m, Recover(c)) ==> Next(m, Recover(c)).s.durable.scales == baseline)
  {
    RunKeepsSafe(Fresh(baseline), run, baseline);
    var m := After(Fresh(baseline), run);
    if Enabled(m, RestoreAll(c)) {
      RestoreKeepsSafe(m, c, baseline);
    }
    if Enabled(m, Crash) {
      StepKeepsSafe(m, Crash, baseline);
      if Enabled(Next(m, Crash), Recover(c)) {
        RecoveryRestores(Next(m, Crash), c, baseline);
      }
    }
    if Enabled(m, Recover(c)) {
      RecoveryRestores(m, c, baseline);
    }
  }

  // ---- Which failures lose a baseline ----

  /** A write cut short keeps every display recoverable exactly if none is away from its baseline:
      the record of displays locked before is gone. */
  lemma TornWriteExactly(m: Machine, baseline: Scales)
    requires Safe(m, baseline) && m.phase.Writing? && m.s.locked != map[]
    ensures Recoverable(Next(m, Persist(Torn)).s.durable, baseline) <==> m.s.durable.scales == baseline
  {
  }

  /** A refused write keeps every display recoverable through the following command exactly if the displays it
      changes were on record already. */
  lemma {:induction false} RefusedWriteExactly(m: Machine, c: Command, baseline: Scales)
    requires Safe(m, baseline) && m.phase.Writing? && Plausible(c, m.phase.targets)
    requires forall d :: d in m.phase.targets ==> baseline[d] != 1.0
    ensures var locking := Next(m, Persist(Refused));
      Recoverable(Next(locking, Lock(c)).s.durable, baseline) <==> c.changed <= Recorded(m.s.durable.file).Keys
  {
    var locking := Next(m, Persist(Refused));
    var d := Next(locking, Lock(c)).s.durable;
    forall n | n in c.changed ensures d.scales[n] == 1.0 {
    }
  }

  /** Recovery forgets the record whatever its command did: nothing is lost exactly if every display is back. */
  lemma RecoveryExactly(m: Machine, c: Command, baseline: Scales)
    requires Safe(m, baseline) && Enabled(m, Recover(c))
    ensures var done := Next(Next(m, Recover(c)), Forget(true));
      Recoverable(done.s.durable, baseline) <==> done.s.durable.scales == baseline
  {
  }

  /** A write cut short by a crash: recovery finds nothing, and every display stays as it is, for good. */
  lemma {:induction false} CutShortLosesScales(m: Machine)
    requires m.phase.Writing? && m.s.locked != map[]
    ensures var run := [Persist(Torn), Crash, Recover(Command({}, true)), Forget(true)];
      Possible(m, run) && After(m, run) == Machine(State(Durable(m.s.durable.scales, Missing), map[]), Idle)
  {
    var run := [Persist(Torn), Crash, Recover(Command({}, true)), Forget(true)];
    var m1 := Next(m, run[0]);
    var m2 := Next(m1, run[1]);
    var m3 := Next(m2, run[2]);
    var m4 := Next(m3, run[3]);
    FollowRun(m3, m4, run, 3);
    FollowRun(m2, m4, run, 2);
    FollowRun(m1, m4, run, 1);
    FollowRun(m, m4, run, 0);
    assert run[0..] == run;
  }

  lemma {:induction false} FollowRun(m: Machine, end: Machine, run: seq<Action>, i: nat)
    requires i < |run| && Enabled(m, run[i])
    requires if i + 1 == |run| then Next(m, run[i]) == end
             else Possible(Next(m, run[i]), run[i + 1..]) && After(Next(m, run[i]), run[i + 1..]) == end
    ensures Possible(m, run[i..]) && After(m, run[i..]) == end
  {
    assert run[i..][0] == run[i] && run[i..][1..] == run[i + 1..];
  }

  // ---- The methods are runs ----

  /** LockDisplays, when there is something to lock, is three steps of the machine. */
  lemma {:induction false} LockIsThreeSteps(s: State, targets: set<string>, write: Write, c: Command)
    requires Enabled(Machine(s, Idle), Begin(targets)) && Plausible(c, targets)
    ensures var run, kept := [Begin(targets), Persist(write), Lock(c)], State(s.durable, Remember(s.locked, targets, s.durable.scales));
      Possible(Machine(s, Idle), run) && After(Machine(s, Idle), run) == Machine(AfterLock(AfterWrite(kept, write), c, targets), Idle)
  {
    var run := [Begin(targets), Persist(write), Lock(c)];
    var m1 := Next(Machine(s, Idle), run[0]);
    var m2 := Next(m1, run[1]);
    var m3 := Next(m2, run[2]);
    FollowRun(m2, m3, run, 2);
    FollowRun(m1, m3, run, 1);
    FollowRun(Machine(s, Idle), m3, run, 0);
    assert run[0..] == run;
  }

  /** Such a write comes up: a second display is locked while the first one is already at scale 1. */
  lemma SecondLockWrites(baseline: Scales, a: string, b: string) returns (m: Machine)
    requires a in baseline && b in baseline && a != b && Deviates(baseline[a]) && Deviates(baseline[b])
    ensures var run := [Begin({a}), Persist(Done), Lock(Command({a}, true))];
      && Possible(Fresh(baseline), run) && Enabled(After(Fresh(baseline), run), Begin({b}))
      && m == Next(After(Fresh(baseline), run), Begin({b}))
    ensures m.phase.Writing? && m.s.locked != map[] && a in m.s.durable.scales && m.s.durable.scales[a] == 1.0 != baseline[a]
  {
    LockIsThreeSteps(Fresh(baseline).s, {a}, Done, Command({a}, true));
    var run := [Begin({a}), Persist(Done), Lock(Command({a}, true))];
    var locked := After(Fresh(baseline), run);
    assert a in locked.s.locked;
    assert locked.s.durable.scales[b] == baseline[b];
    m := Next(locked, Begin({b}));
    assert a in m.s.locked;
  }
}
