/** When a supervisor stops a session that is not its own: exactly if it still supervises the directory of the launch. */
module ForeignStops {
  import opened Teardown

  // ---- What supervisors wait for is there ----

  /** A supervisor's session was launched, and it waits for seats that exist. */
  ghost predicate Attends(m: State, t: Thread)
  {
    match t
    case Draining(sid, _, pending) => sid in m.launched && forall n :: n in pending ==> (sid, n) in m.seats
    case Checking(sid, _) => sid in m.launched
    case StopLookup(_, caller) => caller.Supervisor? ==> caller.sid in m.launched
    case Holding(_, _, next) => Attends(m, next)
    case _ => true
  }

  ghost predicate AllAttend(m: State)
  {
    forall t :: t in m.threads ==> Attends(m, m.threads[t])
  }

  lemma {:induction false} AttendsOnward(m: State, n: State, t: Thread)
    requires Attends(m, t) && m.launched <= n.launched && m.seats.Keys <= n.seats.Keys
    ensures Attends(n, t)
  {
    if t.Holding? {
      AttendsOnward(m, n, t.next);
    }
  }

  lemma NothingLost(m: State, a: Action)
    requires Enabled(m, a)
    ensures m.launched <= Next(m, a).launched && m.seats.Keys <= Next(m, a).seats.Keys
  {
    forall k | k in m.seats ensures k in Next(m, a).seats {
      NeverBack(m, a, k);
    }
  }

  lemma {:induction false} ActorAttends(m: State, tid: nat, t: Thread, seat: string)
    requires CanStep(m, t, seat) && Attends(m, t)
    ensures var n := StepThread(m, tid, t, seat); tid in m.threads ==> tid in n.threads
    ensures var n := StepThread(m, tid, t, seat); t != Finished ==> tid in n.threads && Attends(m, n.threads[tid])
  {
    match t
    case Draining(_, _, _) =>
    case Checking(_, _) =>
    case StopLookup(_, _) =>
    case Marking(_) =>
    case Stopping(_, _) =>
    case SeatLookup(_, _) =>
    case SeatStopping(_) =>
    case Holding(_, _, _) =>
    case Finished =>
  }

  lemma {:induction false} StepAttends(m: State, a: Action)
    requires AllAttend(m) && Enabled(m, a)
    ensures AllAttend(Next(m, a))
  {
    var n := Next(m, a);
    NothingLost(m, a);
    forall t | t in n.threads ensures Attends(n, n.threads[t]) {
      if t != a.tid {
        StaysThread(m, a, t);
        OthersStay(m, a, t);
        AttendsOnward(m, n, m.threads[t]);
      } else if a.Step? {
        ActorAttends(m, t, m.threads[t], a.seat);
        AttendsOnward(m, n, n.threads[t]);
      } else {
        StarterAttends(m, a);
      }
    }
  }

  lemma StarterAttends(m: State, a: Action)
    requires Enabled(m, a) && !a.Step?
    ensures a.tid in Next(m, a).threads && Attends(Next(m, a), Next(m, a).threads[a.tid])
  {
  }

  lemma {:induction false} RunAttends(run: seq<Action>)
    requires Possible(START, run)
    ensures AllAttend(After(START, run))
    decreases |run|
  {
    if run != [] {
      RunAttends(Front(run));
      StepAttends(After(START, Front(run)), Last(run));
    }
  }

  // ---- A supervisor left to itself ----

  lemma {:induction false} Chained(m: State, run: seq<Action>, n: State, more: seq<Action>, k: State)
    requires Leads(m, run, n) && Leads(n, more, k)
    ensures Leads(m, run + more, k)
    decreases |more|
  {
    if more == [] {
      assert run + more == run;
    } else {
      var mid := LeadsBack(n, more, k);
      Chained(m, run, n, Front(more), mid);
      LeadsOn(m, run + Front(more), mid, Last(more));
      assert run + more == run + Front(more) + [Last(more)];
    }
  }

  lemma {:induction false} LeadsBack(m: State, run: seq<Action>, n: State) returns (mid: State)
    requires Leads(m, run, n) && run != []
    ensures Leads(m, Front(run), mid) && Enabled(mid, Last(run)) && n == Next(mid, Last(run))
  {
    mid := After(m, Front(run));
  }

  ghost predicate Leads(m: State, run: seq<Action>, n: State)
  {
    Possible(m, run) && After(m, run) == n
  }

  lemma {:induction false} LeadsOn(m: State, run: seq<Action>, n: State, a: Action)
    requires Leads(m, run, n) && Enabled(n, a)
    ensures Leads(m, run + [a], Next(n, a))
  {
    OneMore(m, run, a);
  }

  /** How many steps a supervisor is away from asking for the session of its directory. */
  function Distance(t: Thread): nat
  {
    match t
    case Draining(_, _, pending) => 2 * |pending| + 2
    case Checking(_, _) => 1
    case Holding(_, _, next) => Distance(next) + 1
    case _ => 0
  }

  /** One of its steps, on a seat it waits for if there is one. */
  lemma {:induction false} ComesCloser(m: State, tid: nat, t: Thread, dir: string, sid: nat) returns (seat: string)
    requires Attends(m, t) && Supervises(t, dir, sid) && !t.StopLookup? && dir in m.sessions
    ensures CanStep(m, t, seat)
    ensures var n := StepThread(m, tid, t, seat);
      && n.sessions == m.sessions && tid in n.threads && Supervises(n.threads[tid], dir, sid) && Distance(n.threads[tid]) < Distance(t)
  {
    seat := "";
    if t.Draining? && t.pending != {} {
      seat :| seat in t.pending;
      assert |t.pending - {seat}| == |t.pending| - 1;
    }
  }

  /** It gets there whatever it still waits for. */
  lemma {:induction false} ComesToAsk(m: State, tid: nat, dir: string, sid: nat) returns (run: seq<Action>)
    requires AllAttend(m) && tid in m.threads && Supervises(m.threads[tid], dir, sid) && dir in m.sessions
    ensures Possible(m, run) && After(m, run).sessions == m.sessions
    ensures tid in After(m, run).threads && After(m, run).threads[tid] == StopLookup(dir, Supervisor(sid))
    decreases Distance(m.threads[tid])
  {
    if m.threads[tid].StopLookup? {
      run := [];
    } else {
      var seat := ComesCloser(m, tid, m.threads[tid], dir, sid);
      var a := Step(tid, seat);
      StepAttends(m, a);
      var rest := ComesToAsk(Next(m, a), tid, dir, sid);
      OneMore(m, [], a);
      assert [] + [a] == [a];
      Chained(m, [a], Next(m, a), rest, After(Next(m, a), rest));
      run := [a] + rest;
    }
  }

  // ---- Exactly when it stops another's session ----

  /** Goroutine t is the supervisor of another session and about to take session `sid` out of the table. */
  predicate AboutToTake(m: State, t: nat, dir: string, sid: nat)
  {
    && t in m.threads && m.threads[t].StopLookup? && m.threads[t].caller.Supervisor?
    && m.threads[t].caller.sid != sid && m.threads[t].dir == dir && dir in m.sessions && m.sessions[dir] == sid
  }

  /** Some run comes to this point. */
  ghost predicate OtherCanTake(m: State, dir: string, sid: nat)
  {
    exists run, t :: Possible(m, run) && AboutToTake(After(m, run), t, dir, sid)
  }

  /** The next two steps remove the session and turn all its seats off. */
  lemma LookupStops(m: State, t: nat, dir: string)
    requires t in m.threads && m.threads[t].StopLookup? && m.threads[t].dir == dir && dir in m.sessions
    ensures var run := [Step(t, ""), Step(t, "")];
      && Possible(m, run) && dir !in After(m, run).sessions
      && forall k :: k in m.seats && k.0 == m.sessions[dir] ==> k in After(m, run).seats && !After(m, run).seats[k].running
  {
    TwoSteps(m, Step(t, ""));
  }

  lemma TwoSteps(m: State, step: Action)
    requires Enabled(m, step) && Enabled(Next(m, step), step)
    ensures Possible(m, [step, step]) && After(m, [step, step]) == Next(Next(m, step), step)
  {
    OneMore(m, [], step);
    OneMore(m, [step], step);
    assert [] + [step] == [step] && [step] + [step] == [step, step];
  }

  /** Stopping one seat takes two steps, and touches no other seat and no session. */
  lemma SeatLookupStops(m: State, t: nat, dir: string, name: string)
    requires t in m.threads && m.threads[t] == SeatLookup(dir, name) && dir in m.sessions && (m.sessions[dir], name) in m.seats
    ensures var run, key := [Step(t, ""), Step(t, "")], (m.sessions[dir], name);
      && Possible(m, run) && After(m, run).sessions == m.sessions && After(m, run).seats.Keys == m.seats.Keys
      && !After(m, run).seats[key].running
      && forall k :: k in m.seats && k != key ==> After(m, run).seats[k] == m.seats[k]
  {
    TwoSteps(m, Step(t, ""));
  }

  /** Session `sid` is known, and while the table has it, it is the only one supervised in its directory. */
  ghost predicate Unrivalled(m: State, dir: string, sid: nat)
  {
    && sid in m.launched
    && (dir in m.sessions && m.sessions[dir] == sid ==>
          forall t, other :: t in m.threads && Supervises(m.threads[t], dir, other) ==> other == sid)
  }

  lemma {:induction false} StaysUnrivalled(m: State, a: Action, dir: string, sid: nat)
    requires Enabled(m, a) && Unrivalled(m, dir, sid)
    ensures Unrivalled(Next(m, a), dir, sid)
  {
    var n := Next(m, a);
    if dir in n.sessions && n.sessions[dir] == sid {
      forall t, other | t in n.threads && Supervises(n.threads[t], dir, other) ensures other == sid {
        if t != a.tid {
          StaysThread(m, a, t);
          OthersStay(m, a, t);
          assert Supervises(m.threads[t], dir, other);
        } else if a.Step? {
          SupervisedBefore(m, t, m.threads[t], a.seat, dir, other);
        }
      }
    }
  }

  lemma {:induction false} RunUnrivalled(m: State, run: seq<Action>, dir: string, sid: nat)
    requires Possible(m, run) && Unrivalled(m, dir, sid)
    ensures Unrivalled(After(m, run), dir, sid)
    decreases |run|
  {
    if run != [] {
      RunUnrivalled(m, Front(run), dir, sid);
      StaysUnrivalled(After(m, Front(run)), Last(run), dir, sid);
    }
  }

  ghost predicate StillSupervised(m: State, dir: string)
  {
    exists t, other :: t in m.threads && Supervises(m.threads[t], dir, other)
  }

  /** In every state that can come up: after a launch, a run in which the supervisor of another session removes and stops
      the new one is possible if and only if some goroutine still supervises that directory at the launch. */
  lemma {:induction false} StoppedByAnotherExactly(m: State, dir: string, sid: nat, seats: map<string, set<Handle>>, tid: nat)
    requires Reached(m) && Enabled(m, Launch(dir, sid, seats, tid))
    ensures OtherCanTake(Next(m, Launch(dir, sid, seats, tid)), dir, sid) <==> StillSupervised(m, dir)
  {
    var a := Launch(dir, sid, seats, tid);
    var n := Next(m, a);
    var before :| Possible(START, before) && After(START, before) == m;
    RunAttends(before);
    if StillSupervised(m, dir) {
      var t, other :| t in m.threads && Supervises(m.threads[t], dir, other);
      SupervisorLaunched(m, m.threads[t], dir, other);
      StepAttends(m, a);
      OthersStay(m, a, t);
      var run := ComesToAsk(n, t, dir, other);
      assert AboutToTake(After(n, run), t, dir, sid);
    } else {
      AloneAtLaunch(m, dir, sid, seats, tid);
      forall run, t | Possible(n, run) ensures !AboutToTake(After(n, run), t, dir, sid) {
        RunUnrivalled(n, run, dir, sid);
        NobodyAbout(After(n, run), t, dir, sid);
      }
    }
  }

  lemma AloneAtLaunch(m: State, dir: string, sid: nat, seats: map<string, set<Handle>>, tid: nat)
    requires Enabled(m, Launch(dir, sid, seats, tid)) && !StillSupervised(m, dir)
    ensures Unrivalled(Next(m, Launch(dir, sid, seats, tid)), dir, sid)
  {
    var a := Launch(dir, sid, seats, tid);
    forall t | t in Next(m, a).threads && t != tid ensures t in m.threads && Next(m, a).threads[t] == m.threads[t] {
      StaysThread(m, a, t);
      OthersStay(m, a, t);
    }
  }

  lemma NobodyAbout(m: State, t: nat, dir: string, sid: nat)
    requires Unrivalled(m, dir, sid)
    ensures !AboutToTake(m, t, dir, sid)
  {
    if t in m.threads && m.threads[t].StopLookup? && m.threads[t].caller.Supervisor? {
      assert Supervises(m.threads[t], m.threads[t].dir, m.threads[t].caller.sid);
    }
  }

  /** A supervisor, however late, stops whatever session it finds in its directory. */
  lemma {:induction false} LateSupervisorStopsWhatItFinds(m: State, tid: nat, sid: nat, dir: string) returns (run: seq<Action>)
    requires Reached(m) && tid in m.threads && Supervises(m.threads[tid], dir, sid) && dir in m.sessions
    ensures Possible(m, run) && dir !in After(m, run).sessions
    ensures forall k :: k in m.seats && k.0 == m.sessions[dir] ==> k in After(m, run).seats && !After(m, run).seats[k].running
  {
    var before :| Possible(START, before) && After(START, before) == m;
    RunAttends(before);
    var ask := ComesToAsk(m, tid, dir, sid);
    forall k | k in m.seats ensures k in After(m, ask).seats {
      SeatsStay(m, ask, k);
    }
    LookupStops(After(m, ask), tid, dir);
    var steps := [Step(tid, ""), Step(tid, "")];
    Chained(m, ask, After(m, ask), steps, After(After(m, ask), steps));
    run := ask + steps;
  }

  lemma {:induction false} SeatsStay(m: State, run: seq<Action>, k: Key)
    requires Possible(m, run) && k in m.seats
    ensures k in After(m, run).seats
    decreases |run|
  {
    if run != [] {
      SeatsStay(m, Front(run), k);
      NeverBack(After(m, Front(run)), Last(run), k);
    }
  }

  lemma {:induction false} SupervisorLaunched(m: State, t: Thread, dir: string, sid: nat)
    requires Attends(m, t) && Supervises(t, dir, sid)
    ensures sid in m.launched
  {
    if t.Holding? {
      SupervisorLaunched(m, t.next, dir, sid);
    }
  }
}
