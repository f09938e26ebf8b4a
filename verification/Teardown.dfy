/** Taking seat sessions down: supervisors, StopSession and StopSeat at the same time, one lock-protected section a step. */
module Teardown {

  /** A seat's log file and its Wayland link. */
  datatype Handle = Log | Link

  datatype Seat = Seat(running: bool, handles: set<Handle>)

  /** Session number and seat id. Every launch has its own number. */
  type Key = (nat, string)

  /** Who stops a session: somebody from outside, or the supervisor of session `sid`. */
  datatype Stopper = User | Supervisor(sid: nat)

  /** Where a goroutine is, with what it still has to do.
      - a supervisor waits for the exits of `pending`, then checks whether its directory has a session, then may stop it
      - StopSession removes the session from the table, marks its seats, and takes each seat's handles
      - StopSeat finds one seat and takes its handles
      - whoever took handles out of a seat closes them before going on */
  datatype Thread =
    | Draining(sid: nat, dir: string, pending: set<string>)
    | Checking(sid: nat, dir: string)
    | StopLookup(dir: string, caller: Stopper)
    | Marking(sid: nat)
    | Stopping(sid: nat, rest: set<string>)
    | SeatLookup(dir: string, seat: string)
    | SeatStopping(key: Key)
    | Holding(key: Key, handles: set<Handle>, next: Thread)
    | Finished

  /** The session table, all seats ever launched, what they were launched with, the goroutines, how often each handle
      was closed, the sessions launched, and those whose supervisor has seen every exit. */
  datatype State = State(
    sessions: map<string, nat>,
    seats: map<Key, Seat>,
    had: map<Key, set<Handle>>,
    threads: map<nat, Thread>,
    closed: multiset<(Key, Handle)>,
    launched: set<nat>,
    drained: set<nat>)

  datatype Action =
    | Launch(dir: string, sid: nat, seats: map<string, set<Handle>>, tid: nat)
    | CallStopSession(dir: string, tid: nat)
    | CallStopSeat(dir: string, seat: string, tid: nat)
    | Step(tid: nat, seat: string)

  function NamesOf(seats: map<Key, Seat>, sid: nat): set<string>
  {
    set k | k in seats && k.0 == sid :: k.1
  }

  predicate Enabled(m: State, a: Action)
  {
    match a
    case Launch(_, sid, _, tid) => tid !in m.threads && sid !in m.launched
    case CallStopSession(_, tid) => tid !in m.threads
    case CallStopSeat(_, _, tid) => tid !in m.threads
    case Step(tid, seat) =>
      tid in m.threads && CanStep(m, m.threads[tid], seat)
  }

  predicate CanStep(m: State, t: Thread, seat: string)
  {
    match t
    case Draining(sid, _, pending) => pending == {} || (seat in pending && (sid, seat) in m.seats)
    case Stopping(sid, rest) => rest == {} || (seat in rest && (sid, seat) in m.seats)
    case SeatStopping(key) => key in m.seats
    case Finished => false
    case _ => true
  }

  /** One section under the lock: the seat is marked stopped and its handles change hands. */
  function Take(m: State, tid: nat, key: Key, next: Thread): State
    requires key in m.seats
  {
    m.(seats := m.seats[key := Seat(false, {})], threads := m.threads[tid := Holding(key, m.seats[key].handles, next)])
  }

  function Become(m: State, tid: nat, t: Thread): State
  {
    m.(threads := m.threads[tid := t])
  }

  function Closing(key: Key, handles: set<Handle>): multiset<(Key, Handle)>
  {
    (if Log in handles then multiset{(key, Log)} else multiset{}) + (if Link in handles then multiset{(key, Link)} else multiset{})
  }

  function StepThread(m: State, tid: nat, t: Thread, seat: string): State
    requires CanStep(m, t, seat)
  {
    match t
    case Draining(sid, dir, pending) =>
      if pending == {} then Become(m, tid, Checking(sid, dir)).(drained := m.drained + {sid})
      else Take(m, tid, (sid, seat), Draining(sid, dir, pending - {seat}))
    case Checking(sid, dir) => Become(m, tid, if dir in m.sessions then StopLookup(dir, Supervisor(sid)) else Finished)
    case StopLookup(dir, _) =>
      if dir in m.sessions then Become(m, tid, Marking(m.sessions[dir])).(sessions := m.sessions - {dir}) else Become(m, tid, Finished)
    case Marking(sid) =>
      Become(m, tid, Stopping(sid, NamesOf(m.seats, sid)))
        .(seats := map k | k in m.seats :: if k.0 == sid then m.seats[k].(running := false) else m.seats[k])
    case Stopping(sid, rest) =>
      if rest == {} then Become(m, tid, Finished) else Take(m, tid, (sid, seat), Stopping(sid, rest - {seat}))
    case SeatLookup(dir, name) =>
      Become(m, tid, if dir in m.sessions && (m.sessions[dir], name) in m.seats then SeatStopping((m.sessions[dir], name)) else Finished)
    case SeatStopping(key) => Take(m, tid, key, Finished)
    case Holding(key, handles, next) => Become(m, tid, next).(closed := m.closed + Closing(key, handles))
    case Finished => m
  }

  function Next(m: State, a: Action): State
    requires Enabled(m, a)
  {
    match a
    case Launch(dir, sid, seats, tid) =>
      m.(launched := m.launched + {sid},
         sessions := m.sessions[dir := sid],
         seats := map k | k in m.seats.Keys + KeysOf(sid, seats) :: if k in m.seats then m.seats[k] else Seat(true, seats[k.1]),
         had := map k | k in m.had.Keys + KeysOf(sid, seats) :: if k in m.had then m.had[k] else seats[k.1],
         threads := m.threads[tid := Draining(sid, dir, seats.Keys)])
    case CallStopSession(dir, tid) => Become(m, tid, StopLookup(dir, User))
    case CallStopSeat(dir, seat, tid) => Become(m, tid, SeatLookup(dir, seat))
    case Step(tid, seat) => StepThread(m, tid, m.threads[tid], seat)
  }

  function KeysOf(sid: nat, seats: map<string, set<Handle>>): set<Key>
  {
    set n | n in seats :: (sid, n)
  }

  const START := State(map[], map[], map[], map[], multiset{}, {}, {})

  function Front(run: seq<Action>): seq<Action>
    requires run != []
  {
    run[..|run| - 1]
  }

  function Last(run: seq<Action>): Action
    requires run != []
  {
    run[|run| - 1]
  }

  /** Every action of the run can happen where it happens. */
  predicate Possible(m: State, run: seq<Action>)
    decreases |run|, 0
  {
    run == [] || (Possible(m, Front(run)) && Enabled(After(m, Front(run)), Last(run)))
  }

  function After(m: State, run: seq<Action>): State
    requires Possible(m, run)
    decreases |run|, 1
  {
    if run == [] then m else Next(After(m, Front(run)), Last(run))
  }

  // ---- Ownership of handles ----

  predicate Holds(m: State, t: nat, key: Key, h: Handle)
  {
    t in m.threads && m.threads[t].Holding? && m.threads[t].key == key && h in m.threads[t].handles
  }

  predicate InSeat(m: State, key: Key, h: Handle)
  {
    key in m.seats && h in m.seats[key].handles
  }

  /** The handle is in its seat, or with one goroutine, or closed, once; one that never was is nowhere. */
  ghost predicate OneOwner(m: State, key: Key, h: Handle)
  {
    && (InSeat(m, key, h) ==> m.closed[(key, h)] == 0 && forall t :: !Holds(m, t, key, h))
    && (forall t :: Holds(m, t, key, h) ==> m.closed[(key, h)] == 0)
    && (forall t, u :: Holds(m, t, key, h) && Holds(m, u, key, h) ==> t == u)
    && m.closed[(key, h)] <= 1
    && (InSeat(m, key, h) || m.closed[(key, h)] == 1 || (exists t :: Holds(m, t, key, h)) <==> key in m.had && h in m.had[key])
  }

  predicate Empty(seat: Seat)
  {
    !seat.running && seat.handles == {}
  }

  /** A supervisor has emptied the seats it no longer waits for; its session was launched. */
  ghost predicate Follows(m: State, t: Thread)
  {
    match t
    case Draining(sid, _, pending) =>
      sid in m.launched && forall k :: k in m.seats && k.0 == sid && k.1 !in pending ==> Empty(m.seats[k])
    case Holding(key, _, next) => !next.Holding? && key in m.seats && Follows(m, next)
    case SeatStopping(key) => key in m.seats
    case _ => true
  }

  /** Seats and sessions belong to launched sessions. */
  ghost predicate Recorded(m: State)
  {
    && m.seats.Keys == m.had.Keys
    && (forall k :: k in m.seats ==> k.0 in m.launched)
    && (forall dir :: dir in m.sessions ==> m.sessions[dir] in m.launched)
  }

  ghost predicate Valid(m: State)
  {
    && Recorded(m)
    && m.drained <= m.launched
    && (forall t :: t in m.threads ==> Follows(m, m.threads[t]))
    && (forall k :: k in m.seats && k.0 in m.drained ==> Empty(m.seats[k]))
    && (forall key, h :: OneOwner(m, key, h))
  }

  /** No step makes a seat run again or gives it a handle. */
  lemma NeverBack(m: State, a: Action, k: Key)
    requires Enabled(m, a) && k in m.seats
    ensures k in Next(m, a).seats
    ensures Next(m, a).seats[k].running ==> m.seats[k].running
    ensures Next(m, a).seats[k].handles <= m.seats[k].handles
  {
  }

  lemma {:induction false} NeverRunsAgain(m: State, run: seq<Action>, k: Key)
    requires Possible(m, run) && k in m.seats && !m.seats[k].running
    ensures k in After(m, run).seats && !After(m, run).seats[k].running
    decreases |run|
  {
    if run != [] {
      NeverRunsAgain(m, Front(run), k);
      NeverBack(After(m, Front(run)), Last(run), k);
    }
  }

  lemma TakeKeepsOwner(m: State, tid: nat, taken: Key, next: Thread, key: Key, h: Handle)
    requires OneOwner(m, key, h) && tid in m.threads && !m.threads[tid].Holding? && taken in m.seats
    ensures OneOwner(Take(m, tid, taken, next), key, h)
  {
    var n := Take(m, tid, taken, next);
    forall t | t != tid ensures Holds(n, t, key, h) == Holds(m, t, key, h) {
    }
    assert Holds(n, tid, key, h) <==> taken == key && InSeat(m, key, h);
    assert InSeat(n, key, h) <==> taken != key && InSeat(m, key, h);
    forall t | Holds(m, t, key, h) ensures Holds(n, t, key, h) {
    }
  }

  lemma {:induction false} ClosingCounts(closed: multiset<(Key, Handle)>, key: Key, handles: set<Handle>, k: Key, h: Handle)
    ensures (closed + Closing(key, handles))[(k, h)] == closed[(k, h)] + if k == key && h in handles then 1 else 0
  {
    match h
    case Log =>
    case Link =>
  }

  lemma CloseKeepsOwner(m: State, tid: nat, key: Key, h: Handle)
    requires OneOwner(m, key, h) && tid in m.threads && m.threads[tid].Holding? && !m.threads[tid].next.Holding?
    ensures OneOwner(StepThread(m, tid, m.threads[tid], ""), key, h)
  {
    var t := m.threads[tid];
    var n := StepThread(m, tid, t, "");
    ClosingCounts(m.closed, t.key, t.handles, key, h);
    ClosedOrHeld(m, n, tid, key, h);
  }

  /** The goroutine lets go of what it held, which is closed once more. */
  lemma {:induction false} ClosedOrHeld(m: State, n: State, tid: nat, key: Key, h: Handle)
    requires OneOwner(m, key, h) && InSeat(n, key, h) == InSeat(m, key, h) && n.had == m.had
    requires n.closed[(key, h)] == m.closed[(key, h)] + if Holds(m, tid, key, h) then 1 else 0
    requires !Holds(n, tid, key, h) && forall u :: u != tid ==> Holds(n, u, key, h) == Holds(m, u, key, h)
    ensures OneOwner(n, key, h)
  {
    if t :| Holds(m, t, key, h) && t != tid {
      assert Holds(n, t, key, h);
    }
  }

  /** A step that moves no handle: same seats' handles, same holders. */
  lemma SameOwner(m: State, n: State, key: Key, h: Handle)
    requires OneOwner(m, key, h) && n.closed == m.closed
    requires InSeat(n, key, h) == InSeat(m, key, h) && forall t :: Holds(n, t, key, h) == Holds(m, t, key, h)
    requires (key in n.had && h in n.had[key]) == (key in m.had && h in m.had[key])
    ensures OneOwner(n, key, h)
  {
  }

  // ---- Every step keeps this ----

  /** Seats stay, empty ones stay empty, and new ones belong to new sessions. */
  ghost predicate Onward(m: State, n: State)
  {
    && m.launched <= n.launched
    && (forall k :: k in m.seats ==> k in n.seats && (Empty(m.seats[k]) ==> Empty(n.seats[k])))
    && (forall k :: k in n.seats && k !in m.seats ==> k.0 !in m.launched)
  }

  lemma {:induction false} FollowsStays(m: State, n: State, t: Thread)
    requires Onward(m, n) && Follows(m, t)
    ensures Follows(n, t)
  {
    match t
    case Draining(sid, _, pending) =>
    case Holding(key, _, next) =>
      FollowsStays(m, n, next);
    case _ =>
  }

  lemma {:induction false} StepsOnward(m: State, a: Action)
    requires Valid(m) && Enabled(m, a)
    ensures Onward(m, Next(m, a))
  {
    forall k | k in m.seats ensures k in Next(m, a).seats && (Empty(m.seats[k]) ==> Empty(Next(m, a).seats[k])) {
      NeverBack(m, a, k);
    }
  }

  /** Only the acting goroutine changes. */
  lemma {:induction false} OthersStay(m: State, a: Action, t: nat)
    requires Enabled(m, a) && t in m.threads && (a.Step? ==> t != a.tid)
    ensures t in Next(m, a).threads && Next(m, a).threads[t] == m.threads[t]
  {
    if a.Step? {
      StepLeavesOthers(m, a.tid, m.threads[a.tid], a.seat, t);
    }
  }

  lemma {:induction false} StepLeavesOthers(m: State, tid: nat, t: Thread, seat: string, u: nat)
    requires CanStep(m, t, seat) && u != tid && u in m.threads
    ensures var n := StepThread(m, tid, t, seat); u in n.threads && n.threads[u] == m.threads[u]
  {
    match t
    case Draining(_, _, _) =>
    case Checking(_, _) =>
    case StopLookup(_, _) =>
    case Marking(_) =>
    case Stopping(_, _) =>
    case SeatLookup(_, _) =>
    case SeatStopping(_) =>
    case Holding(_, _, _) =>
    case Finished =>
  }

  lemma ActorFollows(m: State, tid: nat, seat: string)
    requires Valid(m) && Enabled(m, Step(tid, seat))
    ensures var n := Next(m, Step(tid, seat)); tid in n.threads && Follows(n, n.threads[tid])
  {
    var t := m.threads[tid];
    var n := Next(m, Step(tid, seat));
    StepsOnward(m, Step(tid, seat));
    assert Follows(m, t);
    match t
    case Draining(sid, dir, pending) =>
      if pending != {} {
        assert Follows(n, Draining(sid, dir, pending - {seat}));
      }
    case Holding(_, _, next) =>
      FollowsStays(m, n, next);
    case _ =>
  }

  lemma StartersFollow(m: State, a: Action)
    requires Valid(m) && Enabled(m, a) && !a.Step?
    ensures a.tid in Next(m, a).threads && Follows(Next(m, a), Next(m, a).threads[a.tid])
  {
  }

  lemma ThreadFollows(m: State, a: Action, t: nat)
    requires Valid(m) && Enabled(m, a) && t in Next(m, a).threads
    ensures Follows(Next(m, a), Next(m, a).threads[t])
  {
    if t != a.tid {
      StaysThread(m, a, t);
      OthersStay(m, a, t);
      StepsOnward(m, a);
      FollowsStays(m, Next(m, a), m.threads[t]);
    } else if a.Step? {
      ActorFollows(m, a.tid, a.seat);
    } else {
      StartersFollow(m, a);
    }
  }

  /** Only the acting goroutine can be new. */
  lemma StaysThread(m: State, a: Action, t: nat)
    requires Enabled(m, a) && t in Next(m, a).threads && t != a.tid
    ensures t in m.threads
  {
  }

  lemma StepFollows(m: State, a: Action)
    requires Valid(m) && Enabled(m, a)
    ensures forall t :: t in Next(m, a).threads ==> Follows(Next(m, a), Next(m, a).threads[t])
  {
    forall t | t in Next(m, a).threads ensures Follows(Next(m, a), Next(m, a).threads[t]) {
      ThreadFollows(m, a, t);
    }
  }

  lemma StepOwner(m: State, a: Action, key: Key, h: Handle)
    requires Valid(m) && Enabled(m, a)
    ensures OneOwner(Next(m, a), key, h)
  {
    assert OneOwner(m, key, h);
    if a.Step? {
      ThreadOwner(m, a.tid, a.seat, key, h);
    } else {
      StarterOwner(m, a, key, h);
    }
  }

  lemma StarterOwner(m: State, a: Action, key: Key, h: Handle)
    requires Valid(m) && Enabled(m, a) && !a.Step? && OneOwner(m, key, h)
    ensures OneOwner(Next(m, a), key, h)
  {
    var n := Next(m, a);
    StarterHolders(m, a, key, h);
    if a.Launch? && key.0 == a.sid {
      assert key !in m.seats && key !in m.had;
      assert InSeat(n, key, h) <==> key in n.had && h in n.had[key];
    } else {
      LaunchKeepsOthers(m, a, key, h);
      SameOwner(m, n, key, h);
    }
  }

  lemma StarterHolders(m: State, a: Action, key: Key, h: Handle)
    requires Enabled(m, a) && !a.Step?
    ensures Next(m, a).closed == m.closed && forall t :: Holds(Next(m, a), t, key, h) == Holds(m, t, key, h)
  {
  }

  lemma LaunchKeepsOthers(m: State, a: Action, key: Key, h: Handle)
    requires Valid(m) && Enabled(m, a) && !a.Step? && (a.Launch? ==> key.0 != a.sid)
    ensures InSeat(Next(m, a), key, h) == InSeat(m, key, h)
    ensures (key in Next(m, a).had && h in Next(m, a).had[key]) == (key in m.had && h in m.had[key])
  {
  }

  /** The steps that take a seat's handles, and from which seat. */
  predicate Takes(t: Thread)
  {
    t.SeatStopping? || (t.Draining? && t.pending != {}) || (t.Stopping? && t.rest != {})
  }

  function SeatOf(t: Thread, seat: string): Key
    requires Takes(t)
  {
    match t
    case Draining(sid, _, _) => (sid, seat)
    case Stopping(sid, _) => (sid, seat)
    case SeatStopping(key) => key
  }

  function NextOf(t: Thread, seat: string): Thread
    requires Takes(t)
  {
    match t
    case Draining(sid, dir, pending) => Draining(sid, dir, pending - {seat})
    case Stopping(sid, rest) => Stopping(sid, rest - {seat})
    case SeatStopping(_) => Finished
  }

  lemma ThreadOwner(m: State, tid: nat, seat: string, key: Key, h: Handle)
    requires Valid(m) && Enabled(m, Step(tid, seat)) && OneOwner(m, key, h)
    ensures OneOwner(Next(m, Step(tid, seat)), key, h)
  {
    var t := m.threads[tid];
    assert Follows(m, t);
    if Takes(t) {
      TakeKeepsOwner(m, tid, SeatOf(t, seat), NextOf(t, seat), key, h);
    } else if t.Holding? {
      CloseKeepsOwner(m, tid, key, h);
    } else {
      QuietStep(m, tid, t, seat, key, h);
      QuietOwner(m, StepThread(m, tid, t, seat), tid, key, h);
    }
  }

  /** The other steps move no handle. */
  lemma {:induction false} QuietStep(m: State, tid: nat, t: Thread, seat: string, key: Key, h: Handle)
    requires tid in m.threads && m.threads[tid] == t && CanStep(m, t, seat) && !Takes(t) && !t.Holding?
    ensures var n := StepThread(m, tid, t, seat);
      && n.closed == m.closed && n.had == m.had && InSeat(n, key, h) == InSeat(m, key, h)
      && tid in n.threads && !n.threads[tid].Holding? && n.threads == m.threads[tid := n.threads[tid]]
  {
    match t
    case Draining(_, _, _) =>
    case Checking(_, _) =>
    case StopLookup(_, _) =>
    case Marking(_) =>
    case Stopping(_, _) =>
    case SeatLookup(_, _) =>
  }

  /** A goroutine that holds nothing before and after, and seats that keep their handles. */
  lemma QuietOwner(m: State, n: State, tid: nat, key: Key, h: Handle)
    requires OneOwner(m, key, h) && tid in m.threads && tid in n.threads
    requires n.closed == m.closed && n.had == m.had && InSeat(n, key, h) == InSeat(m, key, h)
    requires !m.threads[tid].Holding? && !n.threads[tid].Holding? && n.threads == m.threads[tid := n.threads[tid]]
    ensures OneOwner(n, key, h)
  {
    forall t ensures Holds(n, t, key, h) == Holds(m, t, key, h) {
    }
    SameOwner(m, n, key, h);
  }

  lemma {:induction false} DrainedEmpty(m: State, a: Action)
    requires Valid(m) && Enabled(m, a)
    ensures var n := Next(m, a); n.drained <= n.launched && forall k :: k in n.seats && k.0 in n.drained ==> Empty(n.seats[k])
  {
    var n := Next(m, a);
    StepsOnward(m, a);
    if a.Step? {
      assert Follows(m, m.threads[a.tid]);
    }
  }

  lemma StepKeepsValid(m: State, a: Action)
    requires Valid(m) && Enabled(m, a)
    ensures Valid(Next(m, a))
  {
    StepFollows(m, a);
    DrainedEmpty(m, a);
    StepKeepsRecords(m, a);
    forall key, h ensures OneOwner(Next(m, a), key, h) {
      StepOwner(m, a, key, h);
    }
  }

  lemma {:induction false} StepKeepsRecords(m: State, a: Action)
    requires Recorded(m) && Enabled(m, a)
    ensures Recorded(Next(m, a))
  {
    if a.Step? {
      ThreadKeepsRecords(m, a.tid, m.threads[a.tid], a.seat);
    }
  }

  lemma {:induction false} ThreadKeepsRecords(m: State, tid: nat, t: Thread, seat: string)
    requires Recorded(m) && CanStep(m, t, seat)
    ensures Recorded(StepThread(m, tid, t, seat))
  {
    match t
    case Draining(_, _, _) =>
    case Checking(_, _) =>
    case StopLookup(_, _) =>
    case Marking(_) =>
    case Stopping(_, _) =>
    case SeatLookup(_, _) =>
    case SeatStopping(_) =>
    case Holding(_, _, _) =>
    case Finished =>
  }

  lemma {:induction false} RunKeepsValid(m: State, run: seq<Action>)
    requires Valid(m) && Possible(m, run)
    ensures Valid(After(m, run))
    decreases |run|
  {
    if run != [] {
      RunKeepsValid(m, Front(run));
      StepKeepsValid(After(m, Front(run)), Last(run));
    }
  }

  /** GetStatus: a directory is running if its session has a running seat. */
  predicate IsRunning(m: State, dir: string)
  {
    dir in m.sessions && exists k :: k in m.seats && k.0 == m.sessions[dir] && m.seats[k].running
  }

  /** Only a launch in that directory makes its status running again. */
  lemma {:induction false} StatusStaysOff(m: State, a: Action, dir: string)
    requires Valid(m) && Enabled(m, a) && !IsRunning(m, dir) && !(a.Launch? && a.dir == dir)
    ensures !IsRunning(Next(m, a), dir)
  {
    var n := Next(m, a);
    if dir in n.sessions {
      assert dir in m.sessions && n.sessions[dir] == m.sessions[dir];
      forall k | k in n.seats && k.0 == n.sessions[dir] ensures !n.seats[k].running {
        StepsOnward(m, a);
        assert k in m.seats;
        NeverBack(m, a, k);
      }
    }
  }

  /** Over every interleaving: no handle is closed twice; and once the supervisor of a session has seen every exit and
      nobody is in the middle of closing, every handle of that session has been closed exactly once. */
  lemma {:induction false} HandlesClosedOnce(run: seq<Action>, key: Key, h: Handle)
    requires Possible(START, run)
    ensures var m := After(START, run);
      && m.closed[(key, h)] <= 1
      && (key in m.had && key.0 in m.drained && h in m.had[key] && (forall t :: !Holds(m, t, key, h)) ==> m.closed[(key, h)] == 1)
      && (key in m.seats && key.0 in m.drained ==> !m.seats[key].running)
  {
    StartValid();
    RunKeepsValid(START, run);
    assert OneOwner(After(START, run), key, h);
  }

  lemma {:induction false} StartValid()
    ensures Valid(START)
  {
    forall key, h ensures OneOwner(START, key, h) {
      assert forall t :: !Holds(START, t, key, h);
    }
  }

  // ---- Whose session a supervisor stops ----

  /** A supervisor of directory `dir` that may still stop something. */
  predicate Supervises(t: Thread, dir: string, sid: nat)
  {
    match t
    case Draining(s, d, _) => s == sid && d == dir
    case Checking(s, d) => s == sid && d == dir
    case StopLookup(d, caller) => caller == Supervisor(sid) && d == dir
    case Holding(_, _, next) => Supervises(next, dir, sid)
    case _ => false
  }

  /** Sessions are launched in a directory only after the supervisor of the one before is through. */
  ghost predicate Orderly(m: State, a: Action)
  {
    a.Launch? ==> forall t, sid :: t in m.threads ==> !Supervises(m.threads[t], a.dir, sid)
  }

  /** What a supervisor finds in the table is its own session. */
  ghost predicate StopsOwn(m: State)
  {
    forall t, dir, sid :: t in m.threads && Supervises(m.threads[t], dir, sid) && dir in m.sessions ==> m.sessions[dir] == sid
  }

  lemma OrderlyStopsOwn(m: State, a: Action)
    requires Enabled(m, a) && StopsOwn(m) && Orderly(m, a)
    ensures StopsOwn(Next(m, a))
  {
    var n := Next(m, a);
    forall t, dir, sid | t in n.threads && Supervises(n.threads[t], dir, sid) && dir in n.sessions ensures n.sessions[dir] == sid {
      if t != a.tid {
        OthersStay(m, a, t);
        assert Supervises(m.threads[t], dir, sid);
      } else if a.Step? {
        SupervisedBefore(m, t, m.threads[t], a.seat, dir, sid);
      }
    }
  }

  lemma {:induction false} SupervisedBefore(m: State, tid: nat, t: Thread, seat: string, dir: string, sid: nat)
    requires CanStep(m, t, seat)
    requires var n := StepThread(m, tid, t, seat); tid in n.threads && Supervises(n.threads[tid], dir, sid)
    ensures tid in m.threads && t == m.threads[tid] ==> Supervises(t, dir, sid)
    ensures StepThread(m, tid, t, seat).sessions == m.sessions
  {
    match t
    case Draining(_, _, _) =>
    case Checking(_, _) =>
    case StopLookup(_, _) =>
    case Marking(_) =>
    case Stopping(_, _) =>
    case SeatLookup(_, _) =>
    case SeatStopping(_) =>
    case Holding(_, _, _) =>
    case Finished =>
  }

  /** With orderly launches no supervisor ever stops another session than its own. */
  lemma {:induction false} SupervisorStopsOwn(m: State, run: seq<Action>)
    requires Possible(m, run) && StopsOwn(m) && OrderlyRun(m, run)
    ensures StopsOwn(After(m, run))
    decreases |run|
  {
    if run != [] {
      SupervisorStopsOwn(m, Front(run));
      OrderlyStopsOwn(After(m, Front(run)), Last(run));
    }
  }

  ghost predicate OrderlyRun(m: State, run: seq<Action>)
    requires Possible(m, run)
    decreases |run|
  {
    run == [] || (OrderlyRun(m, Front(run)) && Orderly(After(m, Front(run)), Last(run)))
  }

  ghost predicate Reached(m: State)
  {
    exists run :: Possible(START, run) && After(START, run) == m
  }

  lemma {:induction false} OneMore(m: State, run: seq<Action>, a: Action)
    requires Possible(m, run) && Enabled(After(m, run), a)
    ensures Possible(m, run + [a]) && After(m, run + [a]) == Next(After(m, run), a)
  {
    assert Front(run + [a]) == run;
  }

  lemma ReachMore(m: State, a: Action)
    requires Reached(m) && Enabled(m, a)
    ensures Reached(Next(m, a))
  {
    var run :| Possible(START, run) && After(START, run) == m;
    OneMore(START, run, a);
  }

  /** Goroutine 0 is the only one, in this place, and session 1 the only one. */
  predicate Alone(m: State, t: Thread, dir: string)
  {
    m.threads.Keys == {0} && m.threads[0] == t && m.sessions.Keys == {dir} && m.sessions[dir] == 1 && m.launched == {1}
  }

  lemma LaunchFirst(dir: string, seat: string) returns (m: State)
    ensures Reached(m) && Alone(m, Draining(1, dir, {seat}), dir) && (1, seat) in m.seats
  {
    var seats: map<string, set<Handle>> := map[seat := {}];
    assert Possible(START, []) && After(START, []) == START;
    ReachMore(START, Launch(dir, 1, seats, 0));
    m := Next(START, Launch(dir, 1, seats, 0));
    assert seats.Keys == {seat};
  }

  lemma SeatTaken(dir: string, seat: string) returns (m: State, handles: set<Handle>)
    ensures Reached(m) && Alone(m, Holding((1, seat), handles, Draining(1, dir, {})), dir)
  {
    var before := LaunchFirst(dir, seat);
    ReachMore(before, Step(0, seat));
    m := Next(before, Step(0, seat));
    assert {seat} - {seat} == {};
    handles := before.seats[(1, seat)].handles;
  }

  lemma SeatClosed(dir: string, seat: string) returns (m: State)
    ensures Reached(m) && Alone(m, Draining(1, dir, {}), dir)
  {
    var before, handles := SeatTaken(dir, seat);
    ReachMore(before, Step(0, seat));
    m := Next(before, Step(0, seat));
  }

  lemma AllExited(dir: string, seat: string) returns (m: State)
    ensures Reached(m) && Alone(m, Checking(1, dir), dir)
  {
    var before := SeatClosed(dir, seat);
    ReachMore(before, Step(0, seat));
    m := Next(before, Step(0, seat));
  }

  lemma UserCalls(dir: string, seat: string) returns (m: State)
    ensures Reached(m) && m.threads.Keys == {0, 1} && m.threads[0] == Checking(1, dir) && m.threads[1] == StopLookup(dir, User)
    ensures m.sessions.Keys == {dir} && m.launched == {1}
  {
    var before := AllExited(dir, seat);
    ReachMore(before, CallStopSession(dir, 1));
    m := Next(before, CallStopSession(dir, 1));
  }

  lemma StoppedByUser(dir: string, seat: string) returns (m: State)
    ensures Reached(m) && m.threads.Keys == {0, 1} && m.threads[0] == Checking(1, dir) && m.sessions == map[] && m.launched == {1}
  {
    var before := UserCalls(dir, seat);
    ReachMore(before, Step(1, seat));
    m := Next(before, Step(1, seat));
  }

  /** It comes up: the only seat exits, somebody stops the session, and the game is launched again
      before the first supervisor looks. */
  lemma RelaunchBeforeCheck(dir: string, seat: string) returns (m: State)
    ensures Reached(m) && 0 in m.threads && m.threads[0] == Checking(1, dir)
    ensures dir in m.sessions && m.sessions[dir] == 2 && (2, seat) in m.seats && m.seats[(2, seat)].running
  {
    var stopped := StoppedByUser(dir, seat);
    var seats: map<string, set<Handle>> := map[seat := {}];
    OnlyLaunchedSeats(stopped, (2, seat));
    ReachMore(stopped, Launch(dir, 2, seats, 2));
    m := Next(stopped, Launch(dir, 2, seats, 2));
  }

  lemma OnlyLaunchedSeats(m: State, k: Key)
    requires Reached(m) && k.0 !in m.launched
    ensures k !in m.seats
  {
    var run :| Possible(START, run) && After(START, run) == m;
    StartValid();
    RunKeepsValid(START, run);
  }
}
