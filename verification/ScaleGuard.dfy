/** ScaleGuard: display scales locked to 1 for a session, with a write-ahead record of the scales to put back. */
module ScaleGuards {
  import opened Text

  type Scales = map<string, real>

  /** The state file: absent, unreadable, or a record of original scales. */
  datatype File = Missing | Broken | Record(scales: Scales)

  /** What survives a crash. */
  datatype Durable = Durable(scales: Scales, file: File)

  /** What a crash loses is `locked`, the guard's memory of original scales. */
  datatype State = State(durable: Durable, locked: Scales)

  datatype Display = Display(index: int, name: string, scale: real)

  // ---- External effects ----

  /** A write to the state file: done, cut short, or refused. */
  datatype Write = Done | Torn | Refused

  /** A command: the displays it changed, and whether it reported success. A successful command changed all it was told to. */
  datatype Command = Command(changed: set<string>, ok: bool)

  predicate Plausible(c: Command, targets: set<string>)
  {
    c.changed <= targets && (c.ok ==> c.changed == targets)
  }

  /** Some displays set to the given scales. */
  function SetTo(scales: Scales, changed: set<string>, target: Scales): Scales
    requires changed <= target.Keys
  {
    map d | d in scales :: if d in changed then target[d] else scales[d]
  }

  function AllOnes(names: set<string>): Scales
  {
    map d | d in names :: 1.0
  }

  // ---- The guard's steps, one external effect each ----

  predicate Deviates(scale: real)
  {
    scale - 1.0 > 0.001 || 1.0 - scale > 0.001
  }

  /** Original scales are remembered once. */
  function Remember(locked: Scales, names: set<string>, scales: Scales): Scales
    requires names <= scales.Keys
  {
    map d | d in locked.Keys + names :: if d in locked then locked[d] else scales[d]
  }

  function AfterWrite(s: State, w: Write): State
  {
    if s.locked == map[] then s else
      match w
      case Done => s.(durable := s.durable.(file := Record(s.locked)))
      case Torn => s.(durable := s.durable.(file := Broken))
      case Refused => s
  }

  function AfterLock(s: State, c: Command, targets: set<string>): State
    requires Plausible(c, targets)
  {
    s.(durable := s.durable.(scales := SetTo(s.durable.scales, c.changed, AllOnes(targets))))
  }

  function AfterRestore(s: State, c: Command): State
    requires Plausible(c, s.locked.Keys)
  {
    s.(durable := s.durable.(scales := SetTo(s.durable.scales, c.changed, s.locked)))
  }

  /** The record is removed, unless that fails, which nobody checks. */
  function AfterRemove(s: State, removed: bool): State
  {
    s.(durable := s.durable.(file := if removed then Missing else s.durable.file))
  }

  function Recorded(f: File): Scales
  {
    if f.Record? then f.scales else map[]
  }

  function AfterRecovery(s: State, c: Command): State
    requires Plausible(c, Recorded(s.durable.file).Keys)
  {
    s.(durable := s.durable.(scales := SetTo(s.durable.scales, c.changed, Recorded(s.durable.file))))
  }

  // ---- The guard ----

  /** Position of the first display with this index, or the length. */
  function Position(displays: seq<Display>, idx: int): (i: nat)
    ensures i <= |displays| && (i < |displays| ==> displays[i].index == idx) && forall j :: 0 <= j < i ==> displays[j].index != idx
  {
    if displays == [] || displays[0].index == idx then 0 else 1 + Position(displays[1..], idx)
  }

  /** The display with this index, or the first one. */
  function Chosen(displays: seq<Display>, idx: int): Display
    requires displays != []
  {
    var i := Position(displays, idx);
    displays[if i < |displays| then i else 0]
  }

  /** Negative indices do not count; none at all means display 0. */
  function Indices(indices: seq<int>): set<int>
  {
    var s := set i | i in indices && i >= 0;
    if s == {} then {0} else s
  }

  predicate NeedsLock(d: Display)
  {
    d.name != "" && Deviates(d.scale)
  }

  /** The connectors of the chosen displays whose scale deviates from 1. */
  function Targets(displays: seq<Display>, idxs: set<int>): set<string>
    requires displays != []
  {
    set i | i in idxs && NeedsLock(Chosen(displays, i)) :: Chosen(displays, i).name
  }

  /** What DetectDisplays lists is what the displays are set to. */
  predicate Detected(displays: seq<Display>, scales: Scales)
  {
    forall i :: 0 <= i < |displays| && displays[i].name != "" ==>
      displays[i].name in scales && scales[displays[i].name] == displays[i].scale
  }

  class Desktop {
    var scales: Scales
    var file: File

    ghost function Now(): Durable
      reads this
    {
      Durable(scales, file)
    }
  }

  class ScaleGuard {
    const desktop: Desktop
    const hasTool: bool
    const hasPath: bool
    var originalScales: Scales

    constructor (desktop: Desktop, hasTool: bool, hasPath: bool)
      ensures this.desktop == desktop && this.hasTool == hasTool && this.hasPath == hasPath && originalScales == map[]
    {
      this.desktop, this.hasTool, this.hasPath := desktop, hasTool, hasPath;
      originalScales := map[];
    }

    ghost function Now(): State
      reads this, desktop
    {
      State(desktop.Now(), originalScales)
    }

    /** LockDisplays. `write` and `command` are what the operating system makes of the two effects; the record
        is written before any scale changes, and an error of the write is not looked at. */
    method LockDisplays(displays: seq<Display>, indices: seq<int>, write: Write, command: set<string> -> Command) returns (ok: bool)
      requires Detected(displays, desktop.scales)
      requires forall t :: Plausible(command(t), t)
      modifies this, desktop
      ensures var s, t := old(Now()), if displays == [] then {} else Targets(displays, Indices(indices));
        && t <= s.durable.scales.Keys
        && var kept := State(s.durable, Remember(s.locked, t, s.durable.scales));
        if !hasTool || t == {} then ok && Now() == s
        else ok == command(t).ok
             && Now() == AfterLock(if hasPath then AfterWrite(kept, write) else kept, command(t), t)
    {
      if !hasTool || |displays| == 0 {
        TargetsDetected(displays, indices, desktop.scales);
        return true;
      }
      TargetsDetected(displays, indices, desktop.scales);
      ghost var t := Targets(displays, Indices(indices));
      var toLock := CollectTargets(displays, indices);
      if toLock == {} {
        return true;
      }
      PersistLockedScales(write);
      var c := command(toLock);
      desktop.scales := SetTo(desktop.scales, c.changed, AllOnes(toLock));
      ok := c.ok;
    }

    /** Collects the displays to lock and remembers their scales. */
    method CollectTargets(displays: seq<Display>, indices: seq<int>) returns (toLock: set<string>)
      requires displays != [] && Detected(displays, desktop.scales)
      requires Targets(displays, Indices(indices)) <= desktop.scales.Keys
      modifies this
      ensures toLock == Targets(displays, Indices(indices))
      ensures originalScales == if toLock == {} then old(originalScales) else Remember(old(originalScales), toLock, desktop.scales)
    {
      ghost var idxs := Indices(indices);
      var todo := Indices(indices);
      toLock := {};
      while todo != {}
        invariant todo <= idxs && toLock == Targets(displays, idxs - todo)
        invariant toLock <= desktop.scales.Keys
        invariant originalScales == Remember(old(originalScales), toLock, desktop.scales)
        decreases todo
      {
        var idx :| idx in todo;
        ghost var done := idxs - todo;
        todo := todo - {idx};
        assert idxs - todo == done + {idx};
        ghost var before := toLock;
        var target := Find(displays, idx);
        TargetsMore(displays, done, idx);
        ChosenDetected(displays, idx, desktop.scales);
        if target.name != "" && Deviates(target.scale) {
          RememberMore(old(originalScales), before, target.name, desktop.scales);
          if target.name !in originalScales {
            originalScales := originalScales[target.name := target.scale];
          }
          toLock := toLock + {target.name};
        }
      }
      assert idxs - todo == idxs;
    }

    method PersistLockedScales(write: Write)
      modifies desktop
      ensures desktop.scales == old(desktop.scales)
      ensures Now() == if hasPath then AfterWrite(old(Now()), write) else old(Now())
    {
      if !hasPath || originalScales == map[] {
        return;
      }
      match write {
        case Done => desktop.file := Record(originalScales);
        case Torn => desktop.file := Broken;
        case Refused =>
      }
    }

    /** Restore: the memory and the record go only after the command succeeded. */
    method Restore(command: set<string> -> Command, removed: bool) returns (ok: bool)
      requires forall t :: Plausible(command(t), t)
      modifies this, desktop
      ensures var s, c := old(Now()), command(old(originalScales).Keys);
        var rest := AfterRestore(s, c);
        if s.locked == map[] || !hasTool then ok && Now() == (if hasPath then AfterRemove(s, removed) else s)
        else ok == c.ok
             && Now() == (if !c.ok then rest
                          else if hasPath then AfterRemove(rest.(locked := map[]), removed) else rest.(locked := map[]))
    {
      if originalScales == map[] || !hasTool {
        RemoveStateFile(removed);
        return true;
      }
      var c := command(originalScales.Keys);
      desktop.scales := SetTo(desktop.scales, c.changed, originalScales);
      if !c.ok {
        return false;
      }
      originalScales := map[];
      RemoveStateFile(removed);
      ok := true;
    }

    method RemoveStateFile(removed: bool)
      modifies desktop
      ensures Now() == if hasPath then AfterRemove(old(Now()), removed) else old(Now())
    {
      if hasPath && removed {
        desktop.file := Missing;
      }
    }

    /** RecoverOrphanedLocks: the command's error is ignored, and the record is removed whatever happened. */
    method RecoverOrphanedLocks(command: set<string> -> Command, removed: bool)
      requires forall t :: Plausible(command(t), t)
      modifies desktop
      ensures var s := old(Now());
        Now() == if !hasPath || !hasTool || s.durable.file.Missing? then s
                 else AfterRemove(if Recorded(s.durable.file) == map[] then s
                                  else AfterRecovery(s, command(Recorded(s.durable.file).Keys)), removed)
    {
      if !hasPath || !hasTool {
        return;
      }
      if desktop.file.Missing? {
        return;
      }
      if desktop.file.Broken? || desktop.file.scales == map[] {
        RemoveStateFile(removed);
        return;
      }
      var c := command(desktop.file.scales.Keys);
      desktop.scales := SetTo(desktop.scales, c.changed, desktop.file.scales);
      RemoveStateFile(removed);
    }
  }

  method Find(displays: seq<Display>, idx: int) returns (d: Display)
    requires displays != []
    ensures d == Chosen(displays, idx)
  {
    for i := 0 to |displays|
      invariant forall j :: 0 <= j < i ==> displays[j].index != idx
    {
      if displays[i].index == idx {
        return displays[i];
      }
    }
    d := displays[0];
  }

  lemma ChosenDetected(displays: seq<Display>, idx: int, scales: Scales)
    requires displays != [] && Detected(displays, scales)
    ensures var d := Chosen(displays, idx); d.name != "" ==> d.name in scales && scales[d.name] == d.scale
  {
  }

  // ---- Which displays are locked ----

  /** The index counts: it is asked for and not negative, or it is 0 and no other counts. */
  predicate Asked(indices: seq<int>, idx: int)
  {
    (idx in indices && idx >= 0) || (idx == 0 && forall i :: i in indices ==> i < 0)
  }

  /** Display k stands for the index: the first display with it, or the first of all if there is none. */
  predicate StandsFor(displays: seq<Display>, idx: int, k: nat)
    requires k < |displays|
  {
    if displays[k].index == idx then forall j :: 0 <= j < k ==> displays[j].index != idx
    else k == 0 && forall j :: 0 <= j < |displays| ==> displays[j].index != idx
  }

  /** Display k takes part in the session. */
  ghost predicate TakesPart(displays: seq<Display>, indices: seq<int>, k: nat)
    requires k < |displays|
  {
    exists idx :: Asked(indices, idx) && StandsFor(displays, idx, k)
  }

  lemma IndicesAsked(indices: seq<int>, idx: int)
    ensures idx in Indices(indices) <==> Asked(indices, idx)
  {
    var s := set i | i in indices && i >= 0;
    if s == {} {
      forall i | i in indices ensures i < 0 {
        assert i !in s;
      }
    } else {
      var i :| i in s;
    }
  }

  lemma ChosenStands(displays: seq<Display>, idx: int, k: nat)
    requires k < |displays| && StandsFor(displays, idx, k)
    ensures Chosen(displays, idx) == displays[k]
  {
    var i := Position(displays, idx);
  }

  /** Exactly the displays that take part, have a name and are more than a thousandth away from scale 1 are locked. */
  lemma {:induction false} LockedExactly(displays: seq<Display>, indices: seq<int>, name: string)
    requires displays != []
    ensures name in Targets(displays, Indices(indices)) <==>
              exists k :: 0 <= k < |displays| && TakesPart(displays, indices, k) && displays[k].name == name && name != ""
                          && (displays[k].scale > 1.001 || displays[k].scale < 0.999)
  {
    forall idx ensures idx in Indices(indices) <==> Asked(indices, idx) {
      IndicesAsked(indices, idx);
    }
    if name in Targets(displays, Indices(indices)) {
      var idx :| idx in Indices(indices) && NeedsLock(Chosen(displays, idx)) && Chosen(displays, idx).name == name;
      var i := Position(displays, idx);
      var k := if i < |displays| then i else 0;
      assert Asked(indices, idx) && StandsFor(displays, idx, k);
    }
    if k :| 0 <= k < |displays| && TakesPart(displays, indices, k) && displays[k].name == name && name != ""
            && (displays[k].scale > 1.001 || displays[k].scale < 0.999) {
      var idx :| Asked(indices, idx) && StandsFor(displays, idx, k);
      ChosenStands(displays, idx, k);
      assert idx in Indices(indices);
    }
  }

  /** After a lock that succeeded every display that takes part is within a thousandth of scale 1, and the scale of every
      other display is what it was. */
  lemma {:induction false} LockedAreOne(displays: seq<Display>, indices: seq<int>, s: State, c: Command, k: nat)
    requires displays != [] && Detected(displays, s.durable.scales) && k < |displays| && displays[k].name != ""
    requires Plausible(c, Targets(displays, Indices(indices))) && c.ok
    ensures displays[k].name in s.durable.scales
    ensures var after := AfterLock(s, c, Targets(displays, Indices(indices))).durable.scales;
      && displays[k].name in after
      && (TakesPart(displays, indices, k) ==> 0.999 <= after[displays[k].name] <= 1.001)
      && (after[displays[k].name] == 1.0 || after[displays[k].name] == displays[k].scale)
  {
    LockedExactly(displays, indices, displays[k].name);
  }

  lemma {:induction false} TargetsDetected(displays: seq<Display>, indices: seq<int>, scales: Scales)
    requires Detected(displays, scales)
    ensures displays != [] ==> Targets(displays, Indices(indices)) <= scales.Keys
  {
    if displays != [] {
      forall i | i in Indices(indices) && NeedsLock(Chosen(displays, i)) ensures Chosen(displays, i).name in scales {
        ChosenDetected(displays, i, scales);
      }
    }
  }

  lemma RememberMore(locked: Scales, names: set<string>, name: string, scales: Scales)
    requires names <= scales.Keys && name in scales
    ensures var r := Remember(locked, names, scales);
      Remember(locked, names + {name}, scales) == if name in r then r else r[name := scales[name]]
  {
  }

  lemma TargetsMore(displays: seq<Display>, done: set<int>, idx: int)
    requires displays != []
    ensures Targets(displays, done + {idx}) ==
              Targets(displays, done) + if NeedsLock(Chosen(displays, idx)) then {Chosen(displays, idx).name} else {}
  {
  }
}
