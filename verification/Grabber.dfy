/** The input grabber's read loop: kernel events in, pointer and key events out. */
module Grabber {
  import opened Text
  import opened Depot

  const TWO_TO_31: int := 0x8000_0000
  const TWO_TO_32: int := 0x1_0000_0000

  const EV_SYN := 0
  const EV_KEY := 1
  const EV_REL := 2
  const SYN_REPORT := 0
  const REL_X := 0
  const REL_Y := 1
  const REL_HWHEEL := 6
  const REL_WHEEL := 8
  const BTN_MISC := 0x100
  const BTN_MOUSE := 0x110
  const BTN_JOYSTICK := 0x120

  /** A number as a 32-bit int holds it. */
  function Wrap(x: int): (r: int)
    ensures -TWO_TO_31 <= r < TWO_TO_31
  {
    (x + TWO_TO_31) % TWO_TO_32 - TWO_TO_31
  }

  datatype Event = Event(kind: nat, code: nat, value: int)

  /** What is sent to the injector. */
  datatype Output =
    | Motion(dx: int, dy: int)
    | Axis(axis: nat, value: int)
    | Button(code: nat, down: bool)
    | Key(code: nat, down: bool)
    | Frame

  /** Motion not sent yet, whether pointer output waits for its frame, and everything sent. */
  datatype Loop = Loop(dx: int, dy: int, unframed: bool, sent: seq<Output>)

  const IDLE := Loop(0, 0, false, [])

  // ---- Records ----

  function Word16(b: Bytes, i: nat): nat
    requires i + 2 <= |b|
  {
    b[i] + 0x100 * (b[i + 1] as int)
  }

  /** A little-endian signed 32-bit number. */
  function Int32(b: Bytes, i: nat): int
    requires i + 4 <= |b|
  {
    Wrap(b[i] + 0x100 * (b[i + 1] as int) + 0x1_0000 * (b[i + 2] as int) + 0x100_0000 * (b[i + 3] as int))
  }

  /** The 24-byte record at a position; the time stamp is not used. */
  function Decode(b: Bytes, i: nat): Event
    requires i + 24 <= |b|
  {
    Event(Word16(b, i + 16), Word16(b, i + 18), Int32(b, i + 20))
  }

  /** The bytes of a record: 16 of time stamp, then kind and code in two bytes and the value in four, least significant first. */
  function Record(time: Bytes, kind: nat, code: nat, value: int): (b: Bytes)
    requires |time| == 16 && kind < 0x1_0000 && code < 0x1_0000 && -TWO_TO_31 <= value < TWO_TO_31
    ensures |b| == 24
  {
    var v := value % TWO_TO_32;
    time + [kind % 0x100, kind / 0x100, code % 0x100, code / 0x100,
            v % 0x100, v / 0x100 % 0x100, v / 0x1_0000 % 0x100, v / 0x100_0000]
  }

  /** Every record is read as the event it was written for. */
  lemma {:induction false} RecordDecodes(before: Bytes, time: Bytes, kind: nat, code: nat, value: int, rest: Bytes)
    requires |time| == 16 && kind < 0x1_0000 && code < 0x1_0000 && -TWO_TO_31 <= value < TWO_TO_31
    ensures Decode(before + Record(time, kind, code, value) + rest, |before|) == Event(kind, code, value)
  {
    var b, i, r := before + Record(time, kind, code, value) + rest, |before|, Record(time, kind, code, value);
    assert forall k :: 0 <= k < 24 ==> b[i + k] == r[k];
    RecordFields(b, i, time, kind, code, value);
  }

  lemma {:induction false} RecordFields(b: Bytes, i: nat, time: Bytes, kind: nat, code: nat, value: int)
    requires |time| == 16 && kind < 0x1_0000 && code < 0x1_0000 && -TWO_TO_31 <= value < TWO_TO_31 && i + 24 <= |b|
    requires forall k :: 0 <= k < 24 ==> b[i + k] == Record(time, kind, code, value)[k]
    ensures Word16(b, i + 16) == kind && Word16(b, i + 18) == code && Int32(b, i + 20) == value
  {
    var r := Record(time, kind, code, value);
    assert b[i + 16] == r[16] && b[i + 17] == r[17] && b[i + 18] == r[18] && b[i + 19] == r[19];
    assert b[i + 20] == r[20] && b[i + 21] == r[21] && b[i + 22] == r[22] && b[i + 23] == r[23];
    FourBytes(value % TWO_TO_32);
  }

  lemma {:induction false} FourBytes(v: nat)
    requires v < TWO_TO_32
    ensures v % 0x100 + 0x100 * (v / 0x100 % 0x100) + 0x1_0000 * (v / 0x1_0000 % 0x100) + 0x100_0000 * (v / 0x100_0000) == v
  {
    var a := v / 0x100;
    var b := a / 0x100;
    assert v / 0x1_0000 == b && v / 0x100_0000 == b / 0x100;
  }

  // ---- One event ----

  function Send(s: Loop, o: Output): Loop
  {
    s.(sent := s.sent + [o], unframed := s.unframed || IsPointer(o))
  }

  predicate IsPointer(o: Output)
  {
    o.Motion? || o.Axis? || o.Button?
  }

  predicate IsKeyCode(code: nat)
  {
    code < BTN_MISC || 0x160 <= code < 0x2ff
  }

  function TakeRel(s: Loop, e: Event): Loop
  {
    if e.code == REL_X then s.(dx := Wrap(s.dx + e.value))
    else if e.code == REL_Y then s.(dy := Wrap(s.dy + e.value))
    else if e.code == REL_WHEEL then Send(s, Axis(0, Wrap(Wrap(Wrap(-e.value) * 15) * 256)))
    else if e.code == REL_HWHEEL then Send(s, Axis(1, Wrap(Wrap(e.value * 15) * 256)))
    else s
  }

  function TakeKey(s: Loop, e: Event): Loop
  {
    if BTN_MOUSE <= e.code < BTN_JOYSTICK then Send(s, Button(e.code, e.value != 0))
    else if IsKeyCode(e.code) && e.value != 2 then Send(s, Key(e.code, e.value != 0))
    else s
  }

  function TakeReport(s: Loop): Loop
  {
    var moved := if s.dx != 0 || s.dy != 0 then Send(s, Motion(s.dx, s.dy)).(dx := 0, dy := 0) else s;
    if moved.unframed then moved.(sent := moved.sent + [Frame], unframed := false) else moved
  }

  /** An event with no injector attached is lost. */
  function Take(s: Loop, e: Event, attached: bool): Loop
  {
    if !attached then s
    else if e.kind == EV_REL then TakeRel(s, e)
    else if e.kind == EV_KEY then TakeKey(s, e)
    else if e.kind == EV_SYN && e.code == SYN_REPORT then TakeReport(s)
    else s
  }

  /** The first n records of the stream. */
  function After(stream: Bytes, attached: nat -> bool, n: nat): Loop
    requires 24 * n <= |stream|
  {
    if n == 0 then IDLE else Take(After(stream, attached, n - 1), Decode(stream, 24 * (n - 1)), attached(n - 1))
  }

  /** The whole records the loop reads: all there are, but no more than `stop`. */
  function RecordsRead(size: nat, stop: nat): (n: nat)
    ensures 24 * n <= size && n <= stop && (n == stop || size < 24 * (n + 1))
  {
    if stop <= size / 24 then stop else size / 24
  }

  /** Reads whole records until the stream ends or the grab is released, after `stop` records.
      `attached(i)` tells whether there is an injector when record i is read. */
  method ReadLoop(stream: Bytes, attached: nat -> bool, stop: nat) returns (s: Loop)
    ensures s == After(stream, attached, RecordsRead(|stream|, stop))
  {
    var pendingDX, pendingDY, hasPointerEvent := 0, 0, false;
    var sent: seq<Output> := [];
    var i := 0;
    while i < stop && 24 * (i + 1) <= |stream|
      invariant i <= stop && 24 * i <= |stream|
      invariant Loop(pendingDX, pendingDY, hasPointerEvent, sent) == After(stream, attached, i)
      decreases stop - i
    {
      var ev := Decode(stream, 24 * i);
      i := i + 1;
      if !attached(i - 1) {
        continue;
      }
      if ev.kind == EV_REL {
        if ev.code == REL_X {
          pendingDX := Wrap(pendingDX + ev.value);
        } else if ev.code == REL_Y {
          pendingDY := Wrap(pendingDY + ev.value);
        } else if ev.code == REL_WHEEL {
          sent := sent + [Axis(0, Wrap(Wrap(Wrap(-ev.value) * 15) * 256))];
          hasPointerEvent := true;
        } else if ev.code == REL_HWHEEL {
          sent := sent + [Axis(1, Wrap(Wrap(ev.value * 15) * 256))];
          hasPointerEvent := true;
        }
      } else if ev.kind == EV_KEY {
        if BTN_MOUSE <= ev.code < BTN_JOYSTICK {
          sent := sent + [Button(ev.code, ev.value != 0)];
          hasPointerEvent := true;
        } else if ev.code < BTN_MISC || 0x160 <= ev.code < 0x2ff {
          if ev.value == 2 {
            continue;
          }
          sent := sent + [Key(ev.code, ev.value != 0)];
        }
      } else if ev.kind == EV_SYN && ev.code == SYN_REPORT {
        if pendingDX != 0 || pendingDY != 0 {
          sent := sent + [Motion(pendingDX, pendingDY)];
          pendingDX, pendingDY := 0, 0;
          hasPointerEvent := true;
        }
        if hasPointerEvent {
          sent := sent + [Frame];
          hasPointerEvent := false;
        }
      }
    }
    s := Loop(pendingDX, pendingDY, hasPointerEvent, sent);
  }

  // ---- Motion is conserved ----

  /** All motion read on one axis with an injector attached. */
  function ReadOn(stream: Bytes, attached: nat -> bool, n: nat, axis: nat): int
    requires 24 * n <= |stream|
  {
    if n == 0 then 0 else
      var e := Decode(stream, 24 * (n - 1));
      ReadOn(stream, attached, n - 1, axis) + if attached(n - 1) && e.kind == EV_REL && e.code == axis then e.value else 0
  }

  /** All motion sent on one axis. */
  function SentOn(sent: seq<Output>, axis: nat): int
  {
    if sent == [] then 0 else
      var o := sent[|sent| - 1];
      SentOn(sent[..|sent| - 1], axis) + if o.Motion? then (if axis == REL_X then o.dx else o.dy) else 0
  }

  predicate Congruent(a: int, b: int)
  {
    (a - b) % TWO_TO_32 == 0
  }

  function Pending(s: Loop, axis: nat): int
  {
    if axis == REL_X then s.dx else s.dy
  }

  lemma {:induction false} WrapCongruent(x: int)
    ensures Congruent(Wrap(x), x)
  {
    var q := (x + TWO_TO_31) / TWO_TO_32;
    assert Wrap(x) - x == -q * TWO_TO_32;
  }

  lemma {:induction false} CongruentSum(a: int, b: int, c: int, d: int)
    requires Congruent(a, b) && Congruent(c, d)
    ensures Congruent(a + c, b + d)
  {
    var p, q := (a - b) / TWO_TO_32, (c - d) / TWO_TO_32;
    assert (a + c) - (b + d) == (p + q) * TWO_TO_32;
  }

  lemma {:induction false} SentMore(sent: seq<Output>, o: Output, axis: nat)
    ensures SentOn(sent + [o], axis) == SentOn(sent, axis) + if o.Motion? then (if axis == REL_X then o.dx else o.dy) else 0
  {
    assert (sent + [o])[..|sent|] == sent;
  }

  function Accounted(s: Loop, axis: nat): int
  {
    SentOn(s.sent, axis) + Pending(s, axis)
  }

  lemma {:induction false} SendKeeps(s: Loop, o: Output, axis: nat)
    requires !o.Motion?
    ensures Accounted(Send(s, o), axis) == Accounted(s, axis)
  {
    SentMore(s.sent, o, axis);
  }

  lemma ReportKeeps(s: Loop, axis: nat)
    requires axis == REL_X || axis == REL_Y
    ensures Accounted(TakeReport(s), axis) == Accounted(s, axis)
  {
    var moved := if s.dx != 0 || s.dy != 0 then Send(s, Motion(s.dx, s.dy)).(dx := 0, dy := 0) else s;
    SentMore(s.sent, Motion(s.dx, s.dy), axis);
    assert Accounted(moved, axis) == Accounted(s, axis);
    SentMore(moved.sent, Frame, axis);
  }

  lemma {:induction false} RelKeeps(s: Loop, e: Event, axis: nat)
    requires axis == REL_X || axis == REL_Y
    ensures Congruent(Accounted(TakeRel(s, e), axis), Accounted(s, axis) + if e.code == axis then e.value else 0)
  {
    if e.code == axis {
      WrapCongruent(Pending(s, axis) + e.value);
      CongruentSum(SentOn(s.sent, axis), SentOn(s.sent, axis), Wrap(Pending(s, axis) + e.value), Pending(s, axis) + e.value);
    } else if e.code == REL_WHEEL {
      SendKeeps(s, Axis(0, Wrap(Wrap(Wrap(-e.value) * 15) * 256)), axis);
    } else if e.code == REL_HWHEEL {
      SendKeeps(s, Axis(1, Wrap(Wrap(e.value * 15) * 256)), axis);
    }
  }

  /** One event moves motion from the stream to what is pending or sent, and loses none. */
  lemma TakeConserves(s: Loop, e: Event, axis: nat)
    requires axis == REL_X || axis == REL_Y
    ensures Congruent(Accounted(Take(s, e, true), axis), Accounted(s, axis) + if e.kind == EV_REL && e.code == axis then e.value else 0)
  {
    if e.kind == EV_REL {
      RelKeeps(s, e, axis);
    } else if e.kind == EV_KEY {
      SendKeeps(s, Button(e.code, e.value != 0), axis);
      SendKeeps(s, Key(e.code, e.value != 0), axis);
    } else {
      ReportKeeps(s, axis);
    }
  }

  /** Motion sent plus motion pending is the motion read, modulo 2^32. */
  predicate Balanced(s: Loop, axis: nat, read: int)
  {
    Congruent(SentOn(s.sent, axis) + Pending(s, axis), read)
  }

  /** For every stream, motion is conserved on either axis. */
  lemma {:induction false} MotionConserved(stream: Bytes, attached: nat -> bool, n: nat, axis: nat)
    requires 24 * n <= |stream| && (axis == REL_X || axis == REL_Y)
    ensures Balanced(After(stream, attached, n), axis, ReadOn(stream, attached, n, axis))
  {
    if n > 0 {
      MotionConserved(stream, attached, n - 1, axis);
      StepConserves(After(stream, attached, n - 1), Decode(stream, 24 * (n - 1)), attached(n - 1), axis,
                    ReadOn(stream, attached, n - 1, axis));
      AfterOneMore(stream, attached, n - 1, axis);
    }
  }

  lemma {:induction false} AfterNext(stream: Bytes, attached: nat -> bool, n: nat)
    requires 24 * (n + 1) <= |stream|
    ensures After(stream, attached, n + 1) == Take(After(stream, attached, n), Decode(stream, 24 * n), attached(n))
  {
  }

  lemma {:induction false} AfterOneMore(stream: Bytes, attached: nat -> bool, n: nat, axis: nat)
    requires 24 * (n + 1) <= |stream|
    ensures After(stream, attached, n + 1) == Take(After(stream, attached, n), Decode(stream, 24 * n), attached(n))
    ensures ReadOn(stream, attached, n + 1, axis) == ReadOn(stream, attached, n, axis) + MotionIn(Decode(stream, 24 * n), attached(n), axis)
  {
  }

  function MotionIn(e: Event, attached: bool, axis: nat): int
  {
    if attached && e.kind == EV_REL && e.code == axis then e.value else 0
  }

  lemma {:induction false} StepConserves(s: Loop, e: Event, attached: bool, axis: nat, read: int)
    requires (axis == REL_X || axis == REL_Y) && Balanced(s, axis, read)
    ensures Balanced(Take(s, e, attached), axis, read + MotionIn(e, attached, axis))
  {
    if attached {
      TakeConserves(s, e, axis);
      CongruentMore(Accounted(Take(s, e, true), axis), Accounted(s, axis), read, MotionIn(e, attached, axis));
    }
  }

  lemma {:induction false} CongruentMore(a: int, b: int, c: int, more: int)
    requires Congruent(a, b + more) && Congruent(b, c)
    ensures Congruent(a, c + more)
  {
    CongruentSum(b, c, more, more);
    CongruentChain(a, b + more, c + more);
  }

  lemma {:induction false} CongruentChain(a: int, b: int, c: int)
    requires Congruent(a, b) && Congruent(b, c)
    ensures Congruent(a, c)
  {
    var p, q := (a - b) / TWO_TO_32, (b - c) / TWO_TO_32;
    assert a - c == (p + q) * TWO_TO_32;
  }

  // ---- Scrolling is conserved ----

  /** A wheel notch is 120 in units of 1/256 of fifteen, that is 3840; turning a vertical wheel away scrolls up. */
  const NOTCH := 3840

  /** The axis output a wheel event stands for. */
  function ScrollOf(e: Event): seq<Output>
  {
    if e.kind != EV_REL then []
    else if e.code == REL_WHEEL then [Axis(0, Wrap(-NOTCH * e.value))]
    else if e.code == REL_HWHEEL then [Axis(1, Wrap(NOTCH * e.value))]
    else []
  }

  function ScrollsRead(stream: Bytes, attached: nat -> bool, n: nat): seq<Output>
    requires 24 * n <= |stream|
  {
    if n == 0 then [] else
      ScrollsRead(stream, attached, n - 1) + if attached(n - 1) then ScrollOf(Decode(stream, 24 * (n - 1))) else []
  }

  /** The axis outputs sent. */
  function Scrolls(sent: seq<Output>): seq<Output>
  {
    if sent == [] then [] else
      var o := sent[|sent| - 1];
      Scrolls(sent[..|sent| - 1]) + if o.Axis? then [o] else []
  }

  lemma {:induction false} ScrollMore(sent: seq<Output>, o: Output)
    ensures Scrolls(sent + [o]) == Scrolls(sent) + if o.Axis? then [o] else []
  {
    assert (sent + [o])[..|sent|] == sent;
  }

  /** Numbers that agree modulo 2^32 are the same 32-bit int. */
  lemma {:induction false} WrapUnique(a: int, b: int)
    requires Congruent(a, b)
    ensures Wrap(a) == Wrap(b)
  {
    WrapCongruent(a);
    WrapCongruent(b);
    var p, q, r := (a - b) / TWO_TO_32, (Wrap(a) - a) / TWO_TO_32, (Wrap(b) - b) / TWO_TO_32;
    assert Wrap(a) - Wrap(b) == (p + q - r) * TWO_TO_32;
    Between(Wrap(a) - Wrap(b), p + q - r);
  }

  lemma {:induction false} Between(d: int, k: int)
    requires d == k * TWO_TO_32 && -TWO_TO_32 < d < TWO_TO_32
    ensures d == 0
  {
  }

  lemma {:induction false} CongruentTimes(a: int, b: int, k: int)
    requires Congruent(a, b)
    ensures Congruent(a * k, b * k)
  {
    var p := (a - b) / TWO_TO_32;
    assert a - b == p * TWO_TO_32;
    assert a * k - b * k == (p * k) * TWO_TO_32;
  }

  lemma {:induction false} Scaled(v: int)
    ensures Wrap(Wrap(v * 15) * 256) == Wrap(NOTCH * v)
  {
    WrapCongruent(v * 15);
    CongruentTimes(Wrap(v * 15), v * 15, 256);
    WrapUnique(Wrap(v * 15) * 256, v * 15 * 256);
  }

  lemma {:induction false} ScaledDown(v: int)
    ensures Wrap(Wrap(Wrap(-v) * 15) * 256) == Wrap(-NOTCH * v)
  {
    Scaled(Wrap(-v));
    WrapCongruent(-v);
    CongruentTimes(Wrap(-v), -v, NOTCH);
    WrapUnique(NOTCH * Wrap(-v), -NOTCH * v);
  }

  lemma {:induction false} TakeScrolls(s: Loop, e: Event, attached: bool)
    ensures Scrolls(Take(s, e, attached).sent) == Scrolls(s.sent) + if attached then ScrollOf(e) else []
  {
    if attached && e.kind == EV_REL {
      RelScrolls(s, e);
    } else if attached && e.kind == EV_KEY {
      ScrollMore(s.sent, Button(e.code, e.value != 0));
      ScrollMore(s.sent, Key(e.code, e.value != 0));
    } else if attached && e.kind == EV_SYN && e.code == SYN_REPORT {
      ReportScrolls(s);
    }
  }

  lemma {:induction false} RelScrolls(s: Loop, e: Event)
    requires e.kind == EV_REL
    ensures Scrolls(TakeRel(s, e).sent) == Scrolls(s.sent) + ScrollOf(e)
  {
    if e.code == REL_WHEEL {
      ScaledDown(e.value);
      ScrollMore(s.sent, Axis(0, Wrap(-NOTCH * e.value)));
    } else if e.code == REL_HWHEEL {
      Scaled(e.value);
      ScrollMore(s.sent, Axis(1, Wrap(NOTCH * e.value)));
    }
  }

  lemma {:induction false} ReportScrolls(s: Loop)
    ensures Scrolls(TakeReport(s).sent) == Scrolls(s.sent)
  {
    var moved := if s.dx != 0 || s.dy != 0 then Send(s, Motion(s.dx, s.dy)).(dx := 0, dy := 0) else s;
    ScrollMore(s.sent, Motion(s.dx, s.dy));
    ScrollMore(moved.sent, Frame);
  }

  lemma {:induction false} ScrollsNext(stream: Bytes, attached: nat -> bool, n: nat)
    requires 24 * (n + 1) <= |stream|
    ensures ScrollsRead(stream, attached, n + 1) ==
              ScrollsRead(stream, attached, n) + if attached(n) then ScrollOf(Decode(stream, 24 * n)) else []
  {
  }

  lemma {:induction false} ScrollsOnce(stream: Bytes, attached: nat -> bool, n: nat)
    requires 24 * (n + 1) <= |stream| && Scrolls(After(stream, attached, n).sent) == ScrollsRead(stream, attached, n)
    ensures Scrolls(After(stream, attached, n + 1).sent) == ScrollsRead(stream, attached, n + 1)
  {
    AfterNext(stream, attached, n);
    ScrollsNext(stream, attached, n);
    TakeScrolls(After(stream, attached, n), Decode(stream, 24 * n), attached(n));
  }

  /** For every stream each wheel record gives exactly one axis output, in the order read. */
  lemma {:induction false} ScrollsKeepOrder(stream: Bytes, attached: nat -> bool, n: nat)
    requires 24 * n <= |stream|
    ensures Scrolls(After(stream, attached, n).sent) == ScrollsRead(stream, attached, n)
  {
    if n > 0 {
      var m := n - 1;
      ScrollsKeepOrder(stream, attached, m);
      ScrollsOnce(stream, attached, m);
      assert m + 1 == n;
    }
  }

  /** All values sent on one axis. */
  function ScrolledOn(sent: seq<Output>, axis: nat): int
  {
    if sent == [] then 0 else
      var o := sent[|sent| - 1];
      ScrolledOn(sent[..|sent| - 1], axis) + if o.Axis? && o.axis == axis then o.value else 0
  }

  lemma {:induction false} ScrolledMore(sent: seq<Output>, o: Output, axis: nat)
    ensures ScrolledOn(sent + [o], axis) == ScrolledOn(sent, axis) + if o.Axis? && o.axis == axis then o.value else 0
  {
    assert (sent + [o])[..|sent|] == sent;
  }

  lemma {:induction false} ScrolledBy(sent: seq<Output>, axis: nat)
    ensures ScrolledOn(sent, axis) == ScrolledOn(Scrolls(sent), axis)
  {
    if sent != [] {
      var n := |sent| - 1;
      assert sent == sent[..n] + [sent[n]];
      ScrolledBy(sent[..n], axis);
      ScrolledMore(sent[..n], sent[n], axis);
      ScrollMore(sent[..n], sent[n]);
      ScrolledMore(Scrolls(sent[..n]), sent[n], axis);
      assert Scrolls(sent[..n]) + [] == Scrolls(sent[..n]);
    }
  }

  /** The wheel that scrolls on an axis, and what one turn of it is worth. */
  function WheelOf(axis: nat): nat
  {
    if axis == 0 then REL_WHEEL else REL_HWHEEL
  }

  function WorthOf(axis: nat): int
  {
    if axis == 0 then -NOTCH else NOTCH
  }

  lemma {:induction false} OneScroll(before: seq<Output>, e: Event, axis: nat)
    requires axis <= 1
    ensures Congruent(ScrolledOn(before + ScrollOf(e), axis),
                      ScrolledOn(before, axis) + WorthOf(axis) * MotionIn(e, true, WheelOf(axis)))
  {
    if ScrollOf(e) == [] {
      assert before + [] == before;
    } else {
      var o := ScrollOf(e)[0];
      assert ScrollOf(e) == [o];
      ScrolledMore(before, o, axis);
      WrapCongruent(WorthOf(axis) * e.value);
      CongruentSum(ScrolledOn(before, axis), ScrolledOn(before, axis), Wrap(WorthOf(axis) * e.value), WorthOf(axis) * e.value);
    }
  }

  lemma {:induction false} ScrollsReadSum(stream: Bytes, attached: nat -> bool, n: nat, axis: nat)
    requires 24 * n <= |stream| && axis <= 1
    ensures Congruent(ScrolledOn(ScrollsRead(stream, attached, n), axis), WorthOf(axis) * ReadOn(stream, attached, n, WheelOf(axis)))
  {
    if n > 0 {
      var e, before, read := Decode(stream, 24 * (n - 1)), ScrollsRead(stream, attached, n - 1), ReadOn(stream, attached, n - 1, WheelOf(axis));
      ScrollsReadSum(stream, attached, n - 1, axis);
      if attached(n - 1) {
        OneScroll(before, e, axis);
        CongruentMore(ScrolledOn(before + ScrollOf(e), axis), ScrolledOn(before, axis), WorthOf(axis) * read,
                      WorthOf(axis) * MotionIn(e, true, WheelOf(axis)));
        Distributes(WorthOf(axis), read, MotionIn(e, true, WheelOf(axis)));
      } else {
        assert before + [] == before;
      }
    }
  }

  lemma Distributes(k: int, a: int, b: int)
    ensures k * a + k * b == k * (a + b)
  {
  }

  /** For every stream the vertical scroll sent is -3840 times the wheel turns read with an injector attached, the horizontal
      one 3840 times, modulo 2^32. */
  lemma {:induction false} ScrollConserved(stream: Bytes, attached: nat -> bool, n: nat)
    requires 24 * n <= |stream|
    ensures Congruent(ScrolledOn(After(stream, attached, n).sent, 0), -3840 * ReadOn(stream, attached, n, REL_WHEEL))
    ensures Congruent(ScrolledOn(After(stream, attached, n).sent, 1), 3840 * ReadOn(stream, attached, n, REL_HWHEEL))
  {
    ScrollsKeepOrder(stream, attached, n);
    ScrolledBy(After(stream, attached, n).sent, 0);
    ScrolledBy(After(stream, attached, n).sent, 1);
    ScrollsReadSum(stream, attached, n, 0);
    ScrollsReadSum(stream, attached, n, 1);
  }

  // ---- Frames ----

  /** Pointer output was sent since the last frame. */
  function Unframed(sent: seq<Output>): bool
  {
    if sent == [] then false else
      var o := sent[|sent| - 1];
      if o.Frame? then false else IsPointer(o) || Unframed(sent[..|sent| - 1])
  }

  /** Every frame closes some pointer output. */
  predicate FramesClose(sent: seq<Output>)
  {
    sent == [] ||
    (FramesClose(sent[..|sent| - 1]) && (sent[|sent| - 1].Frame? ==> Unframed(sent[..|sent| - 1])))
  }

  lemma {:induction false} OutputMore(sent: seq<Output>, o: Output)
    ensures Unframed(sent + [o]) == (!o.Frame? && (IsPointer(o) || Unframed(sent)))
    ensures FramesClose(sent + [o]) == (FramesClose(sent) && (o.Frame? ==> Unframed(sent)))
  {
    assert (sent + [o])[..|sent|] == sent;
  }

  lemma {:induction false} TakeFrames(s: Loop, e: Event, attached: bool)
    requires FramesClose(s.sent) && s.unframed == Unframed(s.sent)
    ensures var r := Take(s, e, attached); FramesClose(r.sent) && r.unframed == Unframed(r.sent)
  {
    var r := Take(s, e, attached);
    if r.sent != s.sent {
      OutputMore(s.sent, r.sent[|s.sent|]);
      assert r.sent == s.sent + [r.sent[|s.sent|]] || r.sent == s.sent + [r.sent[|s.sent|]] + [Frame];
      OutputMore(s.sent + [r.sent[|s.sent|]], Frame);
    }
  }

  /** A frame is sent only after pointer output since the last one, and after a report nothing is pending or unframed. */
  lemma {:induction false} FramesInOrder(stream: Bytes, attached: nat -> bool, n: nat)
    requires 24 * n <= |stream|
    ensures var s := After(stream, attached, n); FramesClose(s.sent) && s.unframed == Unframed(s.sent)
    ensures n > 0 && attached(n - 1) && Decode(stream, 24 * (n - 1)).kind == EV_SYN && Decode(stream, 24 * (n - 1)).code == SYN_REPORT ==>
              var s := After(stream, attached, n); s.dx == 0 && s.dy == 0 && !s.unframed && !Unframed(s.sent)
  {
    if n > 0 {
      FramesInOrder(stream, attached, n - 1);
      TakeFrames(After(stream, attached, n - 1), Decode(stream, 24 * (n - 1)), attached(n - 1));
    }
  }

  // ---- Buttons and keys ----

  /** The buttons and keys sent. */
  function Presses(sent: seq<Output>): seq<Output>
  {
    if sent == [] then [] else
      var o := sent[|sent| - 1];
      Presses(sent[..|sent| - 1]) + if o.Button? || o.Key? then [o] else []
  }

  /** What a button or key event stands for: mouse buttons; keys without the kernel's autorepeat; joysticks and the rest nothing. */
  function PressOf(e: Event): seq<Output>
  {
    if e.kind != EV_KEY then []
    else if 0x110 <= e.code < 0x120 then [Button(e.code, e.value != 0)]
    else if (e.code < 0x100 || 0x160 <= e.code < 0x2ff) && e.value != 2 then [Key(e.code, e.value != 0)]
    else []
  }

  function PressesRead(stream: Bytes, attached: nat -> bool, n: nat): seq<Output>
    requires 24 * n <= |stream|
  {
    if n == 0 then [] else
      PressesRead(stream, attached, n - 1) + if attached(n - 1) then PressOf(Decode(stream, 24 * (n - 1))) else []
  }

  lemma {:induction false} PressMore(sent: seq<Output>, o: Output)
    ensures Presses(sent + [o]) == Presses(sent) + if o.Button? || o.Key? then [o] else []
  {
    assert (sent + [o])[..|sent|] == sent;
  }

  lemma {:induction false} KeyPresses(s: Loop, e: Event)
    requires e.kind == EV_KEY
    ensures Presses(TakeKey(s, e).sent) == Presses(s.sent) + PressOf(e)
  {
    if BTN_MOUSE <= e.code < BTN_JOYSTICK {
      PressSent(s, Button(e.code, e.value != 0));
    } else if IsKeyCode(e.code) && e.value != 2 {
      PressSent(s, Key(e.code, e.value != 0));
    } else {
      assert Presses(s.sent) + [] == Presses(s.sent);
    }
  }

  lemma {:induction false} PressSent(s: Loop, o: Output)
    requires o.Button? || o.Key?
    ensures Presses(Send(s, o).sent) == Presses(s.sent) + [o]
  {
    PressMore(s.sent, o);
  }

  lemma {:induction false} RelPresses(s: Loop, e: Event)
    ensures Presses(TakeRel(s, e).sent) == Presses(s.sent)
  {
    PressMore(s.sent, Axis(0, Wrap(Wrap(Wrap(-e.value) * 15) * 256)));
    PressMore(s.sent, Axis(1, Wrap(Wrap(e.value * 15) * 256)));
  }

  lemma {:induction false} ReportPresses(s: Loop)
    ensures Presses(TakeReport(s).sent) == Presses(s.sent)
  {
    var moved := if s.dx != 0 || s.dy != 0 then Send(s, Motion(s.dx, s.dy)).(dx := 0, dy := 0) else s;
    PressMore(s.sent, Motion(s.dx, s.dy));
    PressMore(moved.sent, Frame);
  }

  lemma {:induction false} TakePresses(s: Loop, e: Event)
    ensures Presses(Take(s, e, true).sent) == Presses(s.sent) + PressOf(e)
  {
    assert Presses(s.sent) + [] == Presses(s.sent);
    if e.kind == EV_KEY {
      KeyPresses(s, e);
    } else if e.kind == EV_REL {
      RelPresses(s, e);
    } else if e.kind == EV_SYN && e.code == SYN_REPORT {
      ReportPresses(s);
    }
  }

  lemma {:induction false} PressesNext(stream: Bytes, attached: nat -> bool, n: nat)
    requires 24 * (n + 1) <= |stream|
    ensures PressesRead(stream, attached, n + 1) ==
              PressesRead(stream, attached, n) + if attached(n) then PressOf(Decode(stream, 24 * n)) else []
  {
  }

  lemma {:induction false} PressesOnce(stream: Bytes, attached: nat -> bool, n: nat)
    requires 24 * (n + 1) <= |stream| && Presses(After(stream, attached, n).sent) == PressesRead(stream, attached, n)
    ensures Presses(After(stream, attached, n + 1).sent) == PressesRead(stream, attached, n + 1)
  {
    AfterNext(stream, attached, n);
    PressesNext(stream, attached, n);
    if attached(n) {
      TakePresses(After(stream, attached, n), Decode(stream, 24 * n));
    } else {
      assert PressesRead(stream, attached, n) + [] == PressesRead(stream, attached, n);
    }
  }

  /** Buttons and keys go out one for one, in the order they were read. */
  lemma {:induction false} PressesKeepOrder(stream: Bytes, attached: nat -> bool, n: nat)
    requires 24 * n <= |stream|
    ensures Presses(After(stream, attached, n).sent) == PressesRead(stream, attached, n)
  {
    if n > 0 {
      var m := n - 1;
      PressesKeepOrder(stream, attached, m);
      PressesOnce(stream, attached, m);
      assert m + 1 == n;
    }
  }
}
