/** The KWin placement script: which entry each seat gets, where the script puts its window, and that this agrees with Geometry. */
module KWin {
  import opened Text
  import opened Geometry

  datatype Placement = Placement(pid: int, seatIndex: nat, seatID: string, display: int)

  /** An entry of the script's table. */
  datatype Info = Info(pid: int, index: nat, id: string, disp: int, localIndex: nat, dispTotal: nat)

  // ---- Entries ----

  predicate Counts(p: Placement, d: int)
  {
    p.pid > 0 && p.display == d
  }

  /** Seats with a process on display d among the first n. */
  function CountOn(ps: seq<Placement>, d: int, n: nat): nat
    requires n <= |ps|
  {
    if n == 0 then 0 else CountOn(ps, d, n - 1) + if Counts(ps[n - 1], d) then 1 else 0
  }

  function EntryOf(ps: seq<Placement>, i: nat): Info
    requires i < |ps|
  {
    var p := ps[i];
    Info(p.pid, p.seatIndex, p.seatID, p.display, CountOn(ps, p.display, i), CountOn(ps, p.display, |ps|))
  }

  /** Entries of the seats with a process among the first n. */
  function Entries(ps: seq<Placement>, n: nat): seq<Info>
    requires n <= |ps|
  {
    if n == 0 then [] else Entries(ps, n - 1) + if ps[n - 1].pid > 0 then [EntryOf(ps, n - 1)] else []
  }

  /** The tally of a display; one not seen yet has none. */
  function Tally(counts: map<int, nat>, d: int): nat
  {
    if d in counts then counts[d] else 0
  }

  ghost predicate TalliesFirst(counts: map<int, nat>, ps: seq<Placement>, n: nat)
    requires n <= |ps|
  {
    forall d :: Tally(counts, d) == CountOn(ps, d, n)
  }

  function TotalSeats(ps: seq<Placement>): nat
  {
    if ps == [] then 2 else |ps|
  }

  method GenerateEntries(ps: seq<Placement>) returns (entries: seq<Info>, totalSeats: nat)
    ensures entries == Entries(ps, |ps|)
    ensures totalSeats == TotalSeats(ps)
  {
    var dispTotals: map<int, nat> := map[];
    for i := 0 to |ps|
      invariant TalliesFirst(dispTotals, ps, i)
    {
      if ps[i].pid > 0 {
        dispTotals := dispTotals[ps[i].display := Tally(dispTotals, ps[i].display) + 1];
      }
    }
    var dispCounts: map<int, nat> := map[];
    entries := [];
    for i := 0 to |ps|
      invariant TalliesFirst(dispCounts, ps, i) && entries == Entries(ps, i)
    {
      var p := ps[i];
      if p.pid > 0 {
        var localIdx := Tally(dispCounts, p.display);
        dispCounts := dispCounts[p.display := localIdx + 1];
        entries := entries + [Info(p.pid, p.seatIndex, p.seatID, p.display, localIdx, Tally(dispTotals, p.display))];
      }
    }
    totalSeats := if |ps| == 0 then 2 else |ps|;
  }

  lemma {:induction false} CountGrows(ps: seq<Placement>, d: int, i: nat, j: nat)
    requires i <= j <= |ps|
    ensures CountOn(ps, d, i) <= CountOn(ps, d, j)
    decreases j
  {
    if i < j {
      CountGrows(ps, d, i, j - 1);
    }
  }

  /** On one display every local index from 0 up to the display's total belongs to exactly one seat. */
  lemma {:induction false} LocalIndexTaken(ps: seq<Placement>, d: int, n: nat, k: nat) returns (i: nat)
    requires n <= |ps| && k < CountOn(ps, d, n)
    ensures i < n && Counts(ps[i], d) && CountOn(ps, d, i) == k
    decreases n
  {
    if k < CountOn(ps, d, n - 1) {
      i := LocalIndexTaken(ps, d, n - 1, k);
    } else {
      i := n - 1;
    }
  }

  lemma {:induction false} LocalIndexUnique(ps: seq<Placement>, d: int, i: nat, j: nat)
    requires i < j < |ps| && Counts(ps[i], d) && Counts(ps[j], d)
    ensures CountOn(ps, d, i) < CountOn(ps, d, j) < CountOn(ps, d, |ps|)
  {
    CountGrows(ps, d, i + 1, j);
    CountGrows(ps, d, j + 1, |ps|);
  }

  lemma OneSeatEach(ps: seq<Placement>, d: int, i: nat, j: nat)
    requires i < |ps| && j < |ps| && Counts(ps[i], d) && Counts(ps[j], d)
    ensures CountOn(ps, d, i) == CountOn(ps, d, j) <==> i == j
  {
    if i < j {
      LocalIndexUnique(ps, d, i, j);
    } else if j < i {
      LocalIndexUnique(ps, d, j, i);
    }
  }

  // ---- The script ----

  /** The geometry of a screen by index, clamped; without screens the virtual screen, or 1920 by 1080. */
  function ScreenGeometry(screens: seq<Rect>, virtual: Option<(int, int)>, disp: int): (g: Rect)
    ensures 0 <= disp < |screens| ==> g == screens[disp]
    ensures screens != [] ==> g in screens
    ensures screens == [] ==> g.x == 0 && g.y == 0 && (g.w, g.h) == if virtual.Some? then virtual.value else (1920, 1080)
  {
    if screens != [] then
      screens[if disp < 0 then 0 else if disp >= |screens| then |screens| - 1 else disp]
    else if virtual.Some? then Rect(0, 0, virtual.value.0, virtual.value.1)
    else Rect(0, 0, 1920, 1080)
  }

  function EffectiveLayout(layout: Layout, dispTotal: nat): Layout
  {
    if dispTotal < 3 && (layout == ThreePlayer || layout == QuadGrid) then SideBySide
    else if dispTotal == 3 && layout == QuadGrid then ThreePlayer
    else layout
  }

  /** placeSeat: the frame geometry it sets, if any. */
  function PlaceSeat(screens: seq<Rect>, virtual: Option<(int, int)>, layout: Layout, totalSeats: nat, info: Info): Option<Rect>
  {
    var numScreens := if screens != [] then |screens| else 1;
    var g := ScreenGeometry(screens, virtual, if numScreens > 1 then info.disp else 0);
    var dispTotal := if numScreens == 1 then totalSeats else if info.dispTotal == 0 then 1 else info.dispTotal;
    var idx := if numScreens == 1 then info.index else info.localIndex;
    if layout == DualMonitor || layout == MultiMonitor || (dispTotal == 1 && totalSeats == 1) then Some(g)
    else FrameGeometry(EffectiveLayout(layout, dispTotal), g, idx, dispTotal)
  }

  function FrameGeometry(layout: Layout, g: Rect, idx: nat, dispTotal: nat): Option<Rect>
  {
    if dispTotal == 0 then None else
      match layout
      case SideBySide =>
        var colW := g.w / dispTotal;
        var x := g.x + idx * colW;
        Some(Rect(x, g.y, if idx == dispTotal - 1 then g.x + g.w - x else colW, g.h))
      case TopBottom =>
        var rowH := g.h / dispTotal;
        var y := g.y + idx * rowH;
        Some(Rect(g.x, y, g.w, if idx == dispTotal - 1 then g.y + g.h - y else rowH))
      case QuadGrid =>
        var halfW, halfH := g.w / 2, g.h / 2;
        if idx == 0 then Some(Rect(g.x, g.y, halfW, halfH))
        else if idx == 1 then Some(Rect(g.x + halfW, g.y, g.w - halfW, halfH))
        else if idx == 2 then Some(Rect(g.x, g.y + halfH, halfW, g.h - halfH))
        else Some(Rect(g.x + halfW, g.y + halfH, g.w - halfW, g.h - halfH))
      case ThreePlayer =>
        var halfW, halfH := g.w / 2, g.h / 2;
        if idx == 0 then Some(Rect(g.x, g.y, g.w, halfH))
        else if idx == 1 then Some(Rect(g.x, g.y + halfH, halfW, g.h - halfH))
        else Some(Rect(g.x + halfW, g.y + halfH, g.w - halfW, g.h - halfH))
      case _ => None
  }

  /** The script leaves windows of these layouts where they are, unless there is a single seat. */
  predicate LeavesAlone(layout: Layout, seats: nat)
  {
    (layout == Custom || layout == Windowed) && seats > 1
  }

  // ---- The two agree ----

  function Moved(r: Rect, dx: int, dy: int): Rect
  {
    Rect(r.x + dx, r.y + dy, r.w, r.h)
  }

  predicate IsSplit(layout: Layout)
  {
    layout == SideBySide || layout == TopBottom || layout == QuadGrid || layout == ThreePlayer
  }

  /** The script's rectangle is the computed one, moved to the screen's corner. */
  lemma {:induction false} FrameIsCell(layout: Layout, g: Rect, i: nat, n: nat)
    requires IsSplit(layout) && i < n && g.w > 0 && g.h > 0
    ensures FrameGeometry(EffectiveLayout(layout, n), g, i, n) == Some(Moved(Cell(layout, i, n, g.w, g.h), g.x, g.y))
  {
    assert Cell(EffectiveLayout(layout, n), i, n, g.w, g.h) == Cell(layout, i, n, g.w, g.h);
  }

  lemma {:induction false} SingleCell(layout: Layout, w: int, h: int)
    requires w > 0 && h > 0
    ensures Cell(layout, 0, 1, w, h) == Rect(0, 0, w, h)
  {
    assert 0 * (w / 1) == 0 && 0 * (h / 1) == 0;
  }

  /** On one screen the script and CalculateSeatGeometry agree for every layout that divides the screen, for the monitor
      layouts, and whenever there is one seat; for several windowed or custom seats the script sets nothing. */
  lemma {:induction false} OneScreenAgrees(screens: seq<Rect>, virtual: Option<(int, int)>, layout: Layout, n: nat, info: Info)
    requires |screens| <= 1 && info.index < n
    requires ScreenGeometry(screens, virtual, 0).w > 0 && ScreenGeometry(screens, virtual, 0).h > 0
    ensures var g := ScreenGeometry(screens, virtual, 0);
      PlaceSeat(screens, virtual, layout, n, info) ==
        if n > 1 && (layout == Custom || layout == Windowed) then None
        else Some(Moved(Cell(layout, info.index, n, g.w, g.h), g.x, g.y))
  {
    var g := ScreenGeometry(screens, virtual, 0);
    if n == 1 {
      SingleCell(layout, g.w, g.h);
    } else if IsSplit(layout) {
      FrameIsCell(layout, g, info.index, n);
    }
  }

  // ---- From the table to the windows ----

  /** What the script's table holds for a process: the last entry with that id. */
  function InfoFor(entries: seq<Info>, pid: int): Option<Info>
  {
    if entries == [] then None
    else if entries[|entries| - 1].pid == pid then Some(entries[|entries| - 1])
    else InfoFor(entries[..|entries| - 1], pid)
  }

  /** Where the script puts the window of a process, if it touches it. */
  function WindowOf(screens: seq<Rect>, virtual: Option<(int, int)>, layout: Layout, ps: seq<Placement>, pid: int): Option<Rect>
  {
    var info := InfoFor(Entries(ps, |ps|), pid);
    if info.None? then None else PlaceSeat(screens, virtual, layout, TotalSeats(ps), info.value)
  }

  /** No later seat has the same process. */
  predicate LastOfProcess(ps: seq<Placement>, i: nat)
    requires i < |ps|
  {
    forall j :: i < j < |ps| ==> ps[j].pid != ps[i].pid
  }

  lemma {:induction false} EntryAmong(ps: seq<Placement>, i: nat, n: nat)
    requires i < n <= |ps| && ps[i].pid > 0 && LastOfProcess(ps, i)
    ensures InfoFor(Entries(ps, n), ps[i].pid) == Some(EntryOf(ps, i))
  {
    var more := if ps[n - 1].pid > 0 then [EntryOf(ps, n - 1)] else [];
    if i < n - 1 {
      EntryAmong(ps, i, n - 1);
    }
    if more != [] {
      assert Entries(ps, n)[..|Entries(ps, n)| - 1] == Entries(ps, n - 1);
    } else {
      assert Entries(ps, n) == Entries(ps, n - 1);
    }
  }

  /** The entry of a process is that of its seat: the seat's own index, id and display, how many seats come before it on that
      display and how many there are. */
  lemma {:induction false} EntryIsOwn(ps: seq<Placement>, i: nat)
    requires i < |ps| && ps[i].pid > 0 && LastOfProcess(ps, i)
    ensures var p, info := ps[i], InfoFor(Entries(ps, |ps|), ps[i].pid);
      && info.Some? && info.value.pid == p.pid && info.value.index == p.seatIndex && info.value.id == p.seatID
      && info.value.disp == p.display
      && info.value.localIndex == CountOn(ps, p.display, i) && info.value.dispTotal == CountOn(ps, p.display, |ps|)
  {
    EntryAmong(ps, i, |ps|);
  }

  /** A process that belongs to no seat is left alone. */
  lemma {:induction false} NoEntry(ps: seq<Placement>, pid: int, n: nat)
    requires n <= |ps| && forall j :: 0 <= j < n && ps[j].pid > 0 ==> ps[j].pid != pid
    ensures InfoFor(Entries(ps, n), pid) == None
  {
    if n > 0 {
      NoEntry(ps, pid, n - 1);
      if ps[n - 1].pid > 0 {
        assert Entries(ps, n)[..|Entries(ps, n)| - 1] == Entries(ps, n - 1);
      } else {
        assert Entries(ps, n) == Entries(ps, n - 1);
      }
    }
  }

  /** On one screen a seat's window is the computed rectangle of its own seat index, moved to the screen's corner. */
  lemma {:induction false} OneScreenWindow(screens: seq<Rect>, virtual: Option<(int, int)>, layout: Layout, ps: seq<Placement>, i: nat)
    requires |screens| <= 1 && i < |ps| && ps[i].pid > 0 && LastOfProcess(ps, i) && ps[i].seatIndex < |ps|
    requires ScreenGeometry(screens, virtual, 0).w > 0 && ScreenGeometry(screens, virtual, 0).h > 0
    ensures var g := ScreenGeometry(screens, virtual, 0);
      WindowOf(screens, virtual, layout, ps, ps[i].pid) ==
        if LeavesAlone(layout, |ps|) then None else Some(Moved(Cell(layout, ps[i].seatIndex, |ps|, g.w, g.h), g.x, g.y))
  {
    EntryIsOwn(ps, i);
    OneScreenAgrees(screens, virtual, layout, |ps|, InfoFor(Entries(ps, |ps|), ps[i].pid).value);
  }

  /** Every seat has a process and a seat index of its own. */
  predicate ProperSeats(ps: seq<Placement>)
  {
    && (forall i :: 0 <= i < |ps| ==> ps[i].pid > 0 && ps[i].seatIndex < |ps|)
    && (forall i, j :: 0 <= i < j < |ps| ==> ps[i].pid != ps[j].pid && ps[i].seatIndex != ps[j].seatIndex)
  }

  /** Of all seats the pixel is in the window of seat i alone, and all windows are placed. */
  ghost predicate OnlyIn(screens: seq<Rect>, virtual: Option<(int, int)>, layout: Layout, ps: seq<Placement>, px: int, py: int, i: nat)
  {
    && i < |ps|
    && forall j :: 0 <= j < |ps| ==>
         WindowOf(screens, virtual, layout, ps, ps[j].pid).Some?
         && (In(WindowOf(screens, virtual, layout, ps, ps[j].pid).value, px, py) <==> j == i)
  }

  /** Every pixel of the screen is in the window of exactly one seat. */
  ghost predicate ScreenTiled(screens: seq<Rect>, virtual: Option<(int, int)>, layout: Layout, ps: seq<Placement>)
  {
    forall px, py :: In(ScreenGeometry(screens, virtual, 0), px, py) ==> exists i: nat :: OnlyIn(screens, virtual, layout, ps, px, py, i)
  }

  function SlotsOf(ps: seq<Placement>): (slots: seq<nat>)
    ensures |slots| == |ps| && forall i :: 0 <= i < |ps| ==> slots[i] == ps[i].seatIndex
  {
    seq(|ps|, i requires 0 <= i < |ps| => ps[i].seatIndex)
  }

  /** The seat with a given index. */
  lemma SeatWith(ps: seq<Placement>, k: nat) returns (i: nat)
    requires ProperSeats(ps) && k < |ps|
    ensures i < |ps| && ps[i].seatIndex == k
  {
    Pigeonhole(SlotsOf(ps), k);
    i :| 0 <= i < |ps| && SlotsOf(ps)[i] == k;
  }

  lemma OneScreenPixel(screens: seq<Rect>, virtual: Option<(int, int)>, layout: Layout, ps: seq<Placement>, px: int, py: int)
    requires |screens| <= 1 && ps != [] && ProperSeats(ps) && In(ScreenGeometry(screens, virtual, 0), px, py)
    requires Supports(layout, |ps|) && !LeavesAlone(layout, |ps|)
    ensures exists i: nat :: OnlyIn(screens, virtual, layout, ps, px, py, i)
  {
    var g, n := ScreenGeometry(screens, virtual, 0), |ps|;
    OwnerInRange(layout, n, g.w, g.h, px - g.x, py - g.y);
    var i := SeatWith(ps, Owner(layout, n, g.w, g.h, px - g.x, py - g.y));
    forall j: nat | j < n
      ensures WindowOf(screens, virtual, layout, ps, ps[j].pid).Some?
      ensures In(WindowOf(screens, virtual, layout, ps, ps[j].pid).value, px, py) <==> j == i
    {
      SeatOwns(screens, virtual, layout, ps, j, px, py);
      SameSeat(ps, i, j);
    }
    assert OnlyIn(screens, virtual, layout, ps, px, py, i);
  }

  lemma SameSeat(ps: seq<Placement>, i: nat, j: nat)
    requires ProperSeats(ps) && i < |ps| && j < |ps|
    ensures ps[i].seatIndex == ps[j].seatIndex <==> i == j
  {
  }

  /** A pixel is in the window of a seat exactly if it belongs to the seat's index. */
  lemma SeatOwns(screens: seq<Rect>, virtual: Option<(int, int)>, layout: Layout, ps: seq<Placement>, j: nat, px: int, py: int)
    requires |screens| <= 1 && ProperSeats(ps) && j < |ps| && In(ScreenGeometry(screens, virtual, 0), px, py)
    requires Supports(layout, |ps|) && !LeavesAlone(layout, |ps|)
    ensures var w, g := WindowOf(screens, virtual, layout, ps, ps[j].pid), ScreenGeometry(screens, virtual, 0);
      w.Some? && (In(w.value, px, py) <==> ps[j].seatIndex == Owner(layout, |ps|, g.w, g.h, px - g.x, py - g.y))
  {
    var g := ScreenGeometry(screens, virtual, 0);
    OneScreenWindow(screens, virtual, layout, ps, j);
    CellHoldsOwned(layout, ps[j].seatIndex, |ps|, g.w, g.h, px - g.x, py - g.y);
  }

  lemma OneScreenCorner(screens: seq<Rect>, virtual: Option<(int, int)>, layout: Layout, ps: seq<Placement>)
    requires |screens| <= 1 && ps != [] && ProperSeats(ps) && !Supports(layout, |ps|) && !LeavesAlone(layout, |ps|)
    requires ScreenGeometry(screens, virtual, 0).w > 0 && ScreenGeometry(screens, virtual, 0).h > 0
    ensures !ScreenTiled(screens, virtual, layout, ps)
  {
    var g, n := ScreenGeometry(screens, virtual, 0), |ps|;
    var px, py := g.x + g.w - 1, g.y + g.h - 1;
    CornerShared(layout, n, g.w, g.h);
    var i := SeatShows(screens, virtual, layout, ps, n - 1, px, py);
    var j := SeatShows(screens, virtual, layout, ps, n - 2, px, py);
    assert In(g, px, py);
    assert forall k: nat :: !OnlyIn(screens, virtual, layout, ps, px, py, k);
  }

  /** The window of the seat with this index shows a pixel that its cell has. */
  lemma SeatShows(screens: seq<Rect>, virtual: Option<(int, int)>, layout: Layout, ps: seq<Placement>, index: nat, px: int, py: int)
    returns (i: nat)
    requires |screens| <= 1 && ProperSeats(ps) && index < |ps| && !LeavesAlone(layout, |ps|)
    requires ScreenGeometry(screens, virtual, 0).w > 0 && ScreenGeometry(screens, virtual, 0).h > 0
    requires var g := ScreenGeometry(screens, virtual, 0); In(Cell(layout, index, |ps|, g.w, g.h), px - g.x, py - g.y)
    ensures i < |ps| && ps[i].seatIndex == index
    ensures WindowOf(screens, virtual, layout, ps, ps[i].pid).Some?
    ensures In(WindowOf(screens, virtual, layout, ps, ps[i].pid).value, px, py)
  {
    i := SeatWith(ps, index);
    OneScreenWindow(screens, virtual, layout, ps, i);
  }

  /** On one screen the windows of seats with different indices tile it if and only if the layout supports their number and
      the script places windows of that layout at all. */
  lemma OneScreenTiled(screens: seq<Rect>, virtual: Option<(int, int)>, layout: Layout, ps: seq<Placement>)
    requires |screens| <= 1 && ps != [] && ProperSeats(ps)
    requires ScreenGeometry(screens, virtual, 0).w > 0 && ScreenGeometry(screens, virtual, 0).h > 0
    ensures ScreenTiled(screens, virtual, layout, ps) <==> Supports(layout, |ps|) && !LeavesAlone(layout, |ps|)
  {
    var g := ScreenGeometry(screens, virtual, 0);
    if LeavesAlone(layout, |ps|) {
      OneScreenWindow(screens, virtual, layout, ps, 0);
      assert In(g, g.x, g.y);
      assert forall k: nat :: !OnlyIn(screens, virtual, layout, ps, g.x, g.y, k);
    } else if Supports(layout, |ps|) {
      forall px, py | In(g, px, py) ensures exists i: nat :: OnlyIn(screens, virtual, layout, ps, px, py, i) {
        OneScreenPixel(screens, virtual, layout, ps, px, py);
      }
    } else {
      OneScreenCorner(screens, virtual, layout, ps);
    }
  }

  // ---- Several screens ----

  /** Seat i of the session, as the script places it by its entry. */
  function PlacedAt(screens: seq<Rect>, layout: Layout, ps: seq<Placement>, i: nat): Option<Rect>
    requires i < |ps|
  {
    PlaceSeat(screens, None, layout, |ps|, EntryOf(ps, i))
  }

  /** That is where the window of its process goes. */
  lemma {:induction false} PlacedByProcess(screens: seq<Rect>, layout: Layout, ps: seq<Placement>, i: nat)
    requires i < |ps| && ps[i].pid > 0 && LastOfProcess(ps, i)
    ensures WindowOf(screens, None, layout, ps, ps[i].pid) == PlacedAt(screens, layout, ps, i)
  {
    EntryAmong(ps, i, |ps|);
  }

  lemma {:induction false} CountAtMost(ps: seq<Placement>, d: int, n: nat)
    requires n <= |ps|
    ensures CountOn(ps, d, n) <= n
  {
    if n > 0 {
      CountAtMost(ps, d, n - 1);
    }
  }

  lemma {:induction false} SeveralScreensPlace(screens: seq<Rect>, layout: Layout, ps: seq<Placement>, i: nat, d: nat)
    requires |screens| > 1 && d < |screens| && i < |ps| && Counts(ps[i], d)
    requires screens[d].w > 0 && screens[d].h > 0
    ensures CountOn(ps, d, i) < CountOn(ps, d, |ps|)
    ensures var g, n := screens[d], CountOn(ps, d, |ps|);
      PlacedAt(screens, layout, ps, i) ==
        if LeavesAlone(layout, |ps|) then None else Some(Moved(Cell(layout, CountOn(ps, d, i), n, g.w, g.h), g.x, g.y))
  {
    var g, n := screens[d], CountOn(ps, d, |ps|);
    CountGrows(ps, d, i + 1, |ps|);
    CountAtMost(ps, d, |ps|);
    if n == 1 {
      SingleCell(layout, g.w, g.h);
    }
    if IsSplit(layout) {
      FrameIsCell(layout, g, CountOn(ps, d, i), n);
    }
  }

  /** Seat i is on display d, and of all seats there the pixel is in its window alone. */
  ghost predicate ShownIn(screens: seq<Rect>, layout: Layout, ps: seq<Placement>, d: nat, px: int, py: int, i: nat)
  {
    && i < |ps| && Counts(ps[i], d)
    && forall j :: 0 <= j < |ps| && Counts(ps[j], d) ==>
         PlacedAt(screens, layout, ps, j).Some? && (In(PlacedAt(screens, layout, ps, j).value, px, py) <==> j == i)
  }

  /** Every pixel of the display is in the window of exactly one of its seats. */
  ghost predicate Tiled(screens: seq<Rect>, layout: Layout, ps: seq<Placement>, d: nat)
    requires d < |screens|
  {
    forall px, py :: In(screens[d], px, py) ==> exists i: nat :: ShownIn(screens, layout, ps, d, px, py, i)
  }

  lemma PixelShown(screens: seq<Rect>, layout: Layout, ps: seq<Placement>, d: nat, px: int, py: int)
    requires |screens| > 1 && d < |screens| && !LeavesAlone(layout, |ps|) && In(screens[d], px, py)
    requires CountOn(ps, d, |ps|) > 0 && Supports(layout, CountOn(ps, d, |ps|))
    ensures exists i: nat :: ShownIn(screens, layout, ps, d, px, py, i)
  {
    var g, n := screens[d], CountOn(ps, d, |ps|);
    var k := Owner(layout, n, g.w, g.h, px - g.x, py - g.y);
    OwnerInRange(layout, n, g.w, g.h, px - g.x, py - g.y);
    var i := LocalIndexTaken(ps, d, |ps|, k);
    forall j: nat | j < |ps| && Counts(ps[j], d)
      ensures PlacedAt(screens, layout, ps, j).Some? && (In(PlacedAt(screens, layout, ps, j).value, px, py) <==> j == i)
    {
      SeveralScreensPlace(screens, layout, ps, j, d);
      CellHoldsOwned(layout, CountOn(ps, d, j), n, g.w, g.h, px - g.x, py - g.y);
      OneSeatEach(ps, d, i, j);
    }
    assert ShownIn(screens, layout, ps, d, px, py, i);
  }

  /** With more seats than the layout can place, the last pixel is in the windows of two of them. */
  lemma CornerTwice(screens: seq<Rect>, layout: Layout, ps: seq<Placement>, d: nat)
    requires |screens| > 1 && d < |screens| && !LeavesAlone(layout, |ps|) && screens[d].w > 0 && screens[d].h > 0
    requires CountOn(ps, d, |ps|) > 0 && !Supports(layout, CountOn(ps, d, |ps|))
    ensures !Tiled(screens, layout, ps, d)
  {
    var g, n := screens[d], CountOn(ps, d, |ps|);
    var px, py := g.x + g.w - 1, g.y + g.h - 1;
    CornerShared(layout, n, g.w, g.h);
    var i := LocalIndexTaken(ps, d, |ps|, n - 1);
    var j := LocalIndexTaken(ps, d, |ps|, n - 2);
    SeveralScreensPlace(screens, layout, ps, i, d);
    SeveralScreensPlace(screens, layout, ps, j, d);
    assert In(PlacedAt(screens, layout, ps, i).value, px, py) && In(PlacedAt(screens, layout, ps, j).value, px, py);
    assert In(g, px, py);
    forall k: nat ensures !ShownIn(screens, layout, ps, d, px, py, k) {
    }
  }

  /** On several screens, for every layout: the windows of a display's seats tile it if and only if the layout supports
      their number and the script places windows of that layout at all. */
  lemma DisplayTiled(screens: seq<Rect>, layout: Layout, ps: seq<Placement>, d: nat)
    requires |screens| > 1 && d < |screens| && screens[d].w > 0 && screens[d].h > 0 && CountOn(ps, d, |ps|) > 0
    ensures Tiled(screens, layout, ps, d) <==> Supports(layout, CountOn(ps, d, |ps|)) && !LeavesAlone(layout, |ps|)
  {
    if LeavesAlone(layout, |ps|) {
      var i := LocalIndexTaken(ps, d, |ps|, 0);
      SeveralScreensPlace(screens, layout, ps, i, d);
      assert In(screens[d], screens[d].x, screens[d].y);
      assert forall k: nat :: !ShownIn(screens, layout, ps, d, screens[d].x, screens[d].y, k);
    } else if Supports(layout, CountOn(ps, d, |ps|)) {
      forall px, py | In(screens[d], px, py) ensures exists i: nat :: ShownIn(screens, layout, ps, d, px, py, i) {
        PixelShown(screens, layout, ps, d, px, py);
      }
    } else {
      CornerTwice(screens, layout, ps, d);
    }
  }

  /** No window leaves the display of its seat, whatever the layout. */
  lemma StaysOnDisplay(screens: seq<Rect>, layout: Layout, ps: seq<Placement>, i: nat, d: nat, px: int, py: int)
    requires |screens| > 1 && d < |screens| && i < |ps| && Counts(ps[i], d)
    requires screens[d].w > 0 && screens[d].h > 0
    ensures PlacedAt(screens, layout, ps, i).None? <==> LeavesAlone(layout, |ps|)
    ensures !LeavesAlone(layout, |ps|) && In(PlacedAt(screens, layout, ps, i).value, px, py) ==> In(screens[d], px, py)
  {
    SeveralScreensPlace(screens, layout, ps, i, d);
    CellInside(layout, CountOn(ps, d, i), CountOn(ps, d, |ps|), screens[d].w, screens[d].h);
  }

  // ---- Display indices ----

  datatype SeatConfig = SeatConfig(displayIndex: int, screenSlot: Option<int>)

  /** The display a seat asks for is connected; one is always taken to be. */
  predicate Connected(d: int, numDisplays: nat)
  {
    0 <= d && (d < numDisplays || d == 0)
  }

  /** clampDisplayIndices, in place: a seat on a connected display stays there, any other goes to display 0. */
  method ClampDisplayIndices(seats: array<SeatConfig>, numDisplays: nat, layout: Layout)
    modifies seats
    ensures forall i :: 0 <= i < seats.Length ==> Connected(seats[i].displayIndex, numDisplays)
    ensures forall i :: 0 <= i < seats.Length ==> seats[i].screenSlot == old(seats[i]).screenSlot
    ensures forall i :: 0 <= i < seats.Length ==>
              seats[i].displayIndex == if Connected(old(seats[i]).displayIndex, numDisplays) then old(seats[i]).displayIndex else 0
  {
    var n := if numDisplays == 0 then 1 else numDisplays;
    var isSplit := layout == SideBySide || layout == TopBottom || layout == QuadGrid || layout == ThreePlayer;
    for i := 0 to seats.Length
      invariant forall j :: 0 <= j < i ==>
                  seats[j].screenSlot == old(seats[j]).screenSlot
                  && seats[j].displayIndex == if Connected(old(seats[j]).displayIndex, numDisplays) then old(seats[j]).displayIndex else 0
      invariant forall j :: i <= j < seats.Length ==> seats[j] == old(seats[j])
    {
      if seats[i].displayIndex >= n || seats[i].displayIndex < 0 {
        seats[i] := seats[i].(displayIndex := 0);
      }
      if n == 1 && isSplit {
        seats[i] := seats[i].(displayIndex := 0);
      }
    }
  }
}
