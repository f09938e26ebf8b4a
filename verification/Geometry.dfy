/** Where each seat's window goes on one screen, and when the windows tile it. */
module Geometry {
  import opened Text

  datatype Layout = SideBySide | TopBottom | QuadGrid | ThreePlayer | DualMonitor | MultiMonitor | Custom | Windowed

  datatype Rect = Rect(x: int, y: int, w: int, h: int)

  predicate In(r: Rect, px: int, py: int)
  {
    r.x <= px < r.x + r.w && r.y <= py < r.y + r.h
  }

  /** Seat i of n on a screen of w by h pixels. */
  function Cell(layout: Layout, i: nat, n: nat, w: int, h: int): Rect
    requires i < n && w > 0 && h > 0
    decreases match layout case QuadGrid => 2 case ThreePlayer => 1 case _ => 0
  {
    match layout
    case SideBySide =>
      var x := i * (w / n);
      Rect(x, 0, if i == n - 1 then w - x else w / n, h)
    case TopBottom =>
      var y := i * (h / n);
      Rect(0, y, w, if i == n - 1 then h - y else h / n)
    case QuadGrid =>
      if n < 4 then Cell(if n == 3 then ThreePlayer else SideBySide, i, n, w, h)
      else
        var halfW, halfH := w / 2, h / 2;
        if i == 0 then Rect(0, 0, halfW, halfH)
        else if i == 1 then Rect(halfW, 0, w - halfW, halfH)
        else if i == 2 then Rect(0, halfH, halfW, h - halfH)
        else Rect(halfW, halfH, w - halfW, h - halfH)
    case ThreePlayer =>
      if n < 3 then Cell(SideBySide, i, n, w, h)
      else
        var halfW, halfH := w / 2, h / 2;
        if i == 0 then Rect(0, 0, w, halfH)
        else if i == 1 then Rect(0, halfH, halfW, h - halfH)
        else Rect(halfW, halfH, w - halfW, h - halfH)
    case _ => Rect(0, 0, w, h)
  }

  // ---- Tiling ----

  /** The rectangles lie in the area, no two share a pixel, and every pixel of the area is in one. */
  ghost predicate Tiles(rects: seq<Rect>, area: Rect)
  {
    && (forall i, px, py :: 0 <= i < |rects| && In(rects[i], px, py) ==> In(area, px, py))
    && (forall i, j, px, py :: 0 <= i < j < |rects| && In(rects[i], px, py) ==> !In(rects[j], px, py))
    && (forall px, py :: In(area, px, py) ==> CoveredBy(rects, px, py))
  }

  ghost predicate CoveredBy(rects: seq<Rect>, px: int, py: int)
  {
    exists i :: 0 <= i < |rects| && In(rects[i], px, py)
  }

  function Cells(layout: Layout, n: nat, w: int, h: int): (r: seq<Rect>)
    requires n > 0 && w > 0 && h > 0
    ensures |r| == n && forall i :: 0 <= i < n ==> r[i] == Cell(layout, i, n, w, h)
  {
    seq(n, i requires 0 <= i < n => Cell(layout, i, n, w, h))
  }

  /** The numbers of seats a layout can place. */
  predicate Supports(layout: Layout, n: nat)
  {
    match layout
    case SideBySide => true
    case TopBottom => true
    case QuadGrid => n <= 4
    case ThreePlayer => n <= 3
    case _ => n == 1
  }

  /** The band of width size / n a position falls in; the last band takes what is left over. */
  function Band(p: int, n: nat, size: int): nat
    requires 0 <= p < size && n > 0
  {
    var b := size / n;
    if b == 0 || p / b >= n then n - 1 else p / b
  }

  lemma BandsFit(i: nat, n: nat, size: int)
    requires i < n && size > 0
    ensures 0 <= i * (size / n) <= (n - 1) * (size / n) <= size
    ensures i < n - 1 ==> i * (size / n) + size / n <= (n - 1) * (size / n)
  {
    var b := size / n;
    QuotientBounds(size, n);
    BandsWithin(i, n, size, b);
  }

  lemma BandsWithin(i: nat, n: nat, size: int, b: nat)
    requires i < n && b * n <= size
    ensures 0 <= i * b <= (n - 1) * b <= size
    ensures i < n - 1 ==> i * b + b <= (n - 1) * b
  {
    BandsGrow(i, n - 1, b);
    BandsGrow(n - 1, n, b);
    if i < n - 1 {
      BandsGrow(i + 1, n - 1, b);
      OneBandMore(i, b);
    }
  }

  lemma OneBandMore(i: nat, b: int)
    ensures (i + 1) * b == i * b + b
  {
  }

  lemma {:induction false} BandsGrow(i: nat, j: nat, b: int)
    requires i <= j && b >= 0
    ensures 0 <= i * b <= j * b
  {
    assert j * b == i * b + (j - i) * b;
    assert (j - i) * b >= 0;
  }

  lemma BandAt(p: int, q: nat, b: int, i: nat)
    requires b > 0 && q * b <= p < q * b + b
    ensures i * b <= p <==> i <= q
    ensures p < i * b + b <==> q <= i
  {
    if i <= q {
      BandsGrow(i, q, b);
    } else {
      BandsGrow(q + 1, i, b);
      assert (q + 1) * b == q * b + b;
    }
    if i < q {
      BandsGrow(i + 1, q, b);
      assert (i + 1) * b == i * b + b;
    }
  }

  /** A position is in band i exactly if that is its band. */
  lemma InBand(p: int, i: nat, n: nat, size: int)
    requires 0 <= p < size && i < n
    ensures var x := i * (size / n);
      (x <= p < x + if i == n - 1 then size - x else size / n) <==> i == Band(p, n, size)
  {
    var b := size / n;
    if b > 0 {
      QuotientBounds(p, b);
      BandAt(p, p / b, b, i);
      assert i * b <= p <==> i <= p / b;
    } else {
      TimesZero(i, b);
    }
  }

  lemma TimesZero(i: nat, b: int)
    requires b == 0
    ensures i * b == 0
  {
  }

  lemma {:induction false} QuotientBounds(p: nat, b: int)
    requires b > 0
    ensures p / b >= 0 && p / b * b <= p < p / b * b + b
  {
    assert p == p / b * b + p % b;
  }

  /** The seat a pixel belongs to. */
  function Owner(layout: Layout, n: nat, w: int, h: int, px: int, py: int): nat
    requires n > 0 && 0 <= px < w && 0 <= py < h
    decreases match layout case QuadGrid => 2 case ThreePlayer => 1 case _ => 0
  {
    match layout
    case SideBySide => Band(px, n, w)
    case TopBottom => Band(py, n, h)
    case QuadGrid =>
      if n < 4 then Owner(if n == 3 then ThreePlayer else SideBySide, n, w, h, px, py)
      else (if px < w / 2 then 0 else 1) + if py < h / 2 then 0 else 2
    case ThreePlayer =>
      if n < 3 then Owner(SideBySide, n, w, h, px, py)
      else if py < h / 2 then 0 else if px < w / 2 then 1 else 2
    case _ => 0
  }

  lemma {:induction false} CellInside(layout: Layout, i: nat, n: nat, w: int, h: int)
    requires i < n && w > 0 && h > 0
    ensures var r := Cell(layout, i, n, w, h); 0 <= r.x && r.x + r.w <= w && 0 <= r.y && r.y + r.h <= h
  {
    BandsFit(i, n, w);
    BandsFit(i, n, h);
  }

  /** On a supported layout a pixel is in a seat's window exactly if it belongs to that seat. */
  lemma {:induction false} CellHoldsOwned(layout: Layout, i: nat, n: nat, w: int, h: int, px: int, py: int)
    requires i < n && 0 <= px < w && 0 <= py < h && Supports(layout, n)
    ensures In(Cell(layout, i, n, w, h), px, py) <==> i == Owner(layout, n, w, h, px, py)
    decreases match layout case QuadGrid => 2 case ThreePlayer => 1 case _ => 0
  {
    match layout
    case SideBySide => InBand(px, i, n, w);
    case TopBottom => InBand(py, i, n, h);
    case QuadGrid =>
      if n < 4 {
        CellHoldsOwned(if n == 3 then ThreePlayer else SideBySide, i, n, w, h, px, py);
      }
    case ThreePlayer =>
      if n < 3 {
        CellHoldsOwned(SideBySide, i, n, w, h, px, py);
      }
    case _ =>
  }

  lemma {:induction false} OwnerInRange(layout: Layout, n: nat, w: int, h: int, px: int, py: int)
    requires n > 0 && 0 <= px < w && 0 <= py < h && Supports(layout, n)
    ensures Owner(layout, n, w, h, px, py) < n
  {
  }

  // ---- The window of a seat ----

  /** The size a screen counts as: the default one unless both sides are positive. */
  function ScreenSize(totalWidth: int, totalHeight: int, default: (int, int)): (size: (int, int))
    requires default.0 > 0 && default.1 > 0
    ensures size.0 > 0 && size.1 > 0
    ensures totalWidth > 0 && totalHeight > 0 ==> size == (totalWidth, totalHeight)
  {
    if totalWidth <= 0 || totalHeight <= 0 then default else (totalWidth, totalHeight)
  }

  /** The number of seats a session counts as, and the seat an index stands for. */
  function SeatCount(totalSeats: int): (n: nat)
    ensures n > 0 && (totalSeats > 0 ==> n == totalSeats)
  {
    if totalSeats <= 0 then 2 else totalSeats
  }

  function SeatNumber(seatIndex: int, n: nat): (i: nat)
    requires n > 0
    ensures i < n && (0 <= seatIndex < n ==> i == seatIndex)
  {
    if seatIndex < 0 then 0 else if seatIndex >= n then n - 1 else seatIndex
  }

  /** CalculateSeatGeometry: whatever the arguments, the rectangle lies on the screen; on a supported layout it holds
      exactly the pixels that belong to the seat. */
  method CalculateSeatGeometry(layout: Layout, seatIndex: int, totalSeats: int, totalWidth: int, totalHeight: int, default: (int, int))
    returns (r: Rect)
    requires default.0 > 0 && default.1 > 0
    ensures var (w, h) := ScreenSize(totalWidth, totalHeight, default);
      0 <= r.x && r.x + r.w <= w && 0 <= r.y && r.y + r.h <= h
    ensures var (w, h), n := ScreenSize(totalWidth, totalHeight, default), SeatCount(totalSeats);
      Supports(layout, n) ==>
        forall px, py :: 0 <= px < w && 0 <= py < h ==>
          (In(r, px, py) <==> Owner(layout, n, w, h, px, py) == SeatNumber(seatIndex, n))
    ensures var (w, h), n := ScreenSize(totalWidth, totalHeight, default), SeatCount(totalSeats);
      r == Cell(layout, SeatNumber(seatIndex, n), n, w, h)
  {
    var w, h := totalWidth, totalHeight;
    if w <= 0 || h <= 0 {
      w, h := default.0, default.1;
    }
    var n := if totalSeats <= 0 then 2 else totalSeats;
    var i := if seatIndex < 0 then 0 else seatIndex;
    if i >= n {
      i := n - 1;
    }
    r := Cell(layout, i, n, w, h);
    CellInside(layout, i, n, w, h);
    if Supports(layout, n) {
      forall px, py | 0 <= px < w && 0 <= py < h ensures In(r, px, py) <==> Owner(layout, n, w, h, px, py) == i {
        CellHoldsOwned(layout, i, n, w, h, px, py);
      }
    }
  }

  // ---- Exact tiling ----

  /** The corner pixel the seats beyond a layout's capacity fight over. */
  lemma CornerShared(layout: Layout, n: nat, w: int, h: int)
    requires n > 0 && w > 0 && h > 0 && !Supports(layout, n)
    ensures In(Cell(layout, n - 1, n, w, h), w - 1, h - 1) && In(Cell(layout, n - 2, n, w, h), w - 1, h - 1)
  {
  }

  /** For any screen and any number of seats: the windows tile the screen exactly if the layout supports that number. */
  lemma ExactTiling(layout: Layout, n: nat, w: int, h: int)
    requires n > 0 && w > 0 && h > 0
    ensures Tiles(Cells(layout, n, w, h), Rect(0, 0, w, h)) <==> Supports(layout, n)
  {
    var cells, area := Cells(layout, n, w, h), Rect(0, 0, w, h);
    if Supports(layout, n) {
      SlotsTile(layout, Identity(n), w, h);
      assert Placed(layout, Identity(n), w, h) == cells;
    } else {
      CornerShared(layout, n, w, h);
      assert In(cells[n - 2], w - 1, h - 1) && In(cells[n - 1], w - 1, h - 1);
    }
  }

  // ---- Slots ----

  function Identity(n: nat): (s: seq<nat>)
    ensures |s| == n && forall i :: 0 <= i < n ==> s[i] == i
  {
    seq(n, i requires 0 <= i => i)
  }

  predicate Injective(slots: seq<nat>)
  {
    forall i, j :: 0 <= i < j < |slots| ==> slots[i] != slots[j]
  }

  predicate InRange(slots: seq<nat>)
  {
    forall i :: 0 <= i < |slots| ==> slots[i] < |slots|
  }

  /** The windows of seats that sit in the given slots. */
  function Placed(layout: Layout, slots: seq<nat>, w: int, h: int): (r: seq<Rect>)
    requires slots != [] && InRange(slots) && w > 0 && h > 0
    ensures |r| == |slots| && forall i :: 0 <= i < |r| ==> r[i] == Cell(layout, slots[i], |slots|, w, h)
  {
    seq(|slots|, i requires 0 <= i < |slots| => Cell(layout, slots[i], |slots|, w, h))
  }

  function Below(n: nat): (s: set<nat>)
    ensures forall i: nat :: i in s <==> i < n
    ensures |s| == n
  {
    if n == 0 then {} else Below(n - 1) + {n - 1}
  }

  function Used(slots: seq<nat>): (s: set<nat>)
    ensures forall k :: k in s <==> k in slots
  {
    if slots == [] then {} else Used(slots[..|slots| - 1]) + {slots[|slots| - 1]}
  }

  lemma {:induction false} UsedCount(slots: seq<nat>)
    requires Injective(slots)
    ensures |Used(slots)| == |slots|
  {
    if slots != [] {
      UsedCount(slots[..|slots| - 1]);
    }
  }

  /** n different numbers below n are all of them. */
  lemma Pigeonhole(slots: seq<nat>, k: nat)
    requires InRange(slots) && Injective(slots) && k < |slots|
    ensures k in slots
  {
    UsedCount(slots);
    if k !in slots {
      SubsetCount(Used(slots), Below(|slots|) - {k});
    }
  }

  lemma {:induction false} SubsetCount(a: set<nat>, b: set<nat>)
    requires a <= b
    ensures |a| <= |b|
    decreases a
  {
    if a != {} {
      var x :| x in a;
      SubsetCount(a - {x}, b - {x});
    }
  }

  /** Seats in different slots of a supported layout tile the screen. */
  lemma SlotsTile(layout: Layout, slots: seq<nat>, w: int, h: int)
    requires slots != [] && InRange(slots) && Injective(slots) && w > 0 && h > 0 && Supports(layout, |slots|)
    ensures Tiles(Placed(layout, slots, w, h), Rect(0, 0, w, h))
  {
    var n, rects, area := |slots|, Placed(layout, slots, w, h), Rect(0, 0, w, h);
    forall i, px, py | 0 <= i < n && In(rects[i], px, py) ensures In(area, px, py) {
      CellInside(layout, slots[i], n, w, h);
    }
    forall i, j, px, py | 0 <= i < j < n && In(rects[i], px, py) ensures !In(rects[j], px, py) {
      CellInside(layout, slots[i], n, w, h);
      CellHoldsOwned(layout, slots[i], n, w, h, px, py);
      CellHoldsOwned(layout, slots[j], n, w, h, px, py);
    }
    forall px, py | In(area, px, py) ensures CoveredBy(rects, px, py) {
      var k := Owner(layout, n, w, h, px, py);
      OwnerInRange(layout, n, w, h, px, py);
      Pigeonhole(slots, k);
      var i :| 0 <= i < n && slots[i] == k;
      CellHoldsOwned(layout, k, n, w, h, px, py);
      assert In(rects[i], px, py);
    }
  }

  /** Two seats in one slot with a pixel in it do not. */
  lemma {:induction false} SharedSlotOverlaps(layout: Layout, slots: seq<nat>, w: int, h: int, i: nat, j: nat)
    requires slots != [] && InRange(slots) && w > 0 && h > 0 && i < j < |slots| && slots[i] == slots[j]
    requires Cell(layout, slots[i], |slots|, w, h).w > 0 && Cell(layout, slots[i], |slots|, w, h).h > 0
    ensures !Tiles(Placed(layout, slots, w, h), Rect(0, 0, w, h))
  {
    var rects := Placed(layout, slots, w, h);
    assert In(rects[i], rects[i].x, rects[i].y) && In(rects[j], rects[i].x, rects[i].y);
  }

  /** seatSlot: an explicit slot in range, else the position among the seats. */
  function SeatSlot(slot: Option<int>, idx: nat, total: nat): (r: nat)
    requires idx < total
    ensures r < total
  {
    if slot.Some? && 0 <= slot.value < total then slot.value else idx
  }

  /** Without explicit slots every seat has its own. */
  lemma DefaultSlotsInjective(n: nat, slots: seq<nat>)
    requires |slots| == n && forall i :: 0 <= i < n ==> slots[i] == SeatSlot(None, i, n)
    ensures Injective(slots) && InRange(slots)
  {
  }

  /** Seats with different explicit slots in range sit in exactly these, and tile the screen. */
  lemma ExplicitSlotsTile(layout: Layout, chosen: seq<nat>, slots: seq<nat>, w: int, h: int)
    requires chosen != [] && InRange(chosen) && Injective(chosen) && w > 0 && h > 0 && Supports(layout, |chosen|)
    requires |slots| == |chosen| && forall i :: 0 <= i < |chosen| ==> slots[i] == SeatSlot(Some(chosen[i]), i, |chosen|)
    ensures slots == chosen && Tiles(Placed(layout, slots, w, h), Rect(0, 0, w, h))
  {
    SlotsTile(layout, chosen, w, h);
  }

  /** normalizeLayout: a layout for more seats than there are is replaced by the one that fits. */
  function NormalizeLayout(layout: Layout, n: int): Layout
  {
    if n == 2 && (layout == ThreePlayer || layout == QuadGrid) then SideBySide
    else if n == 3 && layout == QuadGrid then ThreePlayer
    else layout
  }

  /** The replacement is the same geometry, and never a grid with places for more seats than there are. */
  lemma {:induction false} NormalizingKeepsGeometry(layout: Layout, i: nat, n: nat, w: int, h: int)
    requires i < n && w > 0 && h > 0
    ensures var l := NormalizeLayout(layout, n); (l == QuadGrid ==> n != 2 && n != 3) && (l == ThreePlayer ==> n != 2)
    ensures Cell(NormalizeLayout(layout, n), i, n, w, h) == Cell(layout, i, n, w, h)
    ensures Supports(NormalizeLayout(layout, n), n) == Supports(layout, n)
  {
  }

  // ---- Which seat sits where ----

  predicate LeftOf(a: Rect, b: Rect)
  {
    a.x + a.w == b.x && a.y == b.y && a.h == b.h
  }

  predicate Above(a: Rect, b: Rect)
  {
    a.y + a.h == b.y && a.x == b.x && a.w == b.w
  }

  /** The widths or heights of two bands: equal, but for the few pixels that do not divide. */
  predicate FairShare(size: int, last: int, n: nat)
  {
    size <= last < size + n
  }

  /** Side by side, every seat is left of the next one; top to bottom, above it; and only the last one is larger. */
  lemma {:induction false} NeighboursMeet(i: nat, n: nat, w: int, h: int)
    requires i + 1 < n && w > 0 && h > 0
    ensures LeftOf(Cell(SideBySide, i, n, w, h), Cell(SideBySide, i + 1, n, w, h))
    ensures Above(Cell(TopBottom, i, n, w, h), Cell(TopBottom, i + 1, n, w, h))
    ensures FairShare(Cell(SideBySide, i, n, w, h).w, Cell(SideBySide, n - 1, n, w, h).w, n)
    ensures FairShare(Cell(TopBottom, i, n, w, h).h, Cell(TopBottom, n - 1, n, w, h).h, n)
  {
    OneBandMore(i, w / n);
    OneBandMore(i, h / n);
    LastBand(n, w);
    LastBand(n, h);
  }

  lemma LastBand(n: nat, size: int)
    requires n > 0 && size > 0
    ensures FairShare(size / n, size - (n - 1) * (size / n), n)
  {
    assert size == size / n * n + size % n;
    assert (n - 1) * (size / n) == size / n * n - size / n;
  }

  /** In a grid the seats go along the rows; of three seats the first has the upper half to itself. */
  lemma GridsMeet(n: nat, w: int, h: int)
    requires w > 0 && h > 0
    ensures n >= 4 ==>
              var c := Cells(QuadGrid, n, w, h);
              LeftOf(c[0], c[1]) && LeftOf(c[2], c[3]) && Above(c[0], c[2]) && Above(c[1], c[3])
              && FairShare(c[0].w, c[1].w, 2) && FairShare(c[0].h, c[2].h, 2)
    ensures n >= 3 ==>
              var c := Cells(ThreePlayer, n, w, h);
              LeftOf(c[1], c[2]) && c[0].x == 0 && c[0].w == w && c[0].y + c[0].h == c[1].y
              && FairShare(c[1].w, c[2].w, 2) && FairShare(c[0].h, c[1].h, 2)
  {
  }
}
