/**
 * The "Hydrothermal Venture" ocean floor: vent lines `x1,y1 -> x2,y2` are
 * drawn cell by cell onto a 1000 × 1000 floor, and the answer is the number
 * of cells covered by at least two lines. A cell only records 0, 1 or 2
 * (two meaning "two or more"), and each drawer returns how many of its cells
 * went from 1 to 2.
 */
module Vents {
  import opened Wrappers
  import Text
  import Decimal

  const FLOOR_WIDTH: nat := 1000
  const FLOOR_HEIGHT: nat := 1000
  const FLOOR_SIZE: nat := 1_000_000

  /** A `u16` coordinate. */
  type Coord = n: nat | n <= 0xffff

  datatype Point = Point(x: Coord, y: Coord)

  /** One vent line, from `p1` to `p2`, both ends included. */
  datatype Vent = Vent(p1: Point, p2: Point)

  function Min(a: nat, b: nat): nat
  {
    if a < b then a else b
  }

  function Max(a: nat, b: nat): nat
  {
    if a < b then b else a
  }

  /** The floor is stored row by row: cell (x, y) lives at y * 1000 + x. */
  function PointToPos(x: nat, y: nat): (pos: nat)
    ensures x < FLOOR_WIDTH ==> pos / FLOOR_WIDTH == y && pos % FLOOR_WIDTH == x
    ensures x < FLOOR_WIDTH && y < FLOOR_HEIGHT ==> pos < FLOOR_SIZE
  {
    y * FLOOR_WIDTH + x
  }

  // ----- Cells and marks -----

  /** Every cell holds 0, 1 or 2. */
  predicate Marks(cells: seq<nat>)
  {
    forall p :: 0 <= p < |cells| ==> cells[p] <= 2
  }

  /** One mark on a cell: 0 becomes 1, 1 becomes 2, 2 stays 2. */
  function Bump(v: nat): (w: nat)
    requires v <= 2
    ensures 1 <= w <= 2
  {
    if v < 2 then v + 1 else v
  }

  /** Every position the list names is a cell of the floor. */
  predicate OnFloor(ps: seq<nat>)
  {
    forall k :: 0 <= k < |ps| ==> ps[k] < FLOOR_SIZE
  }

  /** The floor after marking the positions `ps` in order. */
  function Paint(cells: seq<nat>, ps: seq<nat>): (r: seq<nat>)
    requires Marks(cells) && forall k :: 0 <= k < |ps| ==> ps[k] < |cells|
    ensures |r| == |cells| && Marks(r)
  {
    if ps == [] then cells
    else
      var c := Paint(cells, ps[..|ps| - 1]);
      var p := ps[|ps| - 1];
      c[p := Bump(c[p])]
  }

  /** The number of marks among `ps` that found their cell at 1, turning it to 2. */
  function Gained(cells: seq<nat>, ps: seq<nat>): nat
    requires Marks(cells) && forall k :: 0 <= k < |ps| ==> ps[k] < |cells|
  {
    if ps == [] then 0
    else
      var p := ps[|ps| - 1];
      Gained(cells, ps[..|ps| - 1]) + (if Paint(cells, ps[..|ps| - 1])[p] == 1 then 1 else 0)
  }

  /** The number of cells that hold 2. */
  function Twos(cells: seq<nat>): nat
  {
    if cells == [] then 0 else Twos(cells[..|cells| - 1]) + (if cells[|cells| - 1] == 2 then 1 else 0)
  }

  /** The floor before any line is drawn. */
  function EmptyFloor(): (cells: seq<nat>)
    ensures |cells| == FLOOR_SIZE && Marks(cells)
  {
    seq(FLOOR_SIZE, _ => 0)
  }

  lemma {:induction false} TwosUpdate(s: seq<nat>, i: nat, v: nat)
    requires i < |s|
    ensures Twos(s[i := v]) + (if s[i] == 2 then 1 else 0) == Twos(s) + (if v == 2 then 1 else 0)
    decreases |s|
  {
    if i < |s| - 1 {
      TwosUpdate(s[..|s| - 1], i, v);
      assert s[i := v][..|s| - 1] == s[..|s| - 1][i := v];
    } else {
      assert s[i := v][..|s| - 1] == s[..|s| - 1];
    }
  }

  /** A floor with no 2 on it counts no overlap. */
  lemma {:induction false} TwosNone(s: seq<nat>)
    requires forall i :: 0 <= i < |s| ==> s[i] < 2
    ensures Twos(s) == 0
  {
    if s != [] {
      TwosNone(s[..|s| - 1]);
    }
  }

  /** Every gained overlap is one more cell at 2, and no cell ever leaves 2. */
  lemma {:induction false} PaintTwos(cells: seq<nat>, ps: seq<nat>)
    requires Marks(cells) && forall k :: 0 <= k < |ps| ==> ps[k] < |cells|
    ensures Twos(Paint(cells, ps)) == Twos(cells) + Gained(cells, ps)
  {
    if ps != [] {
      var init, p := ps[..|ps| - 1], ps[|ps| - 1];
      PaintTwos(cells, init);
      var c := Paint(cells, init);
      TwosUpdate(c, p, Bump(c[p]));
    }
  }

  /**
   * A cell ends at its old value plus the number of times `ps` names it, but
   * never above 2.
   */
  lemma {:induction false} PaintCount(cells: seq<nat>, ps: seq<nat>, p: nat)
    requires Marks(cells) && forall k :: 0 <= k < |ps| ==> ps[k] < |cells|
    requires p < |cells|
    ensures Paint(cells, ps)[p] == Min(2, cells[p] + multiset(ps)[p])
  {
    if ps != [] {
      var init := ps[..|ps| - 1];
      PaintCount(cells, init, p);
      assert ps == init + [ps[|ps| - 1]];
    }
  }

  /** Marking `a` and then `b` is marking `a + b`, and the gains add up. */
  lemma {:induction false} PaintAppend(cells: seq<nat>, a: seq<nat>, b: seq<nat>)
    requires Marks(cells)
    requires forall k :: 0 <= k < |a| ==> a[k] < |cells|
    requires forall k :: 0 <= k < |b| ==> b[k] < |cells|
    ensures Paint(cells, a + b) == Paint(Paint(cells, a), b)
    ensures Gained(cells, a + b) == Gained(cells, a) + Gained(Paint(cells, a), b)
  {
    if b == [] {
      assert a + b == a;
    } else {
      var init := b[..|b| - 1];
      PaintAppend(cells, a, init);
      assert (a + b)[..|a + b| - 1] == a + init;
    }
  }

  lemma {:induction false} PaintSnoc(cells: seq<nat>, ps: seq<nat>, p: nat)
    requires Marks(cells) && forall k :: 0 <= k < |ps| ==> ps[k] < |cells|
    requires p < |cells|
    ensures Paint(cells, ps + [p]) == Paint(cells, ps)[p := Bump(Paint(cells, ps)[p])]
    ensures Gained(cells, ps + [p]) == Gained(cells, ps) + (if Paint(cells, ps)[p] == 1 then 1 else 0)
  {
    assert (ps + [p])[..|ps|] == ps;
  }

  /**
   * One mark in place. The "marked twice" panic of the source needs a cell
   * above 2, which no sequence of marks produces.
   */
  method MarkCell(floor: array<nat>, pos: nat) returns (overlap: nat)
    requires pos < floor.Length && floor[pos] <= 2
    modifies floor
    ensures floor[..] == old(floor[..])[pos := Bump(old(floor[pos]))]
    ensures overlap == if old(floor[pos]) == 1 then 1 else 0
  {
    var val := floor[pos];
    if val == 0 {
      floor[pos] := 1;
      overlap := 0;
    } else if val == 1 {
      floor[pos] := 2;
      overlap := 1;
    } else if val == 2 {
      overlap := 0;
    } else {
      assert false;
    }
  }

  /**
   * Marks `cells[k]` on a floor that already shows the marks of the cells
   * before it, and reports whether that made a new overlap.
   */
  method MarkNext(floor: array<nat>, ghost start: seq<nat>, ghost cells: seq<nat>, ghost k: nat, pos: nat)
    returns (overlap: nat)
    requires Marks(start) && |start| == floor.Length
    requires forall j :: 0 <= j < |cells| ==> cells[j] < |start|
    requires k < |cells| && cells[k] == pos
    requires floor[..] == Paint(start, cells[..k])
    modifies floor
    ensures floor[..] == Paint(start, cells[..k + 1])
    ensures Gained(start, cells[..k + 1]) == Gained(start, cells[..k]) + overlap
  {
    assert cells[..k + 1] == cells[..k] + [pos];
    PaintSnoc(start, cells[..k], pos);
    overlap := MarkCell(floor, pos);
  }

  // ----- Lines -----

  /**
   * The cells of `horizontal_line`: the column at `x` from the smaller to the
   * larger of `y1` and `y2`, both included.
   */
  function HorizontalCells(x: nat, y1: nat, y2: nat): (ps: seq<nat>)
    ensures |ps| == Max(y1, y2) - Min(y1, y2) + 1
  {
    var lo, n := Min(y1, y2), Max(y1, y2) - Min(y1, y2) + 1;
    seq(n, k requires 0 <= k < n => (lo + k) * FLOOR_WIDTH + x)
  }

  /** The cells of `vertical_line`: the row at `y` from the smaller to the larger of `x1` and `x2`. */
  function VerticalCells(y: nat, x1: nat, x2: nat): (ps: seq<nat>)
    ensures |ps| == Max(x1, x2) - Min(x1, x2) + 1
  {
    var lo, n := Min(x1, x2), Max(x1, x2) - Min(x1, x2) + 1;
    seq(n, k requires 0 <= k < n => y * FLOOR_WIDTH + lo + k)
  }

  /** Exactly the column cells between the two ends are drawn, in either argument order. */
  lemma {:induction false} HorizontalCellsExact(x: nat, y1: nat, y2: nat, y: nat)
    ensures PointToPos(x, y) in HorizontalCells(x, y1, y2) <==> Min(y1, y2) <= y <= Max(y1, y2)
    ensures HorizontalCells(x, y1, y2) == HorizontalCells(x, y2, y1)
  {
    var ps := HorizontalCells(x, y1, y2);
    if Min(y1, y2) <= y <= Max(y1, y2) {
      assert ps[y - Min(y1, y2)] == PointToPos(x, y);
    }
    if PointToPos(x, y) in ps {
      var k :| 0 <= k < |ps| && ps[k] == PointToPos(x, y);
      assert ps[k] == (Min(y1, y2) + k) * FLOOR_WIDTH + x;
    }
  }

  /** Exactly the row cells between the two ends are drawn, in either argument order. */
  lemma {:induction false} VerticalCellsExact(y: nat, x1: nat, x2: nat, x: nat)
    ensures PointToPos(x, y) in VerticalCells(y, x1, x2) <==> Min(x1, x2) <= x <= Max(x1, x2)
    ensures VerticalCells(y, x1, x2) == VerticalCells(y, x2, x1)
  {
    var ps := VerticalCells(y, x1, x2);
    if Min(x1, x2) <= x <= Max(x1, x2) {
      assert ps[x - Min(x1, x2)] == PointToPos(x, y);
    }
    if PointToPos(x, y) in ps {
      var k :| 0 <= k < |ps| && ps[k] == PointToPos(x, y);
      assert ps[k] == y * FLOOR_WIDTH + Min(x1, x2) + k;
    }
  }

  /** A coordinate `k` steps from `a` towards `b`. */
  function Step(a: nat, b: nat, k: nat): int
  {
    if a > b then a - k else a + k
  }

  /** The first `steps` cells from `p1` towards `p2`, moving one step along both axes at a time. */
  function DiagonalCells(p1: Point, p2: Point, steps: nat): (ps: seq<nat>)
    requires p1.x > p2.x ==> steps <= p1.x + 1
    requires p1.y > p2.y ==> steps <= p1.y + 1
    ensures |ps| == steps
  {
    seq(steps, k requires 0 <= k < steps =>
      PointToPos(Step(p1.x, p2.x, k) as nat, Step(p1.y, p2.y, k) as nat))
  }

  /** The number of steps between the x coordinates of the ends. */
  function Distance(a: nat, b: nat): nat
  {
    if a > b then a - b else b - a
  }

  /** The line drawers need their cells on the floor and every cell at most 2. */
  predicate Ready(floor: seq<nat>, ps: seq<nat>)
  {
    |floor| == FLOOR_SIZE && Marks(floor) && OnFloor(ps)
  }

  /** `horizontal_line`: marks the column at `x` between `y1` and `y2`, counting new overlaps. */
  method HorizontalLine(floor: array<nat>, x: Coord, y1: Coord, y2: Coord) returns (overlaps: nat)
    requires Ready(floor[..], HorizontalCells(x, y1, y2))
    modifies floor
    ensures floor[..] == Paint(old(floor[..]), HorizontalCells(x, y1, y2))
    ensures overlaps == Gained(old(floor[..]), HorizontalCells(x, y1, y2))
  {
    ghost var cells := HorizontalCells(x, y1, y2);
    ghost var start := floor[..];
    var lo: nat, hi: nat := y1, y2;
    if lo > hi {
      lo, hi := hi, lo;
    }
    assert forall k :: 0 <= k < |cells| ==> cells[k] < |start|;
    overlaps := 0;
    for y := lo to hi + 1
      invariant floor[..] == Paint(start, cells[..y - lo])
      invariant overlaps == Gained(start, cells[..y - lo])
    {
      var n := MarkNext(floor, start, cells, y - lo, PointToPos(x, y));
      overlaps := overlaps + n;
    }
    assert cells[..hi + 1 - lo] == cells;
  }

  /** `vertical_line`: marks the row at `y` between `x1` and `x2`, counting new overlaps. */
  method VerticalLine(floor: array<nat>, y: Coord, x1: Coord, x2: Coord) returns (overlaps: nat)
    requires Ready(floor[..], VerticalCells(y, x1, x2))
    requires Max(x1, x2) < 0xffff
    modifies floor
    ensures floor[..] == Paint(old(floor[..]), VerticalCells(y, x1, x2))
    ensures overlaps == Gained(old(floor[..]), VerticalCells(y, x1, x2))
  {
    ghost var cells := VerticalCells(y, x1, x2);
    ghost var start := floor[..];
    var lo: nat, hi: nat := x1, x2;
    if lo > hi {
      lo, hi := hi, lo;
    }
    assert forall k :: 0 <= k < |cells| ==> cells[k] < |start|;
    overlaps := 0;
    for x := lo to hi + 1
      invariant floor[..] == Paint(start, cells[..x - lo])
      invariant overlaps == Gained(start, cells[..x - lo])
    {
      var n := MarkNext(floor, start, cells, x - lo, PointToPos(x, y));
      overlaps := overlaps + n;
    }
    assert cells[..hi + 1 - lo] == cells;
  }

  /** The y coordinate stays on the floor (non-negative) for `steps` steps. */
  predicate DiagonalFits(p1: Point, p2: Point, steps: nat)
  {
    p1.y > p2.y ==> steps <= p1.y + 1
  }

  /**
   * `diagonal` as written: it steps from `p1` while x differs from `p2.x`,
   * so it marks `Distance(p1.x, p2.x)` cells and never marks `p2` itself.
   */
  method Diagonal(floor: array<nat>, p1: Point, p2: Point) returns (overlaps: nat)
    requires DiagonalFits(p1, p2, Distance(p1.x, p2.x))
    requires Ready(floor[..], DiagonalCells(p1, p2, Distance(p1.x, p2.x)))
    modifies floor
    ensures floor[..] == Paint(old(floor[..]), DiagonalCells(p1, p2, Distance(p1.x, p2.x)))
    ensures overlaps == Gained(old(floor[..]), DiagonalCells(p1, p2, Distance(p1.x, p2.x)))
  {
    var n := Distance(p1.x, p2.x);
    ghost var cells := DiagonalCells(p1, p2, n);
    ghost var start := floor[..];
    var incX: int := if p1.x > p2.x then -1 else 1;
    var incY: int := if p1.y > p2.y then -1 else 1;
    assert forall j :: 0 <= j < |cells| ==> cells[j] < |start|;
    overlaps := 0;
    var x: int, y: int := p1.x, p1.y;
    ghost var k: nat := 0;
    while x != p2.x
      invariant k <= n == |cells|
      invariant x == Step(p1.x, p2.x, k) && y == Step(p1.y, p2.y, k)
      invariant floor[..] == Paint(start, cells[..k])
      invariant overlaps == Gained(start, cells[..k])
      decreases n - k
    {
      assert k < n;
      var pos := PointToPos(x as nat, y as nat);
      assert cells[k] == pos;
      var m := MarkNext(floor, start, cells, k, pos);
      overlaps := overlaps + m;
      x, y, k := x + incX, y + incY, k + 1;
    }
    assert cells[..k] == cells;
  }

  /**
   * `diagonal` with the end point included, as the horizontal and vertical
   * drawers include theirs: it marks `Distance(p1.x, p2.x) + 1` cells.
   */
  method DiagonalInclusive(floor: array<nat>, p1: Point, p2: Point) returns (overlaps: nat)
    requires DiagonalFits(p1, p2, Distance(p1.x, p2.x) + 1)
    requires Ready(floor[..], DiagonalCells(p1, p2, Distance(p1.x, p2.x) + 1))
    modifies floor
    ensures floor[..] == Paint(old(floor[..]), DiagonalCells(p1, p2, Distance(p1.x, p2.x) + 1))
    ensures overlaps == Gained(old(floor[..]), DiagonalCells(p1, p2, Distance(p1.x, p2.x) + 1))
  {
    var n := Distance(p1.x, p2.x) + 1;
    ghost var cells := DiagonalCells(p1, p2, n);
    ghost var start := floor[..];
    var incX: int := if p1.x > p2.x then -1 else 1;
    var incY: int := if p1.y > p2.y then -1 else 1;
    assert forall j :: 0 <= j < |cells| ==> cells[j] < |start|;
    overlaps := 0;
    var x: int, y: int := p1.x, p1.y;
    for k := 0 to n
      invariant n == |cells|
      invariant x == Step(p1.x, p2.x, k) && y == Step(p1.y, p2.y, k)
      invariant floor[..] == Paint(start, cells[..k])
      invariant overlaps == Gained(start, cells[..k])
    {
      var pos := PointToPos(x as nat, y as nat);
      assert cells[k] == pos;
      var m := MarkNext(floor, start, cells, k, pos);
      overlaps := overlaps + m;
      x, y := x + incX, y + incY;
    }
    assert cells[..n] == cells;
  }

  /**
   * On a 45° line inside the floor's width, the drawer as written stops one
   * cell short: the end point is not among its cells, and it is exactly the
   * one cell the inclusive drawer adds.
   */
  lemma {:induction false} DiagonalMissesEnd(p1: Point, p2: Point)
    requires p1.x != p2.x && Distance(p1.x, p2.x) == Distance(p1.y, p2.y)
    requires p1.x < FLOOR_WIDTH && p2.x < FLOOR_WIDTH
    ensures PointToPos(p2.x, p2.y) !in DiagonalCells(p1, p2, Distance(p1.x, p2.x))
    ensures DiagonalCells(p1, p2, Distance(p1.x, p2.x) + 1)
         == DiagonalCells(p1, p2, Distance(p1.x, p2.x)) + [PointToPos(p2.x, p2.y)]
  {
    var n := Distance(p1.x, p2.x);
    var ps := DiagonalCells(p1, p2, n);
    forall k | 0 <= k < n
      ensures ps[k] != PointToPos(p2.x, p2.y)
    {
      var x := Step(p1.x, p2.x, k) as nat;
      assert x != p2.x && x < FLOOR_WIDTH;
    }
    assert Step(p1.x, p2.x, n) == p2.x && Step(p1.y, p2.y, n) == p2.y;
  }

  // ----- Parsing -----

  /** A point `x,y`: exactly two `u16` values separated by a comma. */
  function ParsePoint(s: string): Option<Point>
  {
    var parts := Text.Split(s, ",");
    if |parts| != 2 then None
    else
      match (Decimal.ParseUnsigned(parts[0], Decimal.U16_MAX), Decimal.ParseUnsigned(parts[1], Decimal.U16_MAX))
      case (Some(x), Some(y)) => Some(Point(x, y))
      case _ => None
  }

  /**
   * A vent line `x1,y1 -> x2,y2`. `None` stands for every input the source
   * rejects by panicking: not exactly two points, not exactly two
   * coordinates per point, or a coordinate that is not a `u16`.
   */
  function ParsePairPoints(line: string): Option<Vent>
  {
    var parts := Text.Split(line, " -> ");
    if |parts| != 2 then None
    else
      match (ParsePoint(parts[0]), ParsePoint(parts[1]))
      case (Some(p1), Some(p2)) => Some(Vent(p1, p2))
      case _ => None
  }

  function ShowPoint(p: Point): string
  {
    Decimal.Show(p.x) + "," + Decimal.Show(p.y)
  }

  function Render(v: Vent): string
  {
    ShowPoint(v.p1) + " -> " + ShowPoint(v.p2)
  }

  lemma {:induction false} ShowFree(n: nat, sep: string)
    requires |sep| > 0 && !Decimal.IsDigit(sep[0])
    ensures Text.FreeOf(Decimal.Show(n), sep)
  {
  }

  lemma {:induction false} ParseShowPoint(p: Point)
    ensures Text.FreeOf(ShowPoint(p), " -> ") && ParsePoint(ShowPoint(p)) == Some(p)
  {
    ShowFree(p.x, ",");
    ShowFree(p.y, ",");
    Text.SplitCons(Decimal.Show(p.x), ",", Decimal.Show(p.y));
    Text.SplitSingle(Decimal.Show(p.y), ",");
    Decimal.ParseShow(p.x, Decimal.U16_MAX);
    Decimal.ParseShow(p.y, Decimal.U16_MAX);
    ShowFree(p.x, " -> ");
    ShowFree(p.y, " -> ");
  }

  /** Parsing a rendered vent line gives the vent back. */
  lemma {:induction false} ParseRender(v: Vent)
    ensures ParsePairPoints(Render(v)) == Some(v)
  {
    ParseShowPoint(v.p1);
    ParseShowPoint(v.p2);
    Text.SplitCons(ShowPoint(v.p1), " -> ", ShowPoint(v.p2));
    Text.SplitSingle(ShowPoint(v.p2), " -> ");
  }

  /** A line without an arrow is rejected. */
  lemma {:induction false} ParseNoArrow(line: string)
    requires Text.FreeOf(line, " -> ")
    ensures ParsePairPoints(line) == None
  {
    Text.SplitSingle(line, " -> ");
  }

  // ----- Whole inputs -----

  /**
   * What becomes of a line that is neither a column nor a row: skipped
   * (`run_hydrotermal_venture`), drawn by `diagonal` as written, without its
   * end point (`run_hydrotermal_diagonals`), or drawn with its end point.
   */
  datatype Diagonals = Skipped | AsWritten | Inclusive

  /** How many cells of a diagonal line are marked in each mode. */
  function DiagonalLength(v: Vent, mode: Diagonals): nat
  {
    match mode
    case Skipped => 0
    case AsWritten => Distance(v.p1.x, v.p2.x)
    case Inclusive => Distance(v.p1.x, v.p2.x) + 1
  }

  /**
   * The cells a vent line marks: a column when the x coordinates agree, a
   * row when the y coordinates agree, and otherwise the first
   * `DiagonalLength` cells of the diagonal from `p1`.
   */
  function VentCells(v: Vent, mode: Diagonals): (ps: seq<nat>)
    requires v.p1.x != v.p2.x && v.p1.y != v.p2.y ==> DiagonalFits(v.p1, v.p2, DiagonalLength(v, mode))
    ensures v.p1.x == v.p2.x ==> |ps| == Distance(v.p1.y, v.p2.y) + 1
    ensures v.p1.x != v.p2.x && v.p1.y == v.p2.y ==> |ps| == Distance(v.p1.x, v.p2.x) + 1
    ensures v.p1.x != v.p2.x && v.p1.y != v.p2.y ==> |ps| == DiagonalLength(v, mode)
  {
    if v.p1.x == v.p2.x then HorizontalCells(v.p1.x, v.p1.y, v.p2.y)
    else if v.p1.y == v.p2.y then VerticalCells(v.p1.y, v.p1.x, v.p2.x)
    else DiagonalCells(v.p1, v.p2, DiagonalLength(v, mode))
  }

  /** What the source demands of a vent line so that drawing it does not panic. */
  predicate Drawable(v: Vent, mode: Diagonals)
  {
    && (v.p1.x != v.p2.x && v.p1.y != v.p2.y ==> DiagonalFits(v.p1, v.p2, DiagonalLength(v, mode)))
    && (v.p1.x != v.p2.x && v.p1.y == v.p2.y ==> Max(v.p1.x, v.p2.x) < 0xffff)
    && OnFloor(VentCells(v, mode))
  }

  /** An input line is empty, or a vent line that parses and can be drawn. */
  predicate LineDrawable(line: string, mode: Diagonals)
  {
    line == [] || (ParsePairPoints(line).Some? && Drawable(ParsePairPoints(line).value, mode))
  }

  /** Every line of the input is drawable. */
  predicate AllDrawable(lines: seq<string>, mode: Diagonals)
  {
    forall k :: 0 <= k < |lines| ==> LineDrawable(lines[k], mode)
  }

  /** The cells one input line marks: none for an empty line. */
  function LineCells(line: string, mode: Diagonals): seq<nat>
    requires LineDrawable(line, mode)
  {
    if line == [] then [] else VentCells(ParsePairPoints(line).value, mode)
  }

  /** Every cell marked by the lines of the input, in order. */
  function AllCells(lines: seq<string>, mode: Diagonals): (ps: seq<nat>)
    requires AllDrawable(lines, mode)
    ensures OnFloor(ps)
  {
    if lines == [] then []
    else AllCells(lines[..|lines| - 1], mode) + LineCells(lines[|lines| - 1], mode)
  }

  lemma {:induction false} AllCellsSnoc(lines: seq<string>, line: string, mode: Diagonals)
    requires AllDrawable(lines, mode) && LineDrawable(line, mode)
    ensures AllDrawable(lines + [line], mode)
    ensures AllCells(lines + [line], mode) == AllCells(lines, mode) + LineCells(line, mode)
  {
    assert (lines + [line])[..|lines|] == lines;
  }

  /** Draws one vent line, dispatching on its shape as both entry points do. */
  method DrawVent(floor: array<nat>, v: Vent, mode: Diagonals) returns (overlaps: nat)
    requires |floor[..]| == FLOOR_SIZE && Marks(floor[..]) && Drawable(v, mode)
    modifies floor
    ensures floor[..] == Paint(old(floor[..]), VentCells(v, mode))
    ensures overlaps == Gained(old(floor[..]), VentCells(v, mode))
  {
    if v.p1.x == v.p2.x {
      overlaps := HorizontalLine(floor, v.p1.x, v.p1.y, v.p2.y);
    } else if v.p1.y == v.p2.y {
      overlaps := VerticalLine(floor, v.p1.y, v.p1.x, v.p2.x);
    } else if mode == AsWritten {
      overlaps := Diagonal(floor, v.p1, v.p2);
    } else if mode == Inclusive {
      overlaps := DiagonalInclusive(floor, v.p1, v.p2);
    } else {
      overlaps := 0;
    }
  }

  /** The next line of a drawable input is drawable and adds its cells after the earlier ones. */
  lemma {:induction false} RunStep(input: seq<string>, i: nat, mode: Diagonals)
    requires AllDrawable(input, mode) && i < |input| && AllDrawable(input[..i], mode)
    ensures LineDrawable(input[i], mode) && AllDrawable(input[..i + 1], mode)
    ensures AllCells(input[..i + 1], mode) == AllCells(input[..i], mode) + LineCells(input[i], mode)
  {
    assert input[..i + 1] == input[..i] + [input[i]];
    AllCellsSnoc(input[..i], input[i], mode);
  }

  /** Draws one input line: an empty line draws nothing. */
  method DrawLine(floor: array<nat>, line: string, mode: Diagonals) returns (overlaps: nat)
    requires |floor[..]| == FLOOR_SIZE && Marks(floor[..]) && LineDrawable(line, mode)
    modifies floor
    ensures floor[..] == Paint(old(floor[..]), LineCells(line, mode))
    ensures overlaps == Gained(old(floor[..]), LineCells(line, mode))
  {
    if line == [] {
      return 0;
    }
    var v := ParsePairPoints(line).value;
    overlaps := DrawVent(floor, v, mode);
  }

  /** Draws line `i` of a drawable input onto the floor holding the lines before it. */
  method DrawNext(floor: array<nat>, input: seq<string>, i: nat, mode: Diagonals) returns (overlaps: nat)
    requires AllDrawable(input, mode) && i < |input| && AllDrawable(input[..i], mode)
    requires floor[..] == Paint(EmptyFloor(), AllCells(input[..i], mode))
    modifies floor
    ensures AllDrawable(input[..i + 1], mode)
    ensures floor[..] == Paint(EmptyFloor(), AllCells(input[..i + 1], mode))
    ensures Gained(EmptyFloor(), AllCells(input[..i + 1], mode))
         == Gained(EmptyFloor(), AllCells(input[..i], mode)) + overlaps
  {
    RunStep(input, i, mode);
    PaintAppend(EmptyFloor(), AllCells(input[..i], mode), LineCells(input[i], mode));
    overlaps := DrawLine(floor, input[i], mode);
  }

  /** Draws every line of the input on a fresh floor and sums the overlaps the drawers report. */
  method Run(input: seq<string>, mode: Diagonals) returns (overlaps: nat)
    requires AllDrawable(input, mode)
    ensures overlaps == Twos(Paint(EmptyFloor(), AllCells(input, mode)))
  {
    var floor := new nat[FLOOR_SIZE](_ => 0);
    assert floor[..] == EmptyFloor();
    overlaps := 0;
    for i := 0 to |input|
      invariant AllDrawable(input[..i], mode)
      invariant floor[..] == Paint(EmptyFloor(), AllCells(input[..i], mode))
      invariant overlaps == Gained(EmptyFloor(), AllCells(input[..i], mode))
    {
      var n := DrawNext(floor, input, i, mode);
      overlaps := overlaps + n;
    }
    assert input[..|input|] == input;
    PaintTwos(EmptyFloor(), AllCells(input, mode));
    TwosNone(EmptyFloor());
  }

  /**
   * `run_hydrotermal_venture`: the number of cells covered by at least two of
   * the horizontal and vertical lines; other lines are skipped.
   */
  method RunHydrotermalVenture(input: seq<string>) returns (overlaps: nat)
    requires AllDrawable(input, Skipped)
    ensures overlaps == Twos(Paint(EmptyFloor(), AllCells(input, Skipped)))
  {
    overlaps := Run(input, Skipped);
  }

  /**
   * `run_hydrotermal_diagonals`: the same count with the other lines drawn
   * by `diagonal` as written, so without their end points.
   */
  method RunHydrotermalDiagonals(input: seq<string>) returns (overlaps: nat)
    requires AllDrawable(input, AsWritten)
    ensures overlaps == Twos(Paint(EmptyFloor(), AllCells(input, AsWritten)))
  {
    overlaps := Run(input, AsWritten);
  }

  /**
   * The count `run_hydrotermal_diagonals` evidently intends: every line,
   * diagonals included, is drawn with both of its end points.
   */
  method RunHydrotermalDiagonalsIntended(input: seq<string>) returns (overlaps: nat)
    requires AllDrawable(input, Inclusive)
    ensures overlaps == Twos(Paint(EmptyFloor(), AllCells(input, Inclusive)))
  {
    overlaps := Run(input, Inclusive);
  }

  /** On a floor still clear at `p`, a mark makes an overlap exactly when `p` was marked once before. */
  lemma {:induction false} GainedOnClear(cells: seq<nat>, ps: seq<nat>, p: nat)
    requires Marks(cells) && forall k :: 0 <= k < |ps| ==> ps[k] < |cells|
    requires p < |cells| && cells[p] == 0
    ensures Gained(cells, ps + [p]) == Gained(cells, ps) + (if multiset(ps)[p] == 1 then 1 else 0)
  {
    PaintSnoc(cells, ps, p);
    PaintCount(cells, ps, p);
  }

  /** The first three cells of the counterexample are distinct: no overlap yet. */
  lemma {:induction false} CounterexampleGainsPrefix(cells: seq<nat>)
    requires |cells| == FLOOR_SIZE && forall p :: 0 <= p < |cells| ==> cells[p] == 0
    ensures Gained(cells, [0, 1001, 2002]) == 0
  {
    var a1, a2 := [0], [0, 1001];
    assert a1 == [] + [0] && a2 == a1 + [1001] && [0, 1001, 2002] == a2 + [2002];
    GainedOnClear(cells, [], 0);
    GainedOnClear(cells, a1, 1001);
    GainedOnClear(cells, a2, 2002);
  }

  /**
   * The diagonal from (0,0) to (2,2) followed by the column from (2,2) to
   * (2,3), as written: the diagonal stops before (2,2), so no mark finds a
   * cell at 1.
   */
  lemma {:induction false} CounterexampleGainsAsWritten(cells: seq<nat>)
    requires |cells| == FLOOR_SIZE && forall p :: 0 <= p < |cells| ==> cells[p] == 0
    ensures Gained(cells, [0, 1001] + [2002, 3002]) == 0
  {
    var a3 := [0, 1001, 2002];
    assert [0, 1001] + [2002, 3002] == a3 + [3002];
    CounterexampleGainsPrefix(cells);
    GainedOnClear(cells, a3, 3002);
  }

  /** The same two lines with the diagonal's end included: (2,2) is marked twice, one overlap. */
  lemma {:induction false} CounterexampleGainsInclusive(cells: seq<nat>)
    requires |cells| == FLOOR_SIZE && forall p :: 0 <= p < |cells| ==> cells[p] == 0
    ensures Gained(cells, [0, 1001, 2002] + [2002, 3002]) == 1
  {
    var a3 := [0, 1001, 2002];
    var a4 := a3 + [2002];
    assert [0, 1001, 2002] + [2002, 3002] == a4 + [3002];
    CounterexampleGainsPrefix(cells);
    GainedOnClear(cells, a3, 2002);
    GainedOnClear(cells, a4, 3002);
  }

  lemma {:induction false} CounterexampleCells()
    ensures DiagonalCells(Point(0, 0), Point(2, 2), 2) == [0, 1001]
    ensures DiagonalCells(Point(0, 0), Point(2, 2), 3) == [0, 1001, 2002]
    ensures HorizontalCells(2, 2, 3) == [2002, 3002]
  {
    var d2, d3 := DiagonalCells(Point(0, 0), Point(2, 2), 2), DiagonalCells(Point(0, 0), Point(2, 2), 3);
    assert d2[0] == 0 && d2[1] == 1001;
    assert d3[0] == 0 && d3[1] == 1001 && d3[2] == 2002;
    var h := HorizontalCells(2, 2, 3);
    assert h[0] == 2002 && h[1] == 3002;
  }

  /** The diagonal line of the counterexample. */
  const DIAGONAL_LINE: string := "0,0 -> 2,2"
  /** The column line of the counterexample, starting where the diagonal ends. */
  const COLUMN_LINE: string := "2,2 -> 2,3"

  /** The two lines of the counterexample parse to their vents. */
  lemma {:induction false} CounterexampleParse()
    ensures ParsePairPoints(DIAGONAL_LINE) == Some(Vent(Point(0, 0), Point(2, 2)))
    ensures ParsePairPoints(COLUMN_LINE) == Some(Vent(Point(2, 2), Point(2, 3)))
  {
    var diagonal, column := Vent(Point(0, 0), Point(2, 2)), Vent(Point(2, 2), Point(2, 3));
    assert Render(diagonal) == DIAGONAL_LINE && Render(column) == COLUMN_LINE;
    ParseRender(diagonal);
    ParseRender(column);
  }

  /**
   * The two vents of the counterexample can be drawn. As written the diagonal
   * marks (0,0) and (1,1); with its end it also marks (2,2). The column marks
   * (2,2) and (2,3) either way.
   */
  lemma {:induction false} CounterexampleVents()
    ensures Drawable(Vent(Point(0, 0), Point(2, 2)), AsWritten) && VentCells(Vent(Point(0, 0), Point(2, 2)), AsWritten) == [0, 1001]
    ensures Drawable(Vent(Point(0, 0), Point(2, 2)), Inclusive) && VentCells(Vent(Point(0, 0), Point(2, 2)), Inclusive) == [0, 1001, 2002]
    ensures Drawable(Vent(Point(2, 2), Point(2, 3)), AsWritten) && VentCells(Vent(Point(2, 2), Point(2, 3)), AsWritten) == [2002, 3002]
    ensures Drawable(Vent(Point(2, 2), Point(2, 3)), Inclusive) && VentCells(Vent(Point(2, 2), Point(2, 3)), Inclusive) == [2002, 3002]
  {
    CounterexampleCells();
  }

  /**
   * The input `0,0 -> 2,2` then `2,2 -> 2,3` covers (2,2) twice. Drawn as
   * written (the diagonal without its end, then the column) the floor ends
   * with no cell at 2.
   */
  lemma {:induction false} DiagonalCounterexample(cells: seq<nat>)
    requires |cells| == FLOOR_SIZE && forall p :: 0 <= p < |cells| ==> cells[p] == 0
    ensures Twos(Paint(cells, VentCells(Vent(Point(0, 0), Point(2, 2)), AsWritten) + VentCells(Vent(Point(2, 2), Point(2, 3)), AsWritten))) == 0
  {
    CounterexampleVents();
    CounterexampleGainsAsWritten(cells);
    PaintTwos(cells, [0, 1001] + [2002, 3002]);
    TwosNone(cells);
  }

  /**
   * With the diagonal's end included, the same input ends with one cell at 2:
   * drawing the two vents' cells in order leaves exactly (2,2) covered twice.
   */
  lemma {:induction false} DiagonalInclusiveCounterexample(cells: seq<nat>)
    requires |cells| == FLOOR_SIZE && forall p :: 0 <= p < |cells| ==> cells[p] == 0
    ensures Twos(Paint(cells, VentCells(Vent(Point(0, 0), Point(2, 2)), Inclusive) + VentCells(Vent(Point(2, 2), Point(2, 3)), Inclusive))) == 1
  {
    CounterexampleVents();
    CounterexampleGainsInclusive(cells);
    PaintTwos(cells, [0, 1001, 2002] + [2002, 3002]);
    TwosNone(cells);
  }

  /** The two-line input of the counterexample. */
  const COUNTEREXAMPLE: seq<string> := [DIAGONAL_LINE, COLUMN_LINE]

  /** Two drawable lines make a drawable input whose cells are the first line's, then the second's. */
  lemma {:induction false} TwoLines(a: string, b: string, mode: Diagonals)
    requires LineDrawable(a, mode) && LineDrawable(b, mode)
    ensures AllDrawable([a, b], mode)
    ensures AllCells([a, b], mode) == LineCells(a, mode) + LineCells(b, mode)
  {
    var one, two := [a], [a, b];
    assert AllDrawable(one, mode) by { assert one[0] == a; }
    assert AllDrawable(two, mode) by { assert two[0] == a && two[1] == b; }
    assert AllCells(one, mode) == LineCells(a, mode) by { assert one[..0] == []; }
    assert two[..1] == one;
  }

  /** The counterexample input can be drawn with diagonals, and its cells are its two vents' cells in order. */
  lemma {:induction false} CounterexampleInput(mode: Diagonals)
    requires mode != Skipped
    ensures AllDrawable(COUNTEREXAMPLE, mode)
    ensures AllCells(COUNTEREXAMPLE, mode)
         == VentCells(Vent(Point(0, 0), Point(2, 2)), mode) + VentCells(Vent(Point(2, 2), Point(2, 3)), mode)
  {
    CounterexampleParse();
    CounterexampleVents();
    assert LineCells(DIAGONAL_LINE, mode) == VentCells(Vent(Point(0, 0), Point(2, 2)), mode);
    assert LineCells(COLUMN_LINE, mode) == VentCells(Vent(Point(2, 2), Point(2, 3)), mode);
    TwoLines(DIAGONAL_LINE, COLUMN_LINE, mode);
  }

  /** `run_hydrotermal_diagonals` as written answers 0 on the counterexample input. */
  lemma {:induction false} RunDiagonalsCounterexample()
    ensures AllDrawable(COUNTEREXAMPLE, AsWritten)
    ensures Twos(Paint(EmptyFloor(), AllCells(COUNTEREXAMPLE, AsWritten))) == 0
  {
    CounterexampleInput(AsWritten);
    var floor := EmptyFloor();
    assert forall p :: 0 <= p < |floor| ==> floor[p] == 0;
    DiagonalCounterexample(floor);
  }

  /** The intended count is 1 on the counterexample input: (2,2) is covered twice. */
  lemma {:induction false} RunDiagonalsIntendedCounterexample()
    ensures AllDrawable(COUNTEREXAMPLE, Inclusive)
    ensures Twos(Paint(EmptyFloor(), AllCells(COUNTEREXAMPLE, Inclusive))) == 1
  {
    CounterexampleInput(Inclusive);
    var floor := EmptyFloor();
    assert forall p :: 0 <= p < |floor| ==> floor[p] == 0;
    DiagonalInclusiveCounterexample(floor);
  }
}
