/**
 * Placement and selection helpers of the table store: the next stacking order,
 * the next free canvas coordinate, and the range of selected focus columns.
 * Coordinates and stacking orders are integers.
 */
module TableHelper {

  /** The on-canvas geometry of a table or a memo that these helpers read. */
  datatype Ui = Ui(top: int, left: int, zIndex: int)

  datatype Table = Table(ui: Ui)

  datatype Memo = Memo(ui: Ui)

  /** The scroll position of the canvas store's state. */
  datatype CanvasState = CanvasState(scrollTop: int, scrollLeft: int)

  /** The layout constants SIZE_START_X, SIZE_START_Y and SIZE_START_ADD. */
  datatype Layout = Layout(startX: int, startY: int, add: int)

  datatype Point = Point(top: int, left: int)

  /** One column of the focused table, with its selection flag. */
  datatype ColumnFocus = ColumnFocus(selected: bool)

  /** The lowest and highest selected index, -1 for both when nothing is selected. */
  datatype SelectRange = SelectRange(min: int, max: int)

  // ---------------------------------------------------------------- zIndexNext

  /**
   * The stacking order for a new table or memo: one more than the largest
   * zIndex of any table or memo, where the largest is taken to be at least 1.
   */
  method ZIndexNext(tables: seq<Table>, memos: seq<Memo>) returns (next: int)
    ensures forall i :: 0 <= i < |tables| ==> tables[i].ui.zIndex < next
    ensures forall i :: 0 <= i < |memos| ==> memos[i].ui.zIndex < next
    ensures next >= 2
    ensures next == 2
         || (exists i :: 0 <= i < |tables| && tables[i].ui.zIndex == next - 1)
         || (exists i :: 0 <= i < |memos| && memos[i].ui.zIndex == next - 1)
    ensures next == 2 <==>
              (forall i :: 0 <= i < |tables| ==> tables[i].ui.zIndex <= 1) &&
              (forall i :: 0 <= i < |memos| ==> memos[i].ui.zIndex <= 1)
  {
    var max := 1;
    for i := 0 to |tables|
      invariant max >= 1
      invariant forall j :: 0 <= j < i ==> tables[j].ui.zIndex <= max
      invariant max == 1 || exists j :: 0 <= j < i && tables[j].ui.zIndex == max
    {
      if max < tables[i].ui.zIndex {
        max := tables[i].ui.zIndex;
      }
    }
    for i := 0 to |memos|
      invariant max >= 1
      invariant forall j :: 0 <= j < |tables| ==> tables[j].ui.zIndex <= max
      invariant forall j :: 0 <= j < i ==> memos[j].ui.zIndex <= max
      invariant max == 1
             || (exists j :: 0 <= j < |tables| && tables[j].ui.zIndex == max)
             || (exists j :: 0 <= j < i && memos[j].ui.zIndex == max)
    {
      if max < memos[i].ui.zIndex {
        max := memos[i].ui.zIndex;
      }
    }
    next := max + 1;
  }

  // ----------------------------------------------------------------- pointNext

  /** The (top, left) corner of a table or memo. */
  function At(ui: Ui): Point {
    Point(ui.top, ui.left)
  }

  /** No table and no memo has its corner exactly on `p`. */
  predicate Free(tables: seq<Table>, memos: seq<Memo>, p: Point) {
    (forall i :: 0 <= i < |tables| ==> At(tables[i].ui) != p) &&
    (forall i :: 0 <= i < |memos| ==> At(memos[i].ui) != p)
  }

  /** Where the search starts: the start offsets moved by the canvas scroll position. */
  function BasePoint(layout: Layout, canvas: CanvasState): Point {
    Point(layout.startY + canvas.scrollTop, layout.startX + canvas.scrollLeft)
  }

  /** The k-th candidate of the search: `k` steps of `add` along both axes. */
  function Offset(base: Point, k: nat, add: int): Point {
    Point(base.top + k * add, base.left + k * add)
  }

  lemma OffsetNext(base: Point, k: nat, add: int)
    ensures Offset(base, k + 1, add) == Point(Offset(base, k, add).top + add, Offset(base, k, add).left + add)
  {
    assert (k + 1) * add == k * add + add;
  }

  /** The corners of all tables followed by those of all memos. */
  function Corners(tables: seq<Table>, memos: seq<Memo>): (ps: seq<Point>)
    ensures |ps| == |tables| + |memos|
    ensures forall i :: 0 <= i < |tables| ==> ps[i] == At(tables[i].ui)
    ensures forall i :: 0 <= i < |memos| ==> ps[|tables| + i] == At(memos[i].ui)
  {
    seq(|tables|, i requires 0 <= i < |tables| => At(tables[i].ui)) +
    seq(|memos|, i requires 0 <= i < |memos| => At(memos[i].ui))
  }

  lemma CornersFree(tables: seq<Table>, memos: seq<Memo>, p: Point)
    ensures p !in Corners(tables, memos) <==> Free(tables, memos, p)
  {
    var ps := Corners(tables, memos);
    if p in ps {
      var k :| 0 <= k < |ps| && ps[k] == p;
      if k < |tables| {
        assert At(tables[k].ui) == p;
      } else {
        assert At(memos[k - |tables|].ui) == p;
      }
    }
  }

  /**
   * How far along the search direction a point lies: its top when the step is
   * positive, the negated top when it is negative. Each step raises it by |add|.
   */
  function Progress(p: Point, add: int): int {
    if add > 0 then p.top else -p.top
  }

  /** How many corners lie at or beyond the line `line` along the search direction. */
  function Ahead(ps: seq<Point>, line: int, add: int): (n: nat)
    ensures n <= |ps|
  {
    if ps == [] then 0
    else (if Progress(ps[0], add) >= line then 1 else 0) + Ahead(ps[1..], line, add)
  }

  /** Moving the line forward never brings corners back into view. */
  lemma {:induction false} AheadMonotone(ps: seq<Point>, a: int, b: int, add: int)
    requires a <= b
    ensures Ahead(ps, b, add) <= Ahead(ps, a, add)
  {
    if ps != [] {
      AheadMonotone(ps[1..], a, b, add);
    }
  }

  /** Moving the line strictly past a corner on it leaves that corner behind for good. */
  lemma {:induction false} AheadPassed(ps: seq<Point>, a: int, b: int, add: int)
    requires a < b
    requires exists p :: p in ps && Progress(p, add) == a
    ensures Ahead(ps, b, add) < Ahead(ps, a, add)
  {
    if Progress(ps[0], add) == a {
      AheadMonotone(ps[1..], a, b, add);
    } else {
      assert exists p :: p in ps[1..] && Progress(p, add) == a by {
        var p :| p in ps && Progress(p, add) == a;
        assert p != ps[0];
        assert p in ps[1..];
      }
      AheadPassed(ps[1..], a, b, add);
    }
  }

  /**
   * The search has taken `k` steps from `base` and stands on `point`; every
   * candidate it stepped past was some corner, and each step left at least one
   * more corner behind.
   */
  ghost predicate Searched(ps: seq<Point>, base: Point, add: int, k: nat, point: Point) {
    point == Offset(base, k, add) &&
    k + Ahead(ps, Progress(point, add), add) <= |ps| &&
    forall j: nat :: j < k ==> Offset(base, j, add) in ps
  }

  /** Stepping off an occupied point keeps the search state. */
  lemma StepPast(ps: seq<Point>, base: Point, add: int, k: nat, point: Point, i: nat)
    requires add != 0 && Searched(ps, base, add, k, point)
    requires i < |ps| && ps[i] == point
    ensures Searched(ps, base, add, k + 1, Point(point.top + add, point.left + add))
  {
    var next := Point(point.top + add, point.left + add);
    assert Progress(point, add) < Progress(next, add);
    AheadPassed(ps, Progress(point, add), Progress(next, add), add);
    OffsetNext(base, k, add);
  }

  /**
   * The search state the loop of PointNext ends in gives the three promises of
   * PointNext: a free point, reached after k <= n steps, every earlier candidate
   * being occupied.
   */
  lemma SearchResult(tables: seq<Table>, memos: seq<Memo>, base: Point, add: int, k: nat)
    requires k <= |tables| + |memos|
    requires forall j: nat :: j < k ==> Offset(base, j, add) in Corners(tables, memos)
    requires Offset(base, k, add) !in Corners(tables, memos)
    ensures Free(tables, memos, Offset(base, k, add))
    ensures forall j: nat :: j < k ==> !Free(tables, memos, Offset(base, j, add))
    ensures Free(tables, memos, base) ==> Offset(base, k, add) == base
  {
    CornersFree(tables, memos, Offset(base, k, add));
    forall j: nat | j < k
      ensures !Free(tables, memos, Offset(base, j, add))
    {
      CornersFree(tables, memos, Offset(base, j, add));
    }
    assert Offset(base, 0, add) == base;
  }

  /**
   * The first coordinate, on the diagonal from the base point in steps of
   * SIZE_START_ADD, where no table and no memo has its corner. With any non-zero
   * step the candidates are distinct, so at most one step per corner is taken;
   * a step of 0 on an occupied base point never ends. Each inner loop
   * steps past the first entity it finds on the point and starts over.
   */
  method PointNext(layout: Layout, canvas: CanvasState, tables: seq<Table>, memos: seq<Memo>)
    returns (point: Point)
    requires layout.add != 0
    ensures Free(tables, memos, point)
    ensures exists k: nat ::
              k <= |tables| + |memos| &&
              point == Offset(BasePoint(layout, canvas), k, layout.add) &&
              forall j: nat :: j < k ==> !Free(tables, memos, Offset(BasePoint(layout, canvas), j, layout.add))
    ensures Free(tables, memos, BasePoint(layout, canvas)) ==> point == BasePoint(layout, canvas)
  {
    var add := layout.add;
    point := Point(layout.startY + canvas.scrollTop, layout.startX + canvas.scrollLeft);
    ghost var base := point;
    ghost var ps := Corners(tables, memos);
    ghost var k: nat := 0;
    var isPosition := true;
    while isPosition
      invariant Searched(ps, base, add, k, point)
      invariant !isPosition ==> point !in ps
      decreases |ps| - k + (if isPosition then 1 else 0)
    {
      ghost var k0, p0 := k, point;
      isPosition := false;
      for i := 0 to |tables|
        invariant !isPosition && k == k0 && point == p0
        invariant forall j :: 0 <= j < i ==> At(tables[j].ui) != point
      {
        if tables[i].ui.top == point.top && tables[i].ui.left == point.left {
          isPosition := true;
          StepPast(ps, base, add, k, point, i);
          point := Point(point.top + add, point.left + add);
          k := k + 1;
          break;
        }
      }
      ghost var afterTables := isPosition;
      for i := 0 to |memos|
        invariant Searched(ps, base, add, k, point)
        invariant isPosition == afterTables
        invariant isPosition <==> k > k0
        invariant !isPosition ==> k == k0 && point == p0 && forall j :: 0 <= j < |tables| ==> At(tables[j].ui) != point
        invariant forall j :: 0 <= j < i ==> At(memos[j].ui) != point
      {
        if memos[i].ui.top == point.top && memos[i].ui.left == point.left {
          isPosition := true;
          StepPast(ps, base, add, k, point, |tables| + i);
          point := Point(point.top + add, point.left + add);
          k := k + 1;
          break;
        }
      }
      CornersFree(tables, memos, point);
    }
    SearchResult(tables, memos, base, add, k);
    assert base == BasePoint(layout, canvas);
    assert k <= |tables| + |memos| && point == Offset(base, k, add);
  }

  // ----------------------------------------------------------------- getSelect

  /**
   * The first and last index of a selected column, or (-1, -1) when no column
   * is selected.
   */
  method GetSelect(focusColumns: seq<ColumnFocus>) returns (index: SelectRange)
    ensures index == SelectRange(-1, -1) <==> forall i :: 0 <= i < |focusColumns| ==> !focusColumns[i].selected
    ensures index.min == -1 <==> index.max == -1
    ensures index.min != -1 ==>
              0 <= index.min <= index.max < |focusColumns| &&
              focusColumns[index.min].selected && focusColumns[index.max].selected
    ensures forall i :: 0 <= i < |focusColumns| && focusColumns[i].selected ==> index.min <= i <= index.max
  {
    index := SelectRange(-1, -1);
    var len := |focusColumns|;
    for i := 0 to len
      invariant index.min == -1 <==> index.max == -1
      invariant index.min == -1 <==> forall j :: 0 <= j < i ==> !focusColumns[j].selected
      invariant index.min != -1 ==>
                  0 <= index.min <= index.max < i &&
                  focusColumns[index.min].selected && focusColumns[index.max].selected
      invariant forall j :: 0 <= j < i && focusColumns[j].selected ==> index.min <= j <= index.max
    {
      if focusColumns[i].selected {
        if index.min == -1 || index.min > i {
          index := index.(min := i);
        }
        if index.max == -1 || index.max < i {
          index := index.(max := i);
        }
      }
    }
  }
}
