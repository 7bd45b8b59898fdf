/**
 * Placement arithmetic of the board: grid snapping and clamping of a dragged
 * button, the grid cell of a newly created button, and the CSS pixel strings
 * (`"42px"`) that positions are stored as.
 *
 * Coordinates are integers here (the browser's are doubles); JavaScript's
 * `Math.round(x / GRID_SIZE) * GRID_SIZE`, which rounds halves upwards,
 * is `Snap` below.
 */
module Pixels {
  import opened Wrappers
  import Numerals

  const GRID_SIZE: nat := 8

  /** The multiple of GRID_SIZE nearest to `x`; a tie goes to the larger one. */
  function Snap(x: int): (r: int)
    ensures r % GRID_SIZE == 0
    ensures -4 <= x - r < 4
  {
    ((x + 4) / GRID_SIZE) * GRID_SIZE
  }

  /** The two ensures of Snap single out its result: no other multiple of the grid is that near. */
  lemma SnapIsNearest(x: int, m: int)
    requires m % GRID_SIZE == 0
    requires -4 <= x - m < 4
    ensures m == Snap(x)
  {
    var r := Snap(x);
    var d := m - r;
    assert d % GRID_SIZE == 0 by {
      assert m == (m / GRID_SIZE) * GRID_SIZE;
      assert r == (r / GRID_SIZE) * GRID_SIZE;
      assert d == (m / GRID_SIZE - r / GRID_SIZE) * GRID_SIZE;
    }
    assert -8 < d < 8;
  }

  /** A position already on the grid is left where it is. */
  lemma SnapKeepsGridPoints(x: int)
    requires x % GRID_SIZE == 0
    ensures Snap(x) == x
  {
    SnapIsNearest(x, x);
  }

  lemma SnapIdempotent(x: int)
    ensures Snap(Snap(x)) == Snap(x)
  {
    SnapKeepsGridPoints(Snap(x));
  }

  /**
   * One coordinate of a dragged button: cursor minus board origin plus
   * scroll minus the grab offset, snapped unless `free` (Shift held), then
   * raised to 0 if negative. Nothing bounds it from above.
   */
  function DragCoordinate(cursor: int, origin: int, scroll: int, offset: int, free: bool): (r: nat)
    ensures var candidate := cursor - origin + scroll - offset;
      && (free ==> r == if candidate < 0 then 0 else candidate)
      && (!free ==> r % GRID_SIZE == 0)
      && (!free && candidate >= -4 ==> -4 <= candidate - r < 4)
      && (!free && candidate < -4 ==> r == 0)
  {
    var candidate := cursor - origin + scroll - offset;
    var placed := if free then candidate else Snap(candidate);
    if placed < 0 then 0 else placed
  }

  /** Snapping a dragged coordinate again does not move it. */
  lemma DragCoordinateOnGrid(cursor: int, origin: int, scroll: int, offset: int)
    ensures var r := DragCoordinate(cursor, origin, scroll, offset, false); Snap(r) == r
  {
    SnapKeepsGridPoints(DragCoordinate(cursor, origin, scroll, offset, false));
  }

  /**
   * The pixel offset of grid cell `cell` along a board side of length
   * `extent`, the side being cut into GRID_SIZE cells (the width of a cell
   * is truncated to an integer here).
   */
  function CellOrigin(cell: nat, extent: nat): nat
  {
    cell * (extent / GRID_SIZE)
  }

  /**
   * A new button is put in one of the first GRID_SIZE - 2 columns and one of
   * the first two rows: such a cell lies wholly on the board, and its origin
   * is a whole number of cells from the board's edge.
   */
  lemma InitialCellOnBoard(cell: nat, extent: nat)
    requires cell < GRID_SIZE - 2
    ensures CellOrigin(cell, extent) + extent / GRID_SIZE <= extent
    ensures CellOrigin(cell, extent) <= (GRID_SIZE - 3) * (extent / GRID_SIZE)
    ensures extent >= GRID_SIZE ==> CellOrigin(cell, extent) / (extent / GRID_SIZE) == cell
  {
    var w := extent / GRID_SIZE;
    assert cell * w <= 5 * w;
    assert (cell + 1) * w <= 6 * w;
    if extent >= GRID_SIZE {
      assert w > 0;
      assert (cell * w) / w == cell;
    }
  }

  /** The CSS length `${n}px` of a non-negative pixel count. */
  function Px(n: nat): (s: string)
    ensures |s| >= 3 && s[|s| - 2..] == "px" && Numerals.AllDigits(s[..|s| - 2])
    ensures |s| > 3 ==> s[0] != '0'
  {
    Numerals.Decimal(n) + "px"
  }

  /** The pixel count of a CSS length written as decimal digits followed by "px". */
  function PxValue(s: string): (r: Option<nat>)
    ensures r.Some? <==> |s| >= 3 && s[|s| - 2..] == "px" && Numerals.AllDigits(s[..|s| - 2])
    ensures r.Some? ==> r.value == Numerals.DecimalValue(s[..|s| - 2])
  {
    if |s| >= 3 && s[|s| - 2..] == "px" && Numerals.AllDigits(s[..|s| - 2])
    then Some(Numerals.DecimalValue(s[..|s| - 2]))
    else None
  }

  lemma PxRoundTrip(n: nat)
    ensures PxValue(Px(n)) == Some(n)
  {
    var s := Px(n);
    var d := Numerals.Decimal(n);
    assert s[..|s| - 2] == d;
    assert s[|s| - 2..] == "px";
    Numerals.DecimalRoundTrip(n);
  }

  lemma PxInjective(m: nat, n: nat)
    requires Px(m) == Px(n)
    ensures m == n
  {
    PxRoundTrip(m);
    PxRoundTrip(n);
  }
}
