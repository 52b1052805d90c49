/** Row-major addresses: cell `col` of row `row` is at `width * row + col`. */
module Grid {

  lemma Distribute(a: int, b: int, w: int)
    ensures w * (a + b) == w * a + w * b
  {
  }

  lemma {:induction false} Grows(width: nat, row: nat, rows: nat)
    requires row <= rows
    ensures width * row <= width * rows
  {
    Distribute(row, rows - row, width);
  }

  /** A cell lies before the row after its own, and inside the grid. */
  lemma Inside(width: nat, row: nat, col: nat, rows: nat)
    requires row < rows && col < width
    ensures width * row <= width * row + col < width * (row + 1) <= width * rows
  {
    Distribute(row, 1, width);
    Grows(width, row + 1, rows);
  }

  /** No two cells share an address. */
  lemma Unique(width: nat, row: nat, col: nat, row': nat, col': nat)
    requires col < width && col' < width && width * row + col == width * row' + col'
    ensures row == row' && col == col'
  {
    if row < row' {
      Inside(width, row, col, row');
    } else if row' < row {
      Inside(width, row', col', row);
    }
  }

  /** The row and the column an address stands for. */
  lemma Divide(width: nat, p: nat)
    requires width > 0
    ensures p == width * (p / width) + p % width && p % width < width
  {
  }

  lemma DivideCell(width: nat, row: nat, col: nat)
    requires col < width
    ensures (width * row + col) / width == row && (width * row + col) % width == col
  {
    var p := width * row + col;
    Divide(width, p);
    Unique(width, row, col, p / width, p % width);
  }

  // ---------------------------------------------------------------------------------------------
  // The same without products: proofs about these need addition only.
  // ---------------------------------------------------------------------------------------------

  /** `width * rows`, row by row. */
  function Area(width: nat, rows: nat): nat {
    if rows == 0 then 0 else Area(width, rows - 1) + width
  }

  lemma {:induction false} AreaIsProduct(width: nat, rows: nat)
    ensures Area(width, rows) == width * rows
  {
    if rows > 0 {
      AreaIsProduct(width, rows - 1);
      Distribute(rows - 1, 1, width);
    }
  }

  lemma {:induction false} AreaGrows(width: nat, row: nat, rows: nat)
    requires row <= rows
    ensures Area(width, row) <= Area(width, rows)
  {
    if row < rows {
      AreaGrows(width, row, rows - 1);
    }
  }

  lemma CellInside(width: nat, row: nat, col: nat, rows: nat)
    requires row < rows && col < width
    ensures Area(width, row) + col < Area(width, rows)
    ensures Area(width, row) + width <= Area(width, rows)
  {
    AreaGrows(width, row + 1, rows);
  }

  /** The address of a cell of a grid of `rows` rows. */
  function Cell(width: nat, row: nat, col: nat, rows: nat): (p: nat)
    requires row < rows && col < width
    ensures p < Area(width, rows)
  {
    CellInside(width, row, col, rows);
    Area(width, row) + col
  }

  lemma CellUnique(width: nat, row: nat, col: nat, row': nat, col': nat)
    requires col < width && col' < width && Area(width, row) + col == Area(width, row') + col'
    ensures row == row' && col == col'
  {
    if row < row' {
      CellInside(width, row, col, row');
    } else if row' < row {
      CellInside(width, row', col', row);
    }
  }

  /** `p / width` and `p % width`, row by row. */
  function Row(width: nat, p: nat): nat
    requires width > 0
  {
    if p < width then 0 else Row(width, p - width) + 1
  }

  function Col(width: nat, p: nat): (c: nat)
    requires width > 0
    ensures c < width
  {
    if p < width then p else Col(width, p - width)
  }

  lemma {:induction false} RowAndCol(width: nat, p: nat)
    requires width > 0
    ensures p == Area(width, Row(width, p)) + Col(width, p)
  {
    if p >= width {
      RowAndCol(width, p - width);
    }
  }

  lemma RowIsQuotient(width: nat, p: nat)
    requires width > 0
    ensures Row(width, p) == p / width && Col(width, p) == p % width
  {
    RowAndCol(width, p);
    AreaIsProduct(width, Row(width, p));
    DivideCell(width, Row(width, p), Col(width, p));
  }

  lemma RowOfCell(width: nat, row: nat, col: nat)
    requires col < width
    ensures Row(width, Area(width, row) + col) == row && Col(width, Area(width, row) + col) == col
  {
    var p := Area(width, row) + col;
    RowAndCol(width, p);
    CellUnique(width, row, col, Row(width, p), Col(width, p));
  }

  lemma RowInside(width: nat, p: nat, rows: nat)
    requires width > 0 && p < Area(width, rows)
    ensures Row(width, p) < rows
  {
    RowAndCol(width, p);
    if rows <= Row(width, p) {
      AreaGrows(width, rows, Row(width, p));
    }
  }

  lemma {:induction false} AreaAdds(width: nat, a: nat, b: nat)
    ensures Area(width, a + b) == Area(width, a) + Area(width, b)
  {
    if b > 0 {
      AreaAdds(width, a, b - 1);
    }
  }

  lemma {:induction false} AreaNests(width: nat, inner: nat, n: nat)
    ensures Area(width, Area(inner, n)) == Area(Area(width, inner), n)
  {
    if n > 0 {
      AreaNests(width, inner, n - 1);
      AreaAdds(width, Area(inner, n - 1), inner);
    }
  }
}
