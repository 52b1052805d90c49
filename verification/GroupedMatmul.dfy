/** The grouped tiled matrix product: tiles of 8 rows by 16 columns, numbered through all groups,
    each accumulated in blocks of 16 along the contraction with a pair-interleaved right operand. */
module GroupedMatmul {
  import Grid

  /** `x` is rows by k, `w` is n by k, both row-major. */
  datatype Group = Group(x: seq<real>, w: seq<real>, rows: nat, first: nat, end: nat)

  // ---------------------------------------------------------------------------------------------
  // The plain product
  // ---------------------------------------------------------------------------------------------

  predicate Shapes(g: Group, n: nat, k: nat) {
    |g.x| == Grid.Area(k, g.rows) && |g.w| == Grid.Area(k, n)
  }

  /** Element `t` of a row of a row-major matrix. */
  function At(data: seq<real>, k: nat, rows: nat, row: nat, t: nat): real
    requires |data| == Grid.Area(k, rows) && row < rows && t < k
  {
    data[Grid.Cell(k, row, t, rows)]
  }

  function Fma(x: real, y: real, sum: real): real {
    sum + x * y
  }

  lemma FmaAdds(x: real, y: real, base: real, sum: real)
    ensures Fma(x, y, base + sum) == base + Fma(x, y, sum)
  {
  }

  /** The first `t` terms of row `m` of `x` times row `c` of `w`. */
  function Dot(g: Group, n: nat, k: nat, m: nat, c: nat, t: nat): real
    requires Shapes(g, n, k) && m < g.rows && c < n && t <= k
  {
    if t == 0 then 0.0
    else Fma(At(g.x, k, g.rows, m, t - 1), At(g.w, k, n, c, t - 1), Dot(g, n, k, m, c, t - 1))
  }

  /** Term by term, at the plain addresses of the two rows. */
  lemma DotIs(g: Group, n: nat, k: nat, m: nat, c: nat, t: nat, x: real, y: real)
    requires Shapes(g, n, k) && m < g.rows && c < n && t < k
    requires k * m + t < |g.x| && k * c + t < |g.w| && x == g.x[k * m + t] && y == g.w[k * c + t]
    ensures Dot(g, n, k, m, c, 0) == 0.0
    ensures Dot(g, n, k, m, c, t + 1) == Dot(g, n, k, m, c, t) + x * y
  {
    Grid.AreaIsProduct(k, m);
    Grid.AreaIsProduct(k, c);
    assert At(g.x, k, g.rows, m, t) == x && At(g.w, k, n, c, t) == y;
    var sum, next := Dot(g, n, k, m, c, t), Dot(g, n, k, m, c, t + 1);
    assert next == Fma(x, y, sum);
    FmaIs(x, y, sum, next);
  }

  /** `x[p] * w[q] + x[p + 1] * w[q + 1] + ...`, `t` terms. */
  function SumOfProducts(x: seq<real>, w: seq<real>, p: nat, q: nat, t: nat): real
    requires p + t <= |x| && q + t <= |w|
  {
    if t == 0 then 0.0 else SumOfProducts(x, w, p, q, t - 1) + x[p + t - 1] * w[q + t - 1]
  }

  lemma OneProduct(x: seq<real>, w: seq<real>, p: nat, q: nat, t: nat, a: real, b: real)
    requires 0 < t && p + t <= |x| && q + t <= |w| && a == x[p + t - 1] && b == w[q + t - 1]
    ensures SumOfProducts(x, w, p, q, t) == SumOfProducts(x, w, p, q, t - 1) + a * b
  {
  }

  lemma {:induction false} DotIsSum(g: Group, n: nat, k: nat, m: nat, c: nat, p: nat, q: nat, t: nat)
    requires Shapes(g, n, k) && m < g.rows && c < n && t <= k
    requires p == k * m && q == k * c && p + t <= |g.x| && q + t <= |g.w|
    ensures Dot(g, n, k, m, c, t) == SumOfProducts(g.x, g.w, p, q, t)
  {
    if t > 0 {
      var x, y := g.x[p + t - 1], g.w[q + t - 1];
      DotIs(g, n, k, m, c, t - 1, x, y);
      OneProduct(g.x, g.w, p, q, t, x, y);
      DotIsSum(g, n, k, m, c, p, q, t - 1);
    }
  }

  /** Cell (m, c) of an output of `n` columns is the product of row `m` of `x` and row `c` of `w`. */
  ghost predicate IsProduct(g: Group, n: nat, k: nat, y: seq<real>, m: nat, c: nat) {
    && n * m + c < |y| && k * m + k <= |g.x| && k * c + k <= |g.w|
    && y[n * m + c] == SumOfProducts(g.x, g.w, k * m, k * c, k)
  }

  lemma CellIsProduct(g: Group, n: nat, k: nat, y: seq<real>, m: nat, c: nat)
    requires Shapes(g, n, k) && m < g.rows && c < n && Grid.Area(n, g.rows) <= |y|
    requires y[Grid.Cell(n, m, c, g.rows)] == Dot(g, n, k, m, c, k)
    ensures IsProduct(g, n, k, y, m, c)
  {
    Grid.AreaIsProduct(n, m);
    RowInside(g.x, k, m, g.rows);
    RowInside(g.w, k, c, n);
    DotIsSum(g, n, k, m, c, k * m, k * c, k);
  }

  lemma RowInside(data: seq<real>, k: nat, row: nat, rows: nat)
    requires |data| == Grid.Area(k, rows) && row < rows
    ensures k * row + k <= |data|
  {
    Grid.AreaGrows(k, row + 1, rows);
    Grid.AreaIsProduct(k, row);
  }

  // ---------------------------------------------------------------------------------------------
  // The tiles
  // ---------------------------------------------------------------------------------------------

  function RowTiles(rows: nat): nat {
    (rows + 7) / 8
  }

  /** Where the tiles of the first `g` groups end. */
  function EndBefore(groups: seq<Group>, g: nat): nat
    requires g <= |groups|
  {
    if g == 0 then 0 else groups[g - 1].end
  }

  /** Groups whose tiles follow each other. */
  predicate Consecutive(groups: seq<Group>) {
    forall g {:trigger EndBefore(groups, g)} :: 0 <= g < |groups| ==> groups[g].first == EndBefore(groups, g) <= groups[g].end
  }

  /** A group with rows, and a tile for every block of its output. */
  predicate Tiled(g: Group, columns: nat) {
    columns > 0 && g.rows > 0 && g.end == g.first + Grid.Area(columns, RowTiles(g.rows))
  }

  function Total(groups: seq<Group>): nat {
    EndBefore(groups, |groups|)
  }

  lemma {:induction false} Ordered(groups: seq<Group>, g: nat, g': nat)
    requires Consecutive(groups) && g < g' < |groups|
    ensures groups[g].end <= groups[g'].first
  {
    assert groups[g'].first == EndBefore(groups, g') && EndBefore(groups, g' - 1) <= groups[g' - 1].end;
    if g + 1 < g' {
      Ordered(groups, g, g' - 1);
    }
  }

  /** The tile that owns output cell (m, c) of a group. */
  function TileOf(g: Group, columns: nat, m: nat, c: nat): nat {
    g.first + (Grid.Area(columns, m / 8) + c / 16)
  }

  /** The cell belongs to a tile of its own group. */
  lemma TileInGroup(g: Group, columns: nat, m: nat, c: nat)
    requires Tiled(g, columns) && m < g.rows && c < 16 * columns
    ensures g.first <= TileOf(g, columns, m, c) < g.end
  {
    Grid.CellInside(columns, m / 8, c / 16, RowTiles(g.rows));
  }

  function FirstRow(g: Group, columns: nat, tile: nat): nat
    requires columns > 0 && g.first <= tile
  {
    Grid.Row(columns, tile - g.first) * 8
  }

  function FirstColumn(g: Group, columns: nat, tile: nat): nat
    requires columns > 0 && g.first <= tile
  {
    Grid.Col(columns, tile - g.first) * 16
  }

  lemma TileCorner(g: Group, columns: nat, tile: nat)
    requires Tiled(g, columns) && g.first <= tile < g.end
    ensures FirstRow(g, columns, tile) < g.rows && FirstColumn(g, columns, tile) + 16 <= 16 * columns
  {
    Grid.RowInside(columns, tile - g.first, RowTiles(g.rows));
  }

  /** A cell lies in the 8 by 16 block of a tile exactly when the tile is the one that owns it. */
  lemma TileOwns(g: Group, columns: nat, tile: nat, m: nat, c: nat)
    requires columns > 0 && g.first <= tile && c < 16 * columns
    ensures FirstRow(g, columns, tile) <= m < FirstRow(g, columns, tile) + 8
         && FirstColumn(g, columns, tile) <= c < FirstColumn(g, columns, tile) + 16
       <==> tile == TileOf(g, columns, m, c)
  {
    var local := tile - g.first;
    Grid.RowAndCol(columns, local);
    Grid.RowOfCell(columns, m / 8, c / 16);
  }

  /** The kernel's scan over the groups finds the one whose tiles contain `tile`. */
  method SelectGroup(groups: seq<Group>, tile: nat) returns (selected: nat)
    requires Consecutive(groups) && tile < Total(groups)
    ensures selected < |groups| && groups[selected].first <= tile < groups[selected].end
    ensures forall g :: 0 <= g < |groups| && groups[g].first <= tile < groups[g].end ==> g == selected
  {
    selected := 0;
    for i := 0 to |groups|
      invariant selected < |groups|
      invariant tile < EndBefore(groups, i) ==> groups[selected].first <= tile < groups[selected].end
    {
      assert groups[i].first == EndBefore(groups, i);
      if groups[i].first <= tile < groups[i].end {
        selected := i;
      }
    }
    forall g | 0 <= g < |groups| && groups[g].first <= tile < groups[g].end
      ensures g == selected
    {
      if g < selected {
        Ordered(groups, g, selected);
      } else if selected < g {
        Ordered(groups, selected, g);
      }
    }
  }

  // ---------------------------------------------------------------------------------------------
  // One tile
  // ---------------------------------------------------------------------------------------------

  /** Element `kk` of column `c` of the right operand, stored as vertical pairs. */
  function Paired(c: nat, kk: nat): (p: nat)
    requires c < 16 && kk < 16
    ensures p < 256
  {
    kk / 2 * 32 + c * 2 + kk % 2
  }

  lemma PairedUnique(c: nat, kk: nat, c': nat, kk': nat)
    requires c < 16 && kk < 16 && c' < 16 && kk' < 16 && Paired(c, kk) == Paired(c', kk')
    ensures c == c' && kk == kk'
  {
    var place, place' := 2 * c + kk % 2, 2 * c' + kk' % 2;
    Grid.Unique(32, kk / 2, place, kk' / 2, place');
    Grid.Unique(2, c, kk % 2, c', kk' % 2);
  }

  /** Element (r, j) of a register of 8 rows of 16. */
  function Lane(r: nat, j: nat): (p: nat)
    requires r < 8 && j < 16
    ensures p < 128
  {
    r * 16 + j
  }

  /** The first `t` terms of cell (r, c) of an 8x16 by 16x16 product of registers. */
  function BlockDot(a: seq<real>, b: seq<real>, r: nat, c: nat, t: nat): real
    requires |a| == 128 && |b| == 256 && r < 8 && c < 16 && t <= 16
  {
    if t == 0 then 0.0 else Fma(a[Lane(r, t - 1)], b[Paired(c, t - 1)], BlockDot(a, b, r, c, t - 1))
  }

  /** Rows of 16 on the left, row pairs on the right. */
  lemma PlainPlaces(r: nat, c: nat, t: nat)
    requires r < 8 && c < 16 && t < 16
    ensures Lane(r, t) == 16 * r + t < 128 && Paired(c, t) == 32 * (t / 2) + 2 * c + t % 2 < 256
  {
  }

  /** Term by term, at the plain places of the registers. */
  lemma BlockDotIs(a: seq<real>, b: seq<real>, r: nat, c: nat, t: nat, x: real, y: real)
    requires |a| == 128 && |b| == 256 && r < 8 && c < 16 && t < 16
    requires x == a[16 * r + t] && y == b[32 * (t / 2) + 2 * c + t % 2]
    ensures BlockDot(a, b, r, c, 0) == 0.0
    ensures BlockDot(a, b, r, c, t + 1) == BlockDot(a, b, r, c, t) + x * y
  {
    PlainPlaces(r, c, t);
    OneTerm(a, b, r, c, t + 1, x, y);
  }

  lemma OneTerm(a: seq<real>, b: seq<real>, r: nat, c: nat, t: nat, x: real, y: real)
    requires |a| == 128 && |b| == 256 && r < 8 && c < 16 && 0 < t <= 16
    requires x == a[Lane(r, t - 1)] && y == b[Paired(c, t - 1)]
    ensures BlockDot(a, b, r, c, t) == BlockDot(a, b, r, c, t - 1) + x * y
  {
    var sum, next := BlockDot(a, b, r, c, t - 1), BlockDot(a, b, r, c, t);
    assert next == Fma(x, y, sum);
    FmaIs(x, y, sum, next);
  }

  lemma FmaIs(x: real, y: real, sum: real, next: real)
    requires next == Fma(x, y, sum)
    ensures next == sum + x * y
  {
  }

  /** The 8x16 by 16x16 multiply-accumulate of the matrix unit. */
  function Dpas(acc: seq<real>, b: seq<real>, a: seq<real>): (s: seq<real>)
    requires |acc| == 128 && |a| == 128 && |b| == 256
    ensures |s| == 128
  {
    seq(128, p requires 0 <= p < 128 => acc[p] + BlockDot(a, b, p / 16, p % 16, 16))
  }

  /** A block load of 16 elements of one row. */
  method BlockLoad(data: seq<real>, k: nat, rows: nat, row: nat, k0: nat) returns (v: seq<real>)
    requires |data| == Grid.Area(k, rows) && row < rows && k0 + 16 <= k
    ensures |v| == 16 && forall j :: 0 <= j < 16 ==> v[j] == At(data, k, rows, row, k0 + j)
  {
    Grid.CellInside(k, row, k - 1, rows);
    var start := Grid.Area(k, row) + k0;
    v := data[start..start + 16];
  }

  /** An element of `x`, or the zero below its last row. */
  function Padded(g: Group, k: nat, m: nat, t: nat): real
    requires |g.x| == Grid.Area(k, g.rows) && t < k
  {
    if m < g.rows then At(g.x, k, g.rows, m, t) else 0.0
  }

  /** The left operand: 16 columns of `x` from `k0` on, padded with zeros below the last row. */
  method LoadLeft(g: Group, k: nat, m0: nat, k0: nat) returns (a: seq<real>)
    requires |g.x| == Grid.Area(k, g.rows) && k0 + 16 <= k
    ensures |a| == 128
    ensures forall r, j :: 0 <= r < 8 && 0 <= j < 16 ==> a[Lane(r, j)] == Padded(g, k, m0 + r, k0 + j)
  {
    a := seq(128, _ => 0.0);
    for r := 0 to 8
      invariant |a| == 128
      invariant forall s, j :: 0 <= s < 8 && 0 <= j < 16 ==>
                  a[Lane(s, j)] == if s < r then Padded(g, k, m0 + s, k0 + j) else 0.0
    {
      if m0 + r < g.rows {
        var v := BlockLoad(g.x, k, g.rows, m0 + r, k0);
        a := a[..r * 16] + v + a[r * 16 + 16..];
      }
    }
  }

  /** The first `columns` columns of the right operand are packed from the rows of `w`. */
  ghost predicate Packed(b: seq<real>, w: seq<real>, n: nat, k: nat, n0: nat, k0: nat, columns: nat)
    requires |b| == 256 && |w| == Grid.Area(k, n) && n0 + columns <= n && columns <= 16 && k0 + 16 <= k
  {
    forall c, j :: 0 <= c < columns && 0 <= j < 16 ==> b[Paired(c, j)] == At(w, k, n, n0 + c, k0 + j)
  }

  lemma PackedStep(before: seq<real>, b: seq<real>, w: seq<real>, n: nat, k: nat, n0: nat, k0: nat, c: nat, v: seq<real>)
    requires |b| == |before| == 256 && |w| == Grid.Area(k, n) && c < 16 && n0 + c < n && k0 + 16 <= k && |v| == 16
    requires Packed(before, w, n, k, n0, k0, c)
    requires forall j :: 0 <= j < 16 ==> v[j] == At(w, k, n, n0 + c, k0 + j)
    requires forall d, j :: 0 <= d < 16 && 0 <= j < 16 ==> b[Paired(d, j)] == if d == c then v[j] else before[Paired(d, j)]
    ensures Packed(b, w, n, k, n0, k0, c + 1)
  {
    forall d, j | 0 <= d < c + 1 && 0 <= j < 16
      ensures b[Paired(d, j)] == At(w, k, n, n0 + d, k0 + j)
    {
      if d < c {
        assert before[Paired(d, j)] == At(w, k, n, n0 + d, k0 + j);
      }
    }
  }

  /** The right operand: 16 columns of 16 rows of `w`, packed in pairs. */
  method LoadRight(g: Group, n: nat, k: nat, n0: nat, k0: nat) returns (b: seq<real>)
    requires |g.w| == Grid.Area(k, n) && n0 + 16 <= n && k0 + 16 <= k
    ensures |b| == 256 && Packed(b, g.w, n, k, n0, k0, 16)
  {
    b := seq(256, _ => 0.0);
    for c := 0 to 16
      invariant |b| == 256 && Packed(b, g.w, n, k, n0, k0, c)
    {
      var v := BlockLoad(g.w, k, n, n0 + c, k0);
      ghost var before := b;
      b := Interleave(b, c, v);
      PackedStep(before, b, g.w, n, k, n0, k0, c, v);
    }
  }

  /** One column of the right operand, at every other place of the row pairs. */
  method Interleave(b0: seq<real>, c: nat, v: seq<real>) returns (b: seq<real>)
    requires |b0| == 256 && c < 16 && |v| == 16
    ensures |b| == 256
    ensures forall d, j :: 0 <= d < 16 && 0 <= j < 16 ==> b[Paired(d, j)] == if d == c then v[j] else b0[Paired(d, j)]
  {
    b := b0;
    for kk := 0 to 16
      invariant |b| == 256
      invariant forall d, j :: 0 <= d < 16 && 0 <= j < 16 ==>
                  b[Paired(d, j)] == if d == c && j < kk then v[j] else b0[Paired(d, j)]
    {
      forall d, j | 0 <= d < 16 && 0 <= j < 16 && Paired(d, j) == Paired(c, kk)
        ensures d == c && j == kk
      {
        PairedUnique(d, j, c, kk);
      }
      b := b[Paired(c, kk) := v[kk]];
    }
  }

  /** The registers of one block hold the terms from `k0` to `k0 + 16` of every cell of the tile. */
  lemma {:induction false} BlockAdds(g: Group, n: nat, k: nat, m0: nat, n0: nat, k0: nat, a: seq<real>, b: seq<real>, r: nat, c: nat, t: nat)
    requires Shapes(g, n, k) && |a| == 128 && |b| == 256 && n0 + 16 <= n && k0 + 16 <= k
    requires forall r, j :: 0 <= r < 8 && 0 <= j < 16 ==> a[Lane(r, j)] == Padded(g, k, m0 + r, k0 + j)
    requires Packed(b, g.w, n, k, n0, k0, 16)
    requires r < 8 && c < 16 && m0 + r < g.rows && t <= 16
    ensures Dot(g, n, k, m0 + r, n0 + c, k0 + t) == Dot(g, n, k, m0 + r, n0 + c, k0) + BlockDot(a, b, r, c, t)
  {
    if t > 0 {
      BlockAdds(g, n, k, m0, n0, k0, a, b, r, c, t - 1);
      var x, y := At(g.x, k, g.rows, m0 + r, k0 + (t - 1)), At(g.w, k, n, n0 + c, k0 + (t - 1));
      assert x == Padded(g, k, m0 + r, k0 + (t - 1)) == a[Lane(r, t - 1)] && y == b[Paired(c, t - 1)];
      FmaAdds(x, y, Dot(g, n, k, m0 + r, n0 + c, k0), BlockDot(a, b, r, c, t - 1));
    }
  }

  /** The accumulator of a tile: the dot products of its cells. */
  method Accumulate(g: Group, n: nat, k: nat, m0: nat, n0: nat) returns (acc: seq<real>)
    requires Shapes(g, n, k) && k % 16 == 0 && n0 + 16 <= n
    ensures |acc| == 128
    ensures forall r, c :: 0 <= r < 8 && 0 <= c < 16 && m0 + r < g.rows ==>
              acc[Lane(r, c)] == Dot(g, n, k, m0 + r, n0 + c, k)
  {
    acc := seq(128, _ => 0.0);
    var k0 := 0;
    while k0 < k
      invariant k0 % 16 == 0 && k0 <= k
      invariant |acc| == 128
      invariant forall r, c :: 0 <= r < 8 && 0 <= c < 16 && m0 + r < g.rows ==>
                  acc[Lane(r, c)] == Dot(g, n, k, m0 + r, n0 + c, k0)
    {
      var a := LoadLeft(g, k, m0, k0);
      var b := LoadRight(g, n, k, n0, k0);
      ghost var before := acc;
      acc := Dpas(acc, b, a);
      forall r, c | 0 <= r < 8 && 0 <= c < 16 && m0 + r < g.rows
        ensures acc[Lane(r, c)] == Dot(g, n, k, m0 + r, n0 + c, k0 + 16)
      {
        BlockAdds(g, n, k, m0, n0, k0, a, b, r, c, 16);
        assert Lane(r, c) / 16 == r && Lane(r, c) % 16 == c;
      }
      k0 := k0 + 16;
    }
  }

  /** A block store of 16 elements of one row of the output. */
  method BlockStore(y: array<real>, n: nat, rows: nat, row: nat, n0: nat, v: seq<real>)
    requires Grid.Area(n, rows) <= y.Length && row < rows && n0 + 16 <= n && |v| == 16
    modifies y
    ensures forall m, c :: 0 <= m < rows && 0 <= c < n ==>
              y[Grid.Cell(n, m, c, rows)]
              == if m == row && n0 <= c < n0 + 16 then v[c - n0] else old(y[Grid.Cell(n, m, c, rows)])
    ensures forall p :: Grid.Area(n, rows) <= p < y.Length ==> y[p] == old(y[p])
  {
    Grid.CellInside(n, row, n - 1, rows);
    var start := Grid.Area(n, row) + n0;
    forall j | 0 <= j < 16 {
      y[start + j] := v[j];
    }
    forall m, c | 0 <= m < rows && 0 <= c < n && start <= Grid.Cell(n, m, c, rows) < start + 16
      ensures m == row && Grid.Cell(n, m, c, rows) - start == c - n0
    {
      Grid.CellUnique(n, m, c, row, Grid.Cell(n, m, c, rows) - start + n0);
    }
  }

  predicate Shaped(g: Group, n: nat, k: nat) {
    Shapes(g, n, k) && n % 16 == 0 && k % 16 == 0 && Tiled(g, n / 16)
  }

  /** One tile: it writes the products of the cells it owns, and nothing else. */
  method RunTile(g: Group, n: nat, k: nat, y: array<real>, tile: nat)
    requires Shaped(g, n, k) && g.first <= tile < g.end && Grid.Area(n, g.rows) <= y.Length
    modifies y
    ensures forall m, c :: 0 <= m < g.rows && 0 <= c < n ==>
              y[Grid.Cell(n, m, c, g.rows)]
              == if TileOf(g, n / 16, m, c) == tile then Dot(g, n, k, m, c, k) else old(y[Grid.Cell(n, m, c, g.rows)])
    ensures forall p :: Grid.Area(n, g.rows) <= p < y.Length ==> y[p] == old(y[p])
  {
    TileCorner(g, n / 16, tile);
    var m0, n0 := FirstRow(g, n / 16, tile), FirstColumn(g, n / 16, tile);
    var acc := Accumulate(g, n, k, m0, n0);
    StoreRows(g, n, k, y, m0, n0, acc);
    forall m, c | 0 <= m < g.rows && 0 <= c < n
      ensures m0 <= m < m0 + 8 && n0 <= c < n0 + 16 <==> TileOf(g, n / 16, m, c) == tile
    {
      TileOwns(g, n / 16, tile, m, c);
    }
  }

  method StoreRows(g: Group, n: nat, k: nat, y: array<real>, m0: nat, n0: nat, acc: seq<real>)
    requires Shapes(g, n, k) && Grid.Area(n, g.rows) <= y.Length && n0 + 16 <= n && |acc| == 128
    requires forall r, c :: 0 <= r < 8 && 0 <= c < 16 && m0 + r < g.rows ==>
               acc[Lane(r, c)] == Dot(g, n, k, m0 + r, n0 + c, k)
    modifies y
    ensures forall m, c :: 0 <= m < g.rows && 0 <= c < n ==>
              y[Grid.Cell(n, m, c, g.rows)]
              == if m0 <= m < m0 + 8 && n0 <= c < n0 + 16 then Dot(g, n, k, m, c, k) else old(y[Grid.Cell(n, m, c, g.rows)])
    ensures forall p :: Grid.Area(n, g.rows) <= p < y.Length ==> y[p] == old(y[p])
  {
    for r := 0 to 8
      invariant forall m, c :: 0 <= m < g.rows && 0 <= c < n ==>
                  y[Grid.Cell(n, m, c, g.rows)]
                  == if m0 <= m < m0 + r && n0 <= c < n0 + 16 then Dot(g, n, k, m, c, k) else old(y[Grid.Cell(n, m, c, g.rows)])
      invariant forall p :: Grid.Area(n, g.rows) <= p < y.Length ==> y[p] == old(y[p])
    {
      if m0 + r < g.rows {
        var v := acc[r * 16..r * 16 + 16];
        forall c | 0 <= c < 16
          ensures v[c] == Dot(g, n, k, m0 + r, n0 + c, k)
        {
          assert v[c] == acc[Lane(r, c)];
        }
        BlockStore(y, n, g.rows, m0 + r, n0, v);
      }
    }
  }

  // ---------------------------------------------------------------------------------------------
  // The whole grid
  // ---------------------------------------------------------------------------------------------

  /** Every tile below `total` runs, in any order. */
  ghost predicate Schedule(order: seq<nat>, total: nat) {
    (forall i :: 0 <= i < |order| ==> order[i] < total) && (forall t: nat :: t < total ==> t in order)
  }

  ghost predicate GridInput(groups: seq<Group>, n: nat, k: nat, ys: seq<array<real>>) {
    && |ys| == |groups| && Consecutive(groups)
    && (forall g :: 0 <= g < |groups| ==> Shaped(groups[g], n, k) && Grid.Area(n, groups[g].rows) <= ys[g].Length)
    && (forall g, g' :: 0 <= g < g' < |ys| ==> ys[g] != ys[g'])
  }

  /** The tiles in `done` have written their cells of one output; the rest of it is as it was. */
  ghost predicate Written(g: Group, n: nat, k: nat, now: seq<real>, was: seq<real>, done: seq<nat>)
    requires Shaped(g, n, k) && |now| == |was| && Grid.Area(n, g.rows) <= |was|
  {
    && (forall m, c :: 0 <= m < g.rows && 0 <= c < n ==>
          now[Grid.Cell(n, m, c, g.rows)]
          == if TileOf(g, n / 16, m, c) in done then Dot(g, n, k, m, c, k) else was[Grid.Cell(n, m, c, g.rows)])
    && (forall p :: Grid.Area(n, g.rows) <= p < |was| ==> now[p] == was[p])
  }

  /** The tile has written its cells of its own group. */
  lemma OwnStep(g: Group, n: nat, k: nat, before: seq<real>, now: seq<real>, was: seq<real>, done: seq<nat>, tile: nat)
    requires Shaped(g, n, k) && |now| == |before| == |was| && Grid.Area(n, g.rows) <= |was| && Written(g, n, k, before, was, done)
    requires forall m, c :: 0 <= m < g.rows && 0 <= c < n ==>
               now[Grid.Cell(n, m, c, g.rows)]
               == if TileOf(g, n / 16, m, c) == tile then Dot(g, n, k, m, c, k) else before[Grid.Cell(n, m, c, g.rows)]
    requires forall p :: Grid.Area(n, g.rows) <= p < |was| ==> now[p] == before[p]
    ensures Written(g, n, k, now, was, done + [tile])
  {
  }

  lemma OtherStep(groups: seq<Group>, n: nat, k: nat, g: nat, selected: nat, now: seq<real>, was: seq<real>, done: seq<nat>, tile: nat)
    requires Consecutive(groups) && g < |groups| && selected < |groups| && g != selected
    requires groups[selected].first <= tile < groups[selected].end
    requires Shaped(groups[g], n, k) && |now| == |was| && Grid.Area(n, groups[g].rows) <= |was| && Written(groups[g], n, k, now, was, done)
    ensures Written(groups[g], n, k, now, was, done + [tile])
  {
    OtherGroup(groups, n, k, g, selected, tile);
  }

  /** The tiles in `done` have run, on all groups. */
  ghost predicate AllWritten(groups: seq<Group>, n: nat, k: nat, ys: seq<array<real>>, was: seq<seq<real>>, done: seq<nat>)
    requires GridInput(groups, n, k, ys)
    reads ys
  {
    && |was| == |ys|
    && (forall g :: 0 <= g < |groups| ==> |was[g]| == ys[g].Length && Written(groups[g], n, k, ys[g][..], was[g], done))
  }

  method RunOne(groups: seq<Group>, n: nat, k: nat, ys: seq<array<real>>, tile: nat, ghost was: seq<seq<real>>, ghost done: seq<nat>)
    requires GridInput(groups, n, k, ys) && tile < Total(groups) && AllWritten(groups, n, k, ys, was, done)
    modifies ys
    ensures AllWritten(groups, n, k, ys, was, done + [tile])
  {
    var selected := SelectGroup(groups, tile);
    ghost var before := ys[selected][..];
    RunTile(groups[selected], n, k, ys[selected], tile);
    OwnStep(groups[selected], n, k, before, ys[selected][..], was[selected], done, tile);
    forall g | 0 <= g < |groups| && g != selected
      ensures Written(groups[g], n, k, ys[g][..], was[g], done + [tile])
    {
      assert ys[g][..] == old(ys[g][..]);
      OtherStep(groups, n, k, g, selected, ys[g][..], was[g], done, tile);
    }
  }

  /** Every cell of every group is the plain dot product of its row and column, and nothing outside
      the outputs is touched, in whatever order the tiles run. */
  method RunGrid(groups: seq<Group>, n: nat, k: nat, ys: seq<array<real>>, order: seq<nat>)
    requires GridInput(groups, n, k, ys)
    requires Schedule(order, Total(groups))
    modifies ys
    ensures forall g :: 0 <= g < |groups| ==> Finished(groups[g], n, k, ys[g][..], old(ys[g][..]))
  {
    ghost var was := seq(|ys|, g requires 0 <= g < |ys| reads ys => ys[g][..]);
    for i := 0 to |order|
      invariant AllWritten(groups, n, k, ys, was, order[..i])
    {
      RunOne(groups, n, k, ys, order[i], was, order[..i]);
      assert order[..i + 1] == order[..i] + [order[i]];
    }
    assert order[..|order|] == order;
    forall g | 0 <= g < |groups|
      ensures Finished(groups[g], n, k, ys[g][..], was[g])
    {
      AllTiles(groups, n, k, g, order);
      AllIsFinished(groups[g], n, k, ys[g][..], was[g], order);
    }
  }

  /** What the caller of the grid gets: the products, and the cells past them untouched. */
  ghost predicate Finished(g: Group, n: nat, k: nat, now: seq<real>, was: seq<real>)
    requires Shapes(g, n, k) && Grid.Area(n, g.rows) <= |was|
  {
    && |now| == |was|
    && (forall m, c :: 0 <= m < g.rows && 0 <= c < n ==> IsProduct(g, n, k, now, m, c))
    && (forall p :: n * g.rows <= p < |was| ==> now[p] == was[p])
  }

  /** What all tiles have written are the products. */
  lemma AllIsFinished(g: Group, n: nat, k: nat, now: seq<real>, was: seq<real>, done: seq<nat>)
    requires Shaped(g, n, k) && |now| == |was| && Grid.Area(n, g.rows) <= |was| && Written(g, n, k, now, was, done)
    requires forall m, c :: 0 <= m < g.rows && 0 <= c < n ==> TileOf(g, n / 16, m, c) in done
    ensures Finished(g, n, k, now, was)
  {
    forall m, c | 0 <= m < g.rows && 0 <= c < n
      ensures IsProduct(g, n, k, now, m, c)
    {
      assert TileOf(g, n / 16, m, c) in done;
      CellIsProduct(g, n, k, now, m, c);
    }
    Grid.AreaIsProduct(n, g.rows);
  }

  /** A tile of one group owns no cell of another. */
  lemma OtherGroup(groups: seq<Group>, n: nat, k: nat, g: nat, selected: nat, tile: nat)
    requires Consecutive(groups) && g < |groups| && selected < |groups| && g != selected
    requires Shaped(groups[g], n, k) && groups[selected].first <= tile < groups[selected].end
    ensures forall m, c :: 0 <= m < groups[g].rows && 0 <= c < n ==> TileOf(groups[g], n / 16, m, c) != tile
  {
    forall m, c | 0 <= m < groups[g].rows && 0 <= c < n
      ensures TileOf(groups[g], n / 16, m, c) != tile
    {
      TileInGroup(groups[g], n / 16, m, c);
      if g < selected {
        Ordered(groups, g, selected);
      } else {
        Ordered(groups, selected, g);
      }
    }
  }

  lemma AllTiles(groups: seq<Group>, n: nat, k: nat, g: nat, order: seq<nat>)
    requires Consecutive(groups) && g < |groups| && Shaped(groups[g], n, k)
    requires Schedule(order, Total(groups))
    ensures forall m, c :: 0 <= m < groups[g].rows && 0 <= c < n ==> TileOf(groups[g], n / 16, m, c) in order
  {
    forall m, c | 0 <= m < groups[g].rows && 0 <= c < n
      ensures TileOf(groups[g], n / 16, m, c) in order
    {
      TileInGroup(groups[g], n / 16, m, c);
      if g + 1 < |groups| {
        Ordered(groups, g, |groups| - 1);
        assert EndBefore(groups, |groups| - 1) <= groups[|groups| - 1].end;
      }
    }
  }

  // ---------------------------------------------------------------------------------------------
  // The launcher
  // ---------------------------------------------------------------------------------------------

  /** One group as the caller passes it: operands, rows, and the addresses of its three buffers. */
  datatype Operands = Operands(x: seq<real>, w: seq<real>, rows: int, xAt: nat, wAt: nat, yAt: nat)

  predicate BoundedShape(n: int, k: int) {
    (n == 1280 && k == 2560) || (n == 2560 && k == 640) || (n == 16 && k == 16) || (n == 32 && k == 32)
  }

  lemma OneMore(groups: seq<Group>, next: Group)
    requires Consecutive(groups) && next.first == Total(groups) <= next.end
    ensures Consecutive(groups + [next]) && Total(groups + [next]) == next.end
  {
    forall g | 0 <= g <= |groups|
      ensures EndBefore(groups + [next], g) == EndBefore(groups, g)
    {
    }
  }

  /** The group carries these operands, and tiles for all of its output. */
  predicate Describes(g: Group, op: Operands, columns: nat) {
    g.x == op.x && g.w == op.w && g.rows == op.rows && Tiled(g, columns)
  }

  function NextGroup(op: Operands, columns: nat, total: nat): (g: Group)
    requires op.rows > 0 && columns > 0
    ensures Describes(g, op, columns) && g.first == total <= g.end
  {
    Group(op.x, op.w, op.rows, total, total + Grid.Area(columns, RowTiles(op.rows)))
  }

  /** A pointer that the block loads and stores can use. */
  predicate Usable(address: nat) {
    address != 0 && address % 16 == 0
  }

  predicate GroupAdmitted(op: Operands) {
    1 <= op.rows <= 64 && Usable(op.xAt) && Usable(op.wAt) && Usable(op.yAt)
  }

  /** What the source accepts: a queue in order, no null table, one to eight groups of a known shape, and in
      every group one to 64 rows and usable pointers. */
  predicate Admitted(inOrder: bool, tables: bool, ops: seq<Operands>, n: int, k: int) {
    inOrder && tables && 1 <= |ops| <= 8 && BoundedShape(n, k) && forall g :: 0 <= g < |ops| ==> GroupAdmitted(ops[g])
  }

  /** The tile numbers of all groups, by a running total; stops at a group that is not accepted. */
  method Number(ops: seq<Operands>, columns: nat) returns (ok: bool, groups: seq<Group>)
    requires columns > 0
    ensures ok <==> forall g :: 0 <= g < |ops| ==> GroupAdmitted(ops[g])
    ensures ok ==> |groups| == |ops| && Consecutive(groups)
    ensures ok ==> forall g :: 0 <= g < |ops| ==> Describes(groups[g], ops[g], columns)
  {
    groups := [];
    var total: nat := 0;
    for g := 0 to |ops|
      invariant |groups| == g && Consecutive(groups) && total == Total(groups)
      invariant forall i :: 0 <= i < g ==> GroupAdmitted(ops[i]) && Describes(groups[i], ops[i], columns)
    {
      var op := ops[g];
      if op.xAt == 0 || op.wAt == 0 || op.yAt == 0 || op.rows < 1 || op.rows > 64
         || op.xAt % 16 != 0 || op.wAt % 16 != 0 || op.yAt % 16 != 0 {
        return false, groups;
      }
      var group := NextGroup(op, columns, total);
      OneMore(groups, group);
      groups := groups + [group];
      total := group.end;
    }
    ok := true;
  }

  /** Operands and outputs are as large as rows and shape say. */
  predicate Sized(op: Operands, y: array<real>, n: nat, k: nat) {
    op.rows >= 0 && |op.x| == Grid.Area(k, op.rows) && |op.w| == Grid.Area(k, n) && Grid.Area(n, op.rows) <= y.Length
  }

  /** Refuses what the source refuses, before any output is touched, and otherwise computes every
      group's product. */
  method Launch(inOrder: bool, tables: bool, ops: seq<Operands>, ys: seq<array<real>>, n: int, k: int,
                schedule: nat -> seq<nat>) returns (ok: bool, groups: seq<Group>)
    requires |ops| == |ys|
    requires Admitted(inOrder, tables, ops, n, k) ==> forall g :: 0 <= g < |ops| ==> Sized(ops[g], ys[g], n, k)
    requires forall g, h :: 0 <= g < h < |ys| ==> ys[g] != ys[h]
    requires forall total :: Schedule(schedule(total), total)
    modifies ys
    ensures ok <==> Admitted(inOrder, tables, ops, n, k)
    ensures !ok ==> forall g :: 0 <= g < |ys| ==> ys[g][..] == old(ys[g][..])
    ensures ok ==> |groups| == |ops|
    ensures ok ==> forall g :: 0 <= g < |ops| ==>
              && Sized(ops[g], ys[g], n, k) && Describes(groups[g], ops[g], n / 16)
              && Finished(groups[g], n, k, ys[g][..], old(ys[g][..]))
  {
    ok, groups := false, [];
    var bounded := (n == 1280 && k == 2560) || (n == 2560 && k == 640) || (n == 16 && k == 16) || (n == 32 && k == 32);
    if inOrder && tables && 1 <= |ops| <= 8 && bounded {
      ok, groups := Number(ops, n / 16);
    }
    if ok {
      RunGrid(groups, n, k, ys, schedule(Total(groups)));
    }
  }
}
