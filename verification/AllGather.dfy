/** An all-gather made of an all-reduce: every rank puts its tensor into its own slice of zeros, the sum
    stacks the tensors, and moving the rank axis to `d` and merging it with that axis puts them one
    behind another along `d`. */
module AllGather {
  import Grid

  // ---------------------------------------------------------------------------------------------
  // Shapes and places
  // ---------------------------------------------------------------------------------------------

  /** Elements of a tensor of a shape. */
  function Count(shape: seq<nat>): nat {
    if shape == [] then 1 else Grid.Area(Count(shape[1..]), shape[0])
  }

  /** Index by index inside the shape. */
  predicate Inside(idx: seq<nat>, shape: seq<nat>) {
    |idx| == |shape| && forall i :: 0 <= i < |idx| ==> idx[i] < shape[i]
  }

  /** Where an element is in memory, the last index moving fastest. */
  function Flat(shape: seq<nat>, idx: seq<nat>): (f: nat)
    requires Inside(idx, shape)
    ensures f < Count(shape)
  {
    if shape == [] then 0
    else
      Grid.CellInside(Count(shape[1..]), idx[0], Flat(shape[1..], idx[1..]), shape[0]);
      Grid.Area(Count(shape[1..]), idx[0]) + Flat(shape[1..], idx[1..])
  }

  lemma {:induction false} CountSplit(a: seq<nat>, b: seq<nat>)
    ensures Count(a + b) == Grid.Area(Count(b), Count(a))
  {
    if a == [] {
      assert a + b == b && Grid.Area(Count(b), 1) == Grid.Area(Count(b), 0) + Count(b);
    } else {
      assert (a + b)[1..] == a[1..] + b;
      CountSplit(a[1..], b);
      Grid.AreaNests(Count(b), Count(a[1..]), a[0]);
    }
  }

  /** The leading indices choose a block, the others a place in it. */
  lemma {:induction false} FlatSplit(a: seq<nat>, b: seq<nat>, i: seq<nat>, j: seq<nat>)
    requires Inside(i, a) && Inside(j, b)
    ensures Inside(i + j, a + b) && Flat(a + b, i + j) == Grid.Area(Count(b), Flat(a, i)) + Flat(b, j)
  {
    if a == [] {
      assert a + b == b && i + j == j;
    } else {
      assert (a + b)[1..] == a[1..] + b && (i + j)[1..] == i[1..] + j;
      FlatSplit(a[1..], b, i[1..], j);
      CountSplit(a[1..], b);
      Grid.AreaNests(Count(b), Count(a[1..]), i[0]);
      Grid.AreaAdds(Count(b), Grid.Area(Count(a[1..]), i[0]), Flat(a[1..], i[1..]));
    }
  }

  // ---------------------------------------------------------------------------------------------
  // The sum of padded buffers
  // ---------------------------------------------------------------------------------------------

  /** A rank's buffer: zeros but for its own slice. */
  function Padded(input: seq<real>, rank: nat, ranks: nat): (buf: seq<real>)
    requires rank < ranks
    ensures |buf| == Grid.Area(|input|, ranks)
  {
    seq(Grid.Area(|input|, ranks), p requires p >= 0 =>
      if Grid.Area(|input|, rank) <= p < Grid.Area(|input|, rank) + |input| then input[p - Grid.Area(|input|, rank)] else 0.0)
  }

  predicate SameSize(inputs: seq<seq<real>>, n: nat) {
    forall r :: 0 <= r < |inputs| ==> |inputs[r]| == n
  }

  /** Element `p` summed over the first `k` ranks' buffers. */
  function SumAt(inputs: seq<seq<real>>, n: nat, p: nat, k: nat): real
    requires SameSize(inputs, n) && k <= |inputs| && p < Grid.Area(n, |inputs|)
  {
    if k == 0 then 0.0 else SumAt(inputs, n, p, k - 1) + Padded(inputs[k - 1], k - 1, |inputs|)[p]
  }

  /** Every place of the sum has the one rank's element that belongs there. */
  lemma {:induction false} SumIsStack(inputs: seq<seq<real>>, n: nat, rank: nat, i: nat, k: nat)
    requires SameSize(inputs, n) && rank < |inputs| && i < n && k <= |inputs|
    ensures Grid.Area(n, rank) + i < Grid.Area(n, |inputs|)
    ensures SumAt(inputs, n, Grid.Area(n, rank) + i, k) == if rank < k then inputs[rank][i] else 0.0
  {
    Grid.CellInside(n, rank, i, |inputs|);
    if k > 0 {
      SumIsStack(inputs, n, rank, i, k - 1);
      if k - 1 < rank {
        Grid.CellInside(n, k - 1, 0, rank);
      } else if rank < k - 1 {
        Grid.CellInside(n, rank, i, k - 1);
      }
    }
  }

  /** What the all-reduce leaves on every rank. */
  function Stacked(inputs: seq<seq<real>>, n: nat): (stack: seq<real>)
    requires SameSize(inputs, n)
    ensures |stack| == Grid.Area(n, |inputs|)
  {
    seq(Grid.Area(n, |inputs|), p requires 0 <= p < Grid.Area(n, |inputs|) => SumAt(inputs, n, p, |inputs|))
  }

  // ---------------------------------------------------------------------------------------------
  // Moving the rank axis
  // ---------------------------------------------------------------------------------------------

  /** The stack with its first axis moved behind the first axes of the tensor, which have `rows`
      elements; `block` elements follow. */
  function Moved(stack: seq<real>, ranks: nat, rows: nat, block: nat): (out: seq<real>)
    requires |stack| == Grid.Area(Grid.Area(block, rows), ranks)
    ensures |out| == Grid.Area(block, Grid.Area(ranks, rows))
  {
    seq(Grid.Area(block, Grid.Area(ranks, rows)), f requires 0 <= f < Grid.Area(block, Grid.Area(ranks, rows)) =>
      if ranks == 0 || block == 0 then 0.0
      else stack[Source(ranks, rows, block, f)])
  }

  /** Where element `f` of the result comes from. */
  function Source(ranks: nat, rows: nat, block: nat, f: nat): (p: nat)
    requires ranks > 0 && block > 0 && f < Grid.Area(block, Grid.Area(ranks, rows))
    ensures p < Grid.Area(Grid.Area(block, rows), ranks)
  {
    Grid.RowInside(block, f, Grid.Area(ranks, rows));
    Grid.RowInside(ranks, Grid.Row(block, f), rows);
    Grid.CellInside(block, Grid.Row(ranks, Grid.Row(block, f)), Grid.Col(block, f), rows);
    Grid.CellInside(Grid.Area(block, rows), Grid.Col(ranks, Grid.Row(block, f)),
                    Grid.Area(block, Grid.Row(ranks, Grid.Row(block, f))) + Grid.Col(block, f), ranks);
    Grid.Area(Grid.Area(block, rows), Grid.Col(ranks, Grid.Row(block, f)))
    + Grid.Area(block, Grid.Row(ranks, Grid.Row(block, f))) + Grid.Col(block, f)
  }

  /** Block `row` of rank `r` becomes block `r` of row `row`. */
  lemma MovedAt(stack: seq<real>, ranks: nat, rows: nat, block: nat, row: nat, r: nat, t: nat)
    requires |stack| == Grid.Area(Grid.Area(block, rows), ranks) && row < rows && r < ranks && t < block
    ensures Grid.Area(block, Grid.Area(ranks, row) + r) + t < Grid.Area(block, Grid.Area(ranks, rows))
    ensures Grid.Area(Grid.Area(block, rows), r) + Grid.Area(block, row) + t < |stack|
    ensures Moved(stack, ranks, rows, block)[Grid.Area(block, Grid.Area(ranks, row) + r) + t]
            == stack[Grid.Area(Grid.Area(block, rows), r) + Grid.Area(block, row) + t]
  {
    Grid.CellInside(ranks, row, r, rows);
    Grid.CellInside(block, Grid.Area(ranks, row) + r, t, Grid.Area(ranks, rows));
    Grid.CellInside(block, row, t, rows);
    Grid.CellInside(Grid.Area(block, rows), r, Grid.Area(block, row) + t, ranks);
    Grid.RowOfCell(block, Grid.Area(ranks, row) + r, t);
    Grid.RowOfCell(ranks, row, r);
  }

  // ---------------------------------------------------------------------------------------------
  // The gather
  // ---------------------------------------------------------------------------------------------

  /** The axis meant by a dimension that may be negative. */
  function Axis(dim: int, dims: nat): int {
    if dim < 0 then dim + dims else dim
  }

  /** A tensor's shape, or an index into it, as what comes before the axis, the axis, and the rest. */
  function Join(pre: seq<nat>, at: nat, post: seq<nat>): seq<nat> {
    pre + ([at] + post)
  }

  lemma FlatHead(n: nat, post: seq<nat>, x: nat, j: seq<nat>)
    requires Inside(j, post) && x < n
    ensures Inside([x] + j, [n] + post) && Flat([n] + post, [x] + j) == Grid.Area(Count(post), x) + Flat(post, j)
    ensures Count([n] + post) == Grid.Area(Count(post), n)
  {
    assert ([n] + post)[1..] == post && ([x] + j)[1..] == j;
  }

  lemma FlatJoin(pre: seq<nat>, n: nat, post: seq<nat>, i: seq<nat>, x: nat, j: seq<nat>)
    requires Inside(i, pre) && Inside(j, post) && x < n
    ensures Inside(Join(i, x, j), Join(pre, n, post))
    ensures Flat(Join(pre, n, post), Join(i, x, j))
            == Grid.Area(Grid.Area(Count(post), n), Flat(pre, i)) + (Grid.Area(Count(post), x) + Flat(post, j))
  {
    FlatHead(n, post, x, j);
    FlatSplit(pre, [n] + post, i, [x] + j);
  }

  /** Moving the rank axis in terms of index vectors: the element at `(r, i, j)` of the stack, where `i` are the
      indices before the axis and `j` those from it on, is at `(i, r, j)` afterwards. */
  lemma MovedIndex(stack: seq<real>, ranks: nat, pre: seq<nat>, rest: seq<nat>, i: seq<nat>, r: nat, j: seq<nat>)
    requires |stack| == Count([ranks] + (pre + rest)) && Inside(i, pre) && Inside(j, rest) && r < ranks
    ensures |stack| == Grid.Area(Grid.Area(Count(rest), Count(pre)), ranks)
    ensures Inside([r] + (i + j), [ranks] + (pre + rest)) && Inside(Join(i, r, j), Join(pre, ranks, rest))
    ensures var moved := Moved(stack, ranks, Count(pre), Count(rest));
      && Flat(Join(pre, ranks, rest), Join(i, r, j)) < |moved|
      && moved[Flat(Join(pre, ranks, rest), Join(i, r, j))] == stack[Flat([ranks] + (pre + rest), [r] + (i + j))]
  {
    var rows, block, row, t, f, g := MovedPlaces(ranks, pre, rest, i, r, j);
    MovedAt(stack, ranks, rows, block, row, r, t);
  }

  lemma MovedPlaces(ranks: nat, pre: seq<nat>, rest: seq<nat>, i: seq<nat>, r: nat, j: seq<nat>)
    returns (rows: nat, block: nat, row: nat, t: nat, f: nat, g: nat)
    requires Inside(i, pre) && Inside(j, rest) && r < ranks
    ensures rows == Count(pre) && block == Count(rest) && row < rows && t < block
    ensures Count([ranks] + (pre + rest)) == Grid.Area(Grid.Area(block, rows), ranks)
    ensures Inside([r] + (i + j), [ranks] + (pre + rest)) && g == Flat([ranks] + (pre + rest), [r] + (i + j))
    ensures Inside(Join(i, r, j), Join(pre, ranks, rest)) && f == Flat(Join(pre, ranks, rest), Join(i, r, j))
    ensures f == Grid.Area(block, Grid.Area(ranks, row) + r) + t && g == Grid.Area(Grid.Area(block, rows), r) + Grid.Area(block, row) + t
  {
    rows, block, row, t := Count(pre), Count(rest), Flat(pre, i), Flat(rest, j);
    CountSplit(pre, rest);
    FlatSplit(pre, rest, i, j);
    FlatHead(ranks, pre + rest, r, i + j);
    FlatJoin(pre, ranks, rest, i, r, j);
    Grid.AreaNests(block, ranks, row);
    Grid.AreaAdds(block, Grid.Area(ranks, row), r);
    f, g := Flat(Join(pre, ranks, rest), Join(i, r, j)), Flat([ranks] + (pre + rest), [r] + (i + j));
  }

  lemma BlockArithmetic(q: nat, size: nat, ranks: nat, row: nat, r: nat, s: nat, f: nat)
    ensures Grid.Area(Grid.Area(q, Grid.Area(size, ranks)), row) + (Grid.Area(q, Grid.Area(size, r) + s) + f)
            == Grid.Area(Grid.Area(q, size), Grid.Area(ranks, row) + r) + (Grid.Area(q, s) + f)
  {
    Grid.AreaNests(q, size, ranks);
    Grid.AreaNests(Grid.Area(q, size), ranks, row);
    Grid.AreaAdds(Grid.Area(q, size), Grid.Area(ranks, row), r);
    Grid.AreaAdds(q, Grid.Area(size, r), s);
    Grid.AreaNests(q, size, r);
  }

  /** The gather of tensors of `rows` blocks. */
  function GatherBlocks(inputs: seq<seq<real>>, rows: nat, block: nat): (out: seq<real>)
    requires SameSize(inputs, Grid.Area(block, rows))
    ensures |out| == Grid.Area(block, Grid.Area(|inputs|, rows))
  {
    Moved(Stacked(inputs, Grid.Area(block, rows)), |inputs|, rows, block)
  }

  /** Of every row, the blocks of the ranks come one behind another. */
  lemma BlocksInTurn(inputs: seq<seq<real>>, rows: nat, block: nat, row: nat, r: nat, t: nat, f: nat, g: nat)
    requires SameSize(inputs, Grid.Area(block, rows)) && row < rows && r < |inputs| && t < block
    requires f == Grid.Area(block, Grid.Area(|inputs|, row) + r) + t && g == Grid.Area(block, row) + t
    ensures f < |GatherBlocks(inputs, rows, block)| && g < |inputs[r]| && GatherBlocks(inputs, rows, block)[f] == inputs[r][g]
  {
    var n := Grid.Area(block, rows);
    Grid.CellInside(block, row, t, rows);
    MovedAt(Stacked(inputs, n), |inputs|, rows, block, row, r, t);
    SumIsStack(inputs, n, r, Grid.Area(block, row) + t, |inputs|);
  }

  lemma JoinedCount(pre: seq<nat>, size: nat, post: seq<nat>)
    ensures Count(Join(pre, size, post)) == Grid.Area(Grid.Area(Count(post), size), Count(pre))
  {
    assert ([size] + post)[1..] == post;
    CountSplit(pre, [size] + post);
  }

  /** What every rank ends up with, by what comes before the axis, the axis, and the rest. */
  function GatherAt(inputs: seq<seq<real>>, pre: seq<nat>, size: nat, post: seq<nat>): (out: seq<real>)
    requires SameSize(inputs, Count(Join(pre, size, post)))
    ensures |out| == Count(Join(pre, Grid.Area(size, |inputs|), post))
  {
    JoinedCount(pre, size, post);
    GatheredCount(pre, size, post, |inputs|);
    GatherBlocks(inputs, Count(pre), Grid.Area(Count(post), size))
  }

  /** The gather along a dimension, which may count from the end. */
  function Gather(inputs: seq<seq<real>>, shape: seq<nat>, dim: int): seq<real>
    requires inputs != [] && SameSize(inputs, Count(shape)) && -|shape| <= dim < |shape|
  {
    var d := Axis(dim, |shape|);
    assert shape == Join(shape[..d], shape[d], shape[d + 1..]);
    GatherAt(inputs, shape[..d], shape[d], shape[d + 1..])
  }

  /** A dimension that counts from the end means the same axis. */
  lemma GatherAxis(inputs: seq<seq<real>>, pre: seq<nat>, size: nat, post: seq<nat>, dim: int)
    requires inputs != [] && SameSize(inputs, Count(Join(pre, size, post)))
    requires dim == |pre| || dim == |pre| - |Join(pre, size, post)|
    ensures Gather(inputs, Join(pre, size, post), dim) == GatherAt(inputs, pre, size, post)
  {
    var shape := Join(pre, size, post);
    assert shape[..|pre|] == pre && shape[|pre|] == size && shape[|pre| + 1..] == post;
  }

  /** A place along the axis is a rank and a place in its tensor: element `t` of a block of a row. */
  lemma PlaceSplit(pre: seq<nat>, size: nat, post: seq<nat>, ranks: nat, i: seq<nat>, x: nat, j: seq<nat>)
    returns (row: nat, block: nat, t: nat, f: nat, g: nat)
    requires Inside(i, pre) && Inside(j, post) && size > 0 && x < Grid.Area(size, ranks)
    ensures row < Count(pre) && block == Grid.Area(Count(post), size) && Grid.Row(size, x) < ranks && t < block
    ensures Inside(Join(i, Grid.Col(size, x), j), Join(pre, size, post)) && g == Flat(Join(pre, size, post), Join(i, Grid.Col(size, x), j))
    ensures Inside(Join(i, x, j), Join(pre, Grid.Area(size, ranks), post)) && f == Flat(Join(pre, Grid.Area(size, ranks), post), Join(i, x, j))
    ensures g == Grid.Area(block, row) + t && f == Grid.Area(block, Grid.Area(ranks, row) + Grid.Row(size, x)) + t
  {
    var r, s := Grid.Row(size, x), Grid.Col(size, x);
    Grid.RowAndCol(size, x);
    Grid.RowInside(size, x, ranks);
    FlatJoin(pre, size, post, i, s, j);
    FlatJoin(pre, Grid.Area(size, ranks), post, i, x, j);
    BlockArithmetic(Count(post), size, ranks, Flat(pre, i), r, s, Flat(post, j));
    Grid.CellInside(Count(post), s, Flat(post, j), size);
    row, block, t := Flat(pre, i), Grid.Area(Count(post), size), Grid.Area(Count(post), s) + Flat(post, j);
    f, g := Flat(Join(pre, Grid.Area(size, ranks), post), Join(i, x, j)), Flat(Join(pre, size, post), Join(i, s, j));
  }

  /** The gathered tensor is the ranks' tensors one behind another along the axis: its element at `x`
      along it, at `f` in memory, is the element of rank `x / size` at `x % size`, at `g` in its memory. */
  lemma GatherIsConcat(inputs: seq<seq<real>>, pre: seq<nat>, size: nat, post: seq<nat>, i: seq<nat>, x: nat, j: seq<nat>) returns (f: nat, g: nat)
    requires SameSize(inputs, Count(Join(pre, size, post)))
    requires Inside(i, pre) && Inside(j, post) && size > 0 && x < Grid.Area(size, |inputs|)
    ensures Inside(Join(i, x, j), Join(pre, Grid.Area(size, |inputs|), post)) && f == Flat(Join(pre, Grid.Area(size, |inputs|), post), Join(i, x, j))
    ensures Inside(Join(i, Grid.Col(size, x), j), Join(pre, size, post)) && g == Flat(Join(pre, size, post), Join(i, Grid.Col(size, x), j))
    ensures f < |GatherAt(inputs, pre, size, post)| && Grid.Row(size, x) < |inputs| && g < |inputs[Grid.Row(size, x)]|
    ensures GatherAt(inputs, pre, size, post)[f] == inputs[Grid.Row(size, x)][g]
  {
    var row, block, t;
    row, block, t, f, g := PlaceSplit(pre, size, post, |inputs|, i, x, j);
    GatherAtPlace(inputs, pre, size, post, row, block, Grid.Row(size, x), t, f, g);
  }

  /** The same by the number of the row before the axis and the place behind it. */
  lemma GatherAtPlace(inputs: seq<seq<real>>, pre: seq<nat>, size: nat, post: seq<nat>, row: nat, block: nat, r: nat, t: nat, f: nat, g: nat)
    requires SameSize(inputs, Count(Join(pre, size, post))) && block == Grid.Area(Count(post), size)
    requires row < Count(pre) && r < |inputs| && t < block
    requires f == Grid.Area(block, Grid.Area(|inputs|, row) + r) + t && g == Grid.Area(block, row) + t
    ensures f < |GatherAt(inputs, pre, size, post)| && g < |inputs[r]| && GatherAt(inputs, pre, size, post)[f] == inputs[r][g]
  {
    JoinedCount(pre, size, post);
    assert GatherAt(inputs, pre, size, post) == GatherBlocks(inputs, Count(pre), block);
    BlocksInTurn(inputs, Count(pre), block, row, r, t, f, g);
  }

  lemma GatheredCount(pre: seq<nat>, size: nat, post: seq<nat>, ranks: nat)
    ensures Count(Join(pre, Grid.Area(size, ranks), post)) == Grid.Area(Grid.Area(Count(post), size), Grid.Area(ranks, Count(pre)))
  {
    CountSplit(pre, [Grid.Area(size, ranks)] + post);
    assert ([Grid.Area(size, ranks)] + post)[1..] == post;
    Grid.AreaNests(Count(post), size, ranks);
    Grid.AreaNests(Grid.Area(Count(post), size), ranks, Count(pre));
  }
}
