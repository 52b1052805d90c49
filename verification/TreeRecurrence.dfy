/** The gated delta rule over a tree of draft tokens.

    One pass over the tokens keeps the state after every token in a cache and starts each token from
    the cached state of its parent. The rows of a state never mix, which is what lets tiles of rows run
    on their own; the lanes beyond the key size hold zeros and change nothing. */
module TreeRecurrence {
  import Grid
  import opened Collections
  import opened Options
  import opened TreeFold

  type Positive = x: real | x > 0.0 witness 1.0

  /** The exponential and the square root, which the properties do not depend on. */
  datatype Maths = Maths(exp: real -> real, root: real -> Positive)

  datatype Gate = Single(g: real) | PerLane(gs: seq<real>)
  datatype Strength = Shared(b: real) | PerRow(bs: seq<real>)

  /** What one head reads for one token. */
  datatype Token = Token(q: seq<real>, k: seq<real>, v: seq<real>, gate: Gate, beta: Strength)

  /** Key and value sizes, the lanes a program works on, the rows of a tile, and the two settings. */
  datatype Shape = Shape(keys: nat, values: nat, lanes: nat, tile: nat, norm: bool, scale: real)

  predicate TokensOk(sh: Shape, toks: seq<Token>) {
    forall t :: 0 <= t < |toks| ==> |toks[t].q| == |toks[t].k| == sh.keys
  }

  // ---------------------------------------------------------------------------------------------
  // One row, one token
  // ---------------------------------------------------------------------------------------------

  /** A masked load: zero beyond the end. */
  function At(x: seq<real>, i: nat): real {
    if i < |x| then x[i] else 0.0
  }

  function Mul(a: real, b: real): real {
    a * b
  }

  /** The sum over the first `n` lanes. */
  function Dot(a: seq<real>, b: seq<real>, n: nat): real {
    if n == 0 then 0.0 else Dot(a, b, n - 1) + Mul(At(a, n - 1), At(b, n - 1))
  }

  /** A key or query on `width` lanes, divided by its length or as it is. */
  function Unit(m: Maths, norm: bool, x: seq<real>, width: nat): (u: seq<real>)
    ensures |u| == width
  {
    var length := m.root(Dot(x, x, width) + 0.000001);
    seq(width, i requires i >= 0 => if norm then At(x, i) / length else At(x, i))
  }

  function Scaled(x: seq<real>, scale: real): (y: seq<real>)
    ensures |y| == |x|
  {
    seq(|x|, i requires 0 <= i < |x| => Mul(x[i], scale))
  }

  function Decay(m: Maths, gate: Gate, i: nat): real {
    m.exp(if gate.Single? then gate.g else At(gate.gs, i))
  }

  function Decayed(m: Maths, gate: Gate, h: seq<real>, width: nat): (d: seq<real>)
    ensures |d| == width
  {
    seq(width, i requires i >= 0 => Mul(At(h, i), Decay(m, gate, i)))
  }

  function Beta(tok: Token, row: nat): real {
    if tok.beta.Shared? then tok.beta.b else At(tok.beta.bs, row)
  }

  function AddScaled(d: seq<real>, x: real, k: seq<real>): (h: seq<real>)
    ensures |h| == |d|
  {
    seq(|d|, i requires 0 <= i < |d| => d[i] + Mul(x, At(k, i)))
  }

  /** The delta rule on `width` lanes: forget a little, then move towards the value in the direction of
      the key. */
  function RowStep(m: Maths, sh: Shape, width: nat, row: nat, h: seq<real>, tok: Token): (h': seq<real>)
    ensures |h'| == width
  {
    var k := Unit(m, sh.norm, tok.k, width);
    var d := Decayed(m, tok.gate, h, width);
    AddScaled(d, Mul(At(tok.v, row) - Dot(d, k, width), Beta(tok, row)), k)
  }

  /** What the query reads of a row. */
  function Read(m: Maths, sh: Shape, width: nat, h: seq<real>, tok: Token): real {
    Dot(h, Scaled(Unit(m, sh.norm, tok.q, width), sh.scale), width)
  }

  // ---------------------------------------------------------------------------------------------
  // The same step and output, lane by lane in plain arithmetic
  // ---------------------------------------------------------------------------------------------

  function Total(x: seq<real>): real {
    if x == [] then 0.0 else Total(x[..|x| - 1]) + x[|x| - 1]
  }

  /** `x`, or `x` divided by the root of the sum of its squares and a little. */
  function Direction(m: Maths, norm: bool, x: seq<real>): (u: seq<real>)
    ensures |u| == |x|
  {
    var squares := Total(seq(|x|, i requires 0 <= i < |x| => x[i] * x[i]));
    if norm then seq(|x|, i requires 0 <= i < |x| => x[i] / m.root(squares + 0.000001)) else x
  }

  /** Gate, value and strength are there for every lane and row that asks for them. */
  predicate Sized(sh: Shape, tok: Token, row: nat) {
    && |tok.q| == |tok.k| == sh.keys && row < |tok.v|
    && (tok.gate.PerLane? ==> |tok.gate.gs| == sh.keys)
    && (tok.beta.PerRow? ==> row < |tok.beta.bs|)
  }

  /** What is left of every lane: it is multiplied by the exponential of its gate. */
  function Kept(m: Maths, gate: Gate, h: seq<real>): (d: seq<real>)
    requires gate.PerLane? ==> |gate.gs| == |h|
    ensures |d| == |h|
  {
    match gate
    case Single(g) => seq(|h|, i requires 0 <= i < |h| => m.exp(g) * h[i])
    case PerLane(gs) => seq(|h|, i requires 0 <= i < |h| => m.exp(gs[i]) * h[i])
  }

  lemma {:induction false} DotIs(a: seq<real>, b: seq<real>, products: seq<real>, n: nat)
    requires |a| == |b| == |products| && n <= |a|
    requires forall i :: 0 <= i < |a| ==> products[i] == a[i] * b[i]
    ensures Dot(a, b, n) == Total(products[..n])
  {
    if n > 0 {
      DotIs(a, b, products, n - 1);
      assert products[..n][..n - 1] == products[..n - 1];
      assert Mul(a[n - 1], b[n - 1]) == products[n - 1];
    }
  }

  lemma UnitIs(m: Maths, norm: bool, x: seq<real>)
    ensures Unit(m, norm, x, |x|) == Direction(m, norm, x)
  {
    var squares := seq(|x|, i requires 0 <= i < |x| => x[i] * x[i]);
    DotIs(x, x, squares, |x|);
    assert squares[..|x|] == squares;
  }

  lemma DecayedIs(m: Maths, gate: Gate, h: seq<real>)
    requires gate.PerLane? ==> |gate.gs| == |h|
    ensures Decayed(m, gate, h, |h|) == Kept(m, gate, h)
  {
    forall i | 0 <= i < |h|
      ensures Decayed(m, gate, h, |h|)[i] == Kept(m, gate, h)[i]
    {
      var e := if gate.Single? then m.exp(gate.g) else m.exp(gate.gs[i]);
      assert Mul(h[i], e) == e * h[i];
    }
  }

  lemma Regroup(x: real, b: real, k: real)
    ensures Mul(Mul(x, b), k) == b * x * k
  {
  }

  lemma AddIs(d: seq<real>, x: real, b: real, k: seq<real>, i: nat)
    requires |d| == |k| && i < |d|
    ensures AddScaled(d, Mul(x, b), k)[i] == d[i] + b * x * k[i]
  {
    Regroup(x, b, k[i]);
  }

  /** What the kept row predicts for the value. */
  function Predicted(d: seq<real>, k: seq<real>): real
    requires |d| == |k|
  {
    Total(seq(|d|, j requires 0 <= j < |d| => d[j] * k[j]))
  }

  lemma PredictedIs(d: seq<real>, k: seq<real>)
    requires |d| == |k|
    ensures Dot(d, k, |d|) == Predicted(d, k)
  {
    var products := seq(|d|, j requires 0 <= j < |d| => d[j] * k[j]);
    DotIs(d, k, products, |d|);
    assert products[..|d|] == products;
  }

  lemma StepAdds(m: Maths, sh: Shape, row: nat, h: seq<real>, tok: Token, k: seq<real>, d: seq<real>, x: real)
    requires |h| == |tok.k| == sh.keys && k == Unit(m, sh.norm, tok.k, sh.keys) && d == Decayed(m, tok.gate, h, sh.keys)
    requires x == At(tok.v, row) - Dot(d, k, sh.keys)
    ensures RowStep(m, sh, sh.keys, row, h, tok) == AddScaled(d, Mul(x, Beta(tok, row)), k)
  {
  }

  /** Every lane: what is kept of it, and the key times the strength times what the prediction misses of
      the value. */
  lemma StepIs(m: Maths, sh: Shape, row: nat, h: seq<real>, tok: Token, i: nat, k: seq<real>, d: seq<real>, beta: real, missed: real)
    requires Sized(sh, tok, row) && |h| == sh.keys && i < sh.keys
    requires k == Direction(m, sh.norm, tok.k) && d == Kept(m, tok.gate, h)
    requires beta == match tok.beta case Shared(b) => b case PerRow(bs) => bs[row]
    requires missed == tok.v[row] - Predicted(d, k)
    ensures RowStep(m, sh, sh.keys, row, h, tok)[i] == d[i] + beta * missed * k[i]
  {
    UnitIs(m, sh.norm, tok.k);
    DecayedIs(m, tok.gate, h);
    PredictedIs(d, k);
    StepAdds(m, sh, row, h, tok, k, d, missed);
    AddIs(d, missed, beta, k, i);
  }

  /** The output: the new row times the scaled query. */
  lemma ReadIs(m: Maths, sh: Shape, h: seq<real>, tok: Token)
    requires |h| == |tok.q| == sh.keys
    ensures var q := Direction(m, sh.norm, tok.q);
      Read(m, sh, sh.keys, h, tok) == Total(seq(sh.keys, i requires 0 <= i < sh.keys => h[i] * (q[i] * sh.scale)))
  {
    UnitIs(m, sh.norm, tok.q);
    var q := Direction(m, sh.norm, tok.q);
    var products := seq(sh.keys, i requires 0 <= i < sh.keys => h[i] * (q[i] * sh.scale));
    forall i | 0 <= i < sh.keys
      ensures products[i] == h[i] * Scaled(q, sh.scale)[i]
    {
      assert Mul(q[i], sh.scale) == q[i] * sh.scale;
    }
    DotIs(h, Scaled(q, sh.scale), products, sh.keys);
    assert products[..sh.keys] == products;
  }

  // ---------------------------------------------------------------------------------------------
  // Lanes beyond the key size
  // ---------------------------------------------------------------------------------------------

  /** The first `width` lanes, or as many with zeros at the end. */
  function Fit(x: seq<real>, width: nat): (y: seq<real>)
    ensures |y| == width
  {
    seq(width, i requires i >= 0 => At(x, i))
  }

  lemma FitBack(x: seq<real>, width: nat)
    requires |x| <= width
    ensures Fit(Fit(x, width), |x|) == x
  {
  }

  /** Lanes where one factor is zero add nothing. */
  lemma {:induction false} DotFit(a: seq<real>, b: seq<real>, a': seq<real>, b': seq<real>, keys: nat, n: nat)
    requires forall i :: 0 <= i < n ==> At(b', i) == (if i < keys then At(b, i) else 0.0)
    requires forall i :: 0 <= i < keys && i < n ==> At(a', i) == At(a, i)
    ensures Dot(a', b', n) == Dot(a, b, if n <= keys then n else keys)
  {
    if n > 0 {
      DotFit(a, b, a', b', keys, n - 1);
    }
  }

  lemma UnitFit(m: Maths, norm: bool, x: seq<real>, width: nat)
    requires |x| <= width
    ensures Unit(m, norm, x, width) == Fit(Unit(m, norm, x, |x|), width)
  {
    DotFit(x, x, x, x, |x|, width);
  }

  /** On all its lanes a program does the exact step, with zeros in the lanes that are too many. */
  lemma WideStep(m: Maths, sh: Shape, row: nat, h: seq<real>, tok: Token)
    requires |h| == |tok.k| == sh.keys <= sh.lanes
    ensures RowStep(m, sh, sh.lanes, row, Fit(h, sh.lanes), tok) == Fit(RowStep(m, sh, sh.keys, row, h, tok), sh.lanes)
  {
    UnitFit(m, sh.norm, tok.k, sh.lanes);
    var k, k' := Unit(m, sh.norm, tok.k, sh.keys), Unit(m, sh.norm, tok.k, sh.lanes);
    var d, d' := Decayed(m, tok.gate, h, sh.keys), Decayed(m, tok.gate, Fit(h, sh.lanes), sh.lanes);
    assert d' == Fit(d, sh.lanes);
    DotFit(d, k, d', k', sh.keys, sh.lanes);
    WideAdd(d, Mul(At(tok.v, row) - Dot(d, k, sh.keys), Beta(tok, row)), k, sh.lanes);
  }

  lemma WideAdd(d: seq<real>, x: real, k: seq<real>, width: nat)
    requires |d| == |k| <= width
    ensures AddScaled(Fit(d, width), x, Fit(k, width)) == Fit(AddScaled(d, x, k), width)
  {
  }

  lemma WideRead(m: Maths, sh: Shape, h: seq<real>, tok: Token)
    requires |h| == |tok.q| == sh.keys <= sh.lanes
    ensures Read(m, sh, sh.lanes, Fit(h, sh.lanes), tok) == Read(m, sh, sh.keys, h, tok)
  {
    UnitFit(m, sh.norm, tok.q, sh.lanes);
    var q, q' := Unit(m, sh.norm, tok.q, sh.keys), Unit(m, sh.norm, tok.q, sh.lanes);
    DotFit(h, Scaled(q, sh.scale), Fit(h, sh.lanes), Scaled(q', sh.scale), sh.keys, sh.lanes);
  }

  // ---------------------------------------------------------------------------------------------
  // A head
  // ---------------------------------------------------------------------------------------------

  /** The tokens of one head, the state at the start, and for a tree the parents. */
  datatype Problem = Problem(m: Maths, sh: Shape, toks: seq<Token>, init: seq<seq<real>>, parents: Option<seq<nat>>)

  predicate Rows(rows: seq<seq<real>>, count: nat, keys: nat) {
    |rows| == count && forall j :: 0 <= j < |rows| ==> |rows[j]| == keys
  }

  predicate ProblemOk(p: Problem) {
    p.sh.keys <= p.sh.lanes && TokensOk(p.sh, p.toks) && Rows(p.init, p.sh.values, p.sh.keys) && ParentsFirst(p.parents, |p.toks|)
  }

  /** The step of one row. */
  function StepOf(m: Maths, sh: Shape, row: nat): (seq<real>, Token) -> seq<real> {
    (h: seq<real>, tok: Token) => RowStep(m, sh, sh.keys, row, h, tok)
  }

  /** A row of the state after a token of the tree. */
  function RowAfter(p: Problem, t: nat, row: nat): seq<real>
    requires ProblemOk(p) && t < |p.toks| && row < p.sh.values
  {
    State(StepOf(p.m, p.sh, row), p.init[row], p.toks, p.parents, t)
  }

  function Out(p: Problem, t: nat, row: nat): real
    requires ProblemOk(p) && t < |p.toks| && row < p.sh.values
  {
    Read(p.m, p.sh, p.sh.keys, RowAfter(p, t, row), p.toks[t])
  }

  /** Every output is what the plain recurrence along the path to its token gives. */
  lemma OutAlongPath(p: Problem, t: nat, row: nat)
    requires ProblemOk(p) && t < |p.toks| && row < p.sh.values
    ensures var path := Path(p.parents, |p.toks|, t);
            var along := Sequential(StepOf(p.m, p.sh, row), p.init[row], Gather(p.toks, path), |path|);
      RowAfter(p, t, row) == along && Out(p, t, row) == Read(p.m, p.sh, p.sh.keys, along, p.toks[t])
  {
    TreeIsPath(StepOf(p.m, p.sh, row), p.init[row], p.toks, p.parents, t);
  }

  /** A chain of parents gives what the pass without parents gives. */
  lemma ChainIsPlain(p: Problem, t: nat, row: nat)
    requires ProblemOk(p) && t < |p.toks| && row < p.sh.values
    requires forall s :: 0 < s < |p.toks| ==> Prev(p.parents, |p.toks|, s) == s - 1
    ensures RowAfter(p, t, row) == RowAfter(p.(parents := None), t, row) && Out(p, t, row) == Out(p.(parents := None), t, row)
  {
    ChainIsSequential(StepOf(p.m, p.sh, row), p.init[row], p.toks, p.parents, t);
    ChainIsSequential(StepOf(p.m, p.sh, row), p.init[row], p.toks, None, t);
  }

  /** What a row is before a token. */
  function RowBefore(p: Problem, t: nat, row: nat): seq<real>
    requires ProblemOk(p) && t < |p.toks| && row < p.sh.values
  {
    Before(StepOf(p.m, p.sh, row), p.init[row], p.toks, p.parents, t)
  }

  /** One step on all lanes takes a row to its next state. */
  lemma RowAdvances(p: Problem, row: nat, t: nat)
    requires ProblemOk(p) && row < p.sh.values && t < |p.toks|
    ensures var h := RowBefore(p, t, row);
      && |RowAfter(p, t, row)| == p.sh.keys
      && RowStep(p.m, p.sh, p.sh.lanes, row, Fit(h, p.sh.lanes), p.toks[t]) == Fit(RowAfter(p, t, row), p.sh.lanes)
      && Read(p.m, p.sh, p.sh.lanes, Fit(RowAfter(p, t, row), p.sh.lanes), p.toks[t]) == Out(p, t, row)
  {
    var h := RowBefore(p, t, row);
    RowLength(p, t, row);
    if t > 0 {
      RowLength(p, Prev(p.parents, |p.toks|, t), row);
    }
    WideStep(p.m, p.sh, row, h, p.toks[t]);
    WideRead(p.m, p.sh, RowAfter(p, t, row), p.toks[t]);
  }

  lemma RowLength(p: Problem, t: nat, row: nat)
    requires ProblemOk(p) && row < p.sh.values && t < |p.toks|
    ensures |RowAfter(p, t, row)| == p.sh.keys
  {
    var step := StepOf(p.m, p.sh, row);
    var h := Before(step, p.init[row], p.toks, p.parents, t);
    assert RowAfter(p, t, row) == step(h, p.toks[t]) == RowStep(p.m, p.sh, p.sh.keys, row, h, p.toks[t]);
  }

  // ---------------------------------------------------------------------------------------------
  // The kernels: one program per tile of rows
  // ---------------------------------------------------------------------------------------------

  /** One time step on all rows of a tile: the state decays, the prediction is taken off the value, and
      the rest is written along the key. */
  function TileStep(m: Maths, sh: Shape, first: nat, h: seq<seq<real>>, tok: Token): (h': seq<seq<real>>)
    ensures |h'| == |h| && forall j :: 0 <= j < |h| ==> h'[j] == RowStep(m, sh, sh.lanes, first + j, h[j], tok)
  {
    var k := Unit(m, sh.norm, tok.k, sh.lanes);
    var d := seq(|h|, j requires 0 <= j < |h| => Decayed(m, tok.gate, h[j], sh.lanes));
    var rest := seq(|h|, j requires 0 <= j < |h| => At(tok.v, first + j) - Dot(d[j], k, sh.lanes));
    var b := seq(|h|, j requires 0 <= j < |h| => Mul(rest[j], Beta(tok, first + j)));
    seq(|h|, j requires 0 <= j < |h| => AddScaled(d[j], b[j], k))
  }

  /** The output of every row of a tile. */
  function TileRead(m: Maths, sh: Shape, h: seq<seq<real>>, tok: Token): (o: seq<real>)
    ensures |o| == |h| && forall j :: 0 <= j < |h| ==> o[j] == Read(m, sh, sh.lanes, h[j], tok)
  {
    var q := Scaled(Unit(m, sh.norm, tok.q, sh.lanes), sh.scale);
    seq(|h|, j requires 0 <= j < |h| => Dot(h[j], q, sh.lanes))
  }

  function FitAll(rows: seq<seq<real>>, width: nat): (fit: seq<seq<real>>)
    ensures |fit| == |rows| && forall j :: 0 <= j < |fit| ==> fit[j] == Fit(rows[j], width)
  {
    seq(|rows|, j requires 0 <= j < |rows| => Fit(rows[j], width))
  }

  /** A tile works on all lanes; its loads and stores are masked to the key size. */
  function TileProgram(m: Maths, sh: Shape, first: nat): Program<seq<seq<real>>, seq<seq<real>>, Token, seq<real>> {
    Program((h: seq<seq<real>>, tok: Token) => TileStep(m, sh, first, h, tok),
            (h: seq<seq<real>>, tok: Token) => TileRead(m, sh, h, tok),
            (h: seq<seq<real>>) => FitAll(h, sh.keys),
            (h: seq<seq<real>>) => FitAll(h, sh.lanes))
  }

  /** The rows of a tile after a token, and the outputs of the tile. */
  function TileAfter(p: Problem, first: nat, count: nat, t: nat): (rows: seq<seq<real>>)
    requires ProblemOk(p) && first + count <= p.sh.values && t < |p.toks|
    ensures |rows| == count && forall j :: 0 <= j < count ==> rows[j] == RowAfter(p, t, first + j)
  {
    seq(count, j requires 0 <= j < count => RowAfter(p, t, first + j))
  }

  function TileOut(p: Problem, first: nat, count: nat, t: nat): (o: seq<real>)
    requires ProblemOk(p) && first + count <= p.sh.values && t < |p.toks|
    ensures |o| == count && forall j :: 0 <= j < count ==> o[j] == Out(p, t, first + j)
  {
    seq(count, j requires 0 <= j < count => Out(p, t, first + j))
  }

  /** What the program of a tile has in its registers after a token. */
  function Registers(p: Problem, first: nat, count: nat, t: nat): seq<seq<real>>
    requires ProblemOk(p) && first + count <= p.sh.values && t < |p.toks|
  {
    State(TileProgram(p.m, p.sh, first).step, FitAll(p.init[first..first + count], p.sh.lanes), p.toks, p.parents, t)
  }

  lemma TileAdvances(p: Problem, first: nat, h: seq<seq<real>>, t: nat)
    requires ProblemOk(p) && first + |h| <= p.sh.values && t < |p.toks|
    requires forall j :: 0 <= j < |h| ==> h[j] == Fit(RowBefore(p, t, first + j), p.sh.lanes)
    ensures forall j :: 0 <= j < |h| ==> TileStep(p.m, p.sh, first, h, p.toks[t])[j] == Fit(RowAfter(p, t, first + j), p.sh.lanes)
  {
    forall j | 0 <= j < |h|
      ensures RowStep(p.m, p.sh, p.sh.lanes, first + j, h[j], p.toks[t]) == Fit(RowAfter(p, t, first + j), p.sh.lanes)
    {
      RowAdvances(p, first + j, t);
    }
  }

  /** The registers hold the rows of the tile, each as if it were alone, and zeros. */
  lemma {:induction false} RegistersHold(p: Problem, first: nat, count: nat, t: nat)
    requires ProblemOk(p) && first + count <= p.sh.values && t < |p.toks|
    ensures |Registers(p, first, count, t)| == count
    ensures forall j :: 0 <= j < count ==> Registers(p, first, count, t)[j] == Fit(RowAfter(p, t, first + j), p.sh.lanes)
  {
    var h := FitAll(p.init[first..first + count], p.sh.lanes);
    if t > 0 {
      var s := Prev(p.parents, |p.toks|, t);
      RegistersHold(p, first, count, s);
      h := Registers(p, first, count, s);
    }
    forall j | 0 <= j < count
      ensures h[j] == Fit(RowBefore(p, t, first + j), p.sh.lanes)
    {
      BeforeIs(StepOf(p.m, p.sh, first + j), p.init[first + j], p.toks, p.parents, t);
    }
    TileAdvances(p, first, h, t);
    BeforeIs(TileProgram(p.m, p.sh, first).step, FitAll(p.init[first..first + count], p.sh.lanes), p.toks, p.parents, t);
    assert Registers(p, first, count, t) == TileStep(p.m, p.sh, first, h, p.toks[t]);
  }

  /** Storing fitted rows gives the rows, and loading those gives the fitted ones. */
  lemma FitAllBack(w: seq<seq<real>>, rows: seq<seq<real>>, keys: nat, lanes: nat)
    requires |w| == |rows| && keys <= lanes
    requires forall j :: 0 <= j < |rows| ==> |rows[j]| == keys && w[j] == Fit(rows[j], lanes)
    ensures FitAll(w, keys) == rows && FitAll(rows, lanes) == w
  {
    forall j | 0 <= j < |rows|
      ensures FitAll(w, keys)[j] == rows[j]
    {
      FitBack(rows[j], lanes);
    }
  }

  lemma OutputsLeave(p: Problem, first: nat, count: nat, t: nat, w: seq<seq<real>>)
    requires ProblemOk(p) && first + count <= p.sh.values && t < |p.toks| && |w| == count
    requires forall j :: 0 <= j < count ==> w[j] == Fit(RowAfter(p, t, first + j), p.sh.lanes)
    ensures TileRead(p.m, p.sh, w, p.toks[t]) == TileOut(p, first, count, t)
  {
    forall j | 0 <= j < count
      ensures TileRead(p.m, p.sh, w, p.toks[t])[j] == TileOut(p, first, count, t)[j]
    {
      RowAdvances(p, first + j, t);
    }
  }

  /** What leaves the program are the rows and the outputs of the tile, and nothing is lost on the way
      through the cache. */
  lemma RegistersLeave(p: Problem, first: nat, count: nat, t: nat)
    requires ProblemOk(p) && first + count <= p.sh.values && t < |p.toks|
    ensures var g, w := TileProgram(p.m, p.sh, first), Registers(p, first, count, t);
      g.store(w) == TileAfter(p, first, count, t) && g.read(w, p.toks[t]) == TileOut(p, first, count, t) && g.load(g.store(w)) == w
  {
    RegistersHold(p, first, count, t);
    var w, rows := Registers(p, first, count, t), TileAfter(p, first, count, t);
    forall j | 0 <= j < count
      ensures |rows[j]| == p.sh.keys
    {
      RowLength(p, t, first + j);
    }
    FitAllBack(w, rows, p.sh.keys, p.sh.lanes);
    OutputsLeave(p, first, count, t, w);
  }

  type TileJob = Job<seq<seq<real>>, seq<seq<real>>, Token, seq<real>>

  /** The program of a tile as a job; in its place of the pool are the rows of the tile. */
  function JobOfTile(p: Problem, lanes: seq<int>, first: nat, count: nat, idx: int, slot: int, column: nat): TileJob {
    Job(TileProgram(p.m, p.sh, first), FitAll(NoRows(p.sh, count), p.sh.lanes), p.toks, p.parents, lanes, idx, slot, column)
  }

  function NoRows(sh: Shape, count: nat): seq<seq<real>> {
    seq(count, _ => Fit([], sh.keys))
  }

  /** What the program of a tile stores for every token are the rows and the outputs of the tree
      recurrence, and it can load them back. */
  lemma TileStores(p: Problem, lanes: seq<int>, first: nat, count: nat, idx: int, slot: int, column: nat, init: seq<seq<real>>)
    requires ProblemOk(p) && first + count <= p.sh.values && init == FitAll(p.init[first..first + count], p.sh.lanes)
    ensures var k := JobOfTile(p, lanes, first, count, idx, slot, column);
      && Reloads(k.g, init, p.toks, p.parents)
      && forall t :: 0 <= t < |p.toks| ==>
           && k.g.store(State(k.g.step, init, p.toks, p.parents, t)) == TileAfter(p, first, count, t)
           && k.g.read(State(k.g.step, init, p.toks, p.parents, t), p.toks[t]) == TileOut(p, first, count, t)
  {
    forall t | 0 <= t < |p.toks|
      ensures var g, w := TileProgram(p.m, p.sh, first), Registers(p, first, count, t);
        g.store(w) == TileAfter(p, first, count, t) && g.read(w, p.toks[t]) == TileOut(p, first, count, t) && g.load(g.store(w)) == w
    {
      RegistersLeave(p, first, count, t);
    }
  }

  /** The tree kernel on a tile whose rows the pool holds at a valid index: what it stores for every
      token are the rows and the outputs of the tree recurrence. */
  method UpdateTile(p: Problem, mode: Mode, lanes: seq<int>, first: nat, count: nat, idx: int, slot: int, column: nat,
                    pool: array<seq<seq<real>>>, cache: array2<seq<seq<real>>>, out: array2<seq<real>>)
    requires ProblemOk(p) && first + count <= p.sh.values
    requires p.parents.Some? == (mode.tree && slot >= 0) && Loaded(p.parents, lanes, |p.toks|)
    requires Placed(JobOfTile(p, lanes, first, count, idx, slot, column), pool, cache, out)
    requires p.init[first..first + count] == if mode.useInitial && idx >= 0 then pool[idx] else NoRows(p.sh, count)
    requires cache as object != out as object
    modifies pool, cache, out
    ensures forall c, t {:trigger out[c, t]} :: 0 <= c < out.Length0 && 0 <= t < out.Length1 ==>
              out[c, t] == if c == column && mode.output && t < |p.toks| then TileOut(p, first, count, t) else old(out[c, t])
    ensures forall c, t {:trigger cache[c, t]} :: 0 <= c < cache.Length0 && 0 <= t < cache.Length1 ==>
              cache[c, t] == if c == slot && t < |p.toks| then TileAfter(p, first, count, t) else old(cache[c, t])
    ensures forall i {:trigger pool[i]} :: 0 <= i < pool.Length ==>
              (i != idx || mode.keepState ==> pool[i] == old(pool[i]))
              && (i == idx && !mode.keepState && p.toks != [] ==> pool[i] == TileAfter(p, first, count, |p.toks| - 1))
  {
    var k := JobOfTile(p, lanes, first, count, idx, slot, column);
    TileStores(p, lanes, first, count, idx, slot, column, Initial(k, mode, pool[..]));
    UpdateLoop(k, mode, pool, cache, out);
  }

  /** The plain kernel on a tile: the recurrence without a tree. */
  method ForwardTile(p: Problem, first: nat, count: nat, out: array<seq<real>>) returns (final: seq<seq<real>>)
    requires ProblemOk(p) && p.parents == None && first + count <= p.sh.values && |p.toks| <= out.Length
    modifies out
    ensures forall t {:trigger out[t]} :: 0 <= t < out.Length ==>
              out[t] == if t < |p.toks| then TileOut(p, first, count, t) else old(out[t])
    ensures p.toks != [] ==> final == TileAfter(p, first, count, |p.toks| - 1)
  {
    var g := TileProgram(p.m, p.sh, first);
    var init := FitAll(p.init[first..first + count], p.sh.lanes);
    forall t | 0 <= t < |p.toks|
      ensures g.store(Sequential(g.step, init, p.toks, t + 1)) == TileAfter(p, first, count, t)
      ensures g.read(Sequential(g.step, init, p.toks, t + 1), p.toks[t]) == TileOut(p, first, count, t)
    {
      RegistersLeave(p, first, count, t);
      ChainIsSequential(g.step, init, p.toks, None, t);
    }
    final := ForwardLoop(g, init, p.toks, out);
  }

  // ---------------------------------------------------------------------------------------------
  // The tiles of a head
  // ---------------------------------------------------------------------------------------------

  /** Rows of the `i`th tile; the last tile may be short. */
  function TileCount(sh: Shape, i: nat): nat {
    var first := Grid.Area(sh.tile, i);
    if sh.values <= first then 0 else if sh.values - first < sh.tile then sh.values - first else sh.tile
  }

  predicate InTile(row: nat, first: nat, count: nat) {
    first <= row < first + count
  }

  /** Every row is in exactly one tile. */
  lemma OneTilePerRow(sh: Shape, row: nat, i: nat)
    requires sh.tile > 0 && row < sh.values
    ensures InTile(row, Grid.Area(sh.tile, i), TileCount(sh, i)) <==> i == Grid.Row(sh.tile, row)
  {
    Grid.RowAndCol(sh.tile, row);
    if InTile(row, Grid.Area(sh.tile, i), TileCount(sh, i)) {
      Grid.CellUnique(sh.tile, i, row - Grid.Area(sh.tile, i), Grid.Row(sh.tile, row), Grid.Col(sh.tile, row));
    }
  }
}
