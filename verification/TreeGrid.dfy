/** A whole launch of the tree kernel: a program for every sequence, head and tile of rows, in any order,
    on one pool, one cache and one set of outputs. Every row of every head is left as if it were alone. */
module TreeGrid {
  import Grid
  import opened Collections
  import opened Options
  import opened TreeFold
  import opened TreeRecurrence

  /** A sequence: its place in the pool and in the cache, its tree, and the tokens of every head. */
  datatype Sequence = Sequence(idx: int, slot: int, parents: Option<seq<nat>>, lanes: seq<int>, length: nat, toks: seq<seq<Token>>)

  datatype Launch = Launch(m: Maths, sh: Shape, heads: nat, seqs: seq<Sequence>, mode: Mode)

  /** The number of a program. */
  datatype Prog = Prog(n: nat, head: nat, tile: nat)

  predicate SequenceOk(z: Launch, s: Sequence) {
    && |s.toks| == z.heads && (forall h {:trigger s.toks[h]} :: 0 <= h < z.heads ==> |s.toks[h]| == s.length && TokensOk(z.sh, s.toks[h]))
    && ParentsFirst(s.parents, s.length) && Loaded(s.parents, s.lanes, s.length)
    && s.parents.Some? == (z.mode.tree && s.slot >= 0)
  }

  /** Sequences share no place of the pool and no cache. */
  predicate LaunchOk(z: Launch) {
    && z.sh.tile > 0 && z.sh.keys <= z.sh.lanes
    && (forall n {:trigger z.seqs[n]} :: 0 <= n < |z.seqs| ==> SequenceOk(z, z.seqs[n]))
    && (forall n, o {:trigger z.seqs[n], z.seqs[o]} :: 0 <= n < o < |z.seqs| ==>
          && (z.seqs[n].idx < 0 || z.seqs[n].idx != z.seqs[o].idx)
          && (z.seqs[n].slot < 0 || z.seqs[n].slot != z.seqs[o].slot))
  }

  // ---------------------------------------------------------------------------------------------
  // Tiles and blocks
  // ---------------------------------------------------------------------------------------------

  /** Tiles of a head. */
  function Tiles(sh: Shape): nat
    requires sh.tile > 0
  {
    if sh.values == 0 then 0 else Grid.Row(sh.tile, sh.values - 1) + 1
  }

  lemma TileInside(sh: Shape, i: nat)
    requires sh.tile > 0 && i < Tiles(sh)
    ensures Grid.Area(sh.tile, i) + TileCount(sh, i) <= sh.values
  {
    Grid.RowAndCol(sh.tile, sh.values - 1);
    Grid.AreaGrows(sh.tile, i, Grid.Row(sh.tile, sh.values - 1));
  }

  /** The tile of a row and its place there. */
  lemma RowInTile(sh: Shape, row: nat)
    requires sh.tile > 0 && row < sh.values
    ensures Grid.Row(sh.tile, row) < Tiles(sh) && Grid.Col(sh.tile, row) < TileCount(sh, Grid.Row(sh.tile, row))
    ensures Grid.Area(sh.tile, Grid.Row(sh.tile, row)) + Grid.Col(sh.tile, row) == row
  {
    Grid.RowAndCol(sh.tile, row);
    Grid.RowAndCol(sh.tile, sh.values - 1);
    OneTilePerRow(sh, row, Grid.Row(sh.tile, row));
    Grid.RowInside(sh.tile, row, Tiles(sh));
  }

  /** The block of memory that holds the rows of a tile of a head, in place `a` of the pool, the cache or
      the outputs; -1 if there is no place. */
  function Block(z: Launch, a: int, head: nat, tile: nat): int
    requires z.sh.tile > 0
  {
    if a < 0 then -1 else Grid.Area(Tiles(z.sh), Grid.Area(z.heads, a) + head) + tile
  }

  /** In plain numbers, as the kernel computes it; there are as many tiles as cover the rows. */
  lemma BlockIs(z: Launch, a: nat, head: nat, tile: nat)
    requires z.sh.tile > 0
    ensures Block(z, a, head, tile) == Tiles(z.sh) * (z.heads * a + head) + tile
    ensures Tiles(z.sh) == (z.sh.values + z.sh.tile - 1) / z.sh.tile
  {
    Grid.AreaIsProduct(z.heads, a);
    Grid.AreaIsProduct(Tiles(z.sh), z.heads * a + head);
    TilesCover(z.sh);
  }

  lemma TilesCover(sh: Shape)
    requires sh.tile > 0
    ensures Tiles(sh) == (sh.values + sh.tile - 1) / sh.tile
  {
    if sh.values == 0 {
      Grid.DivideCell(sh.tile, 0, sh.tile - 1);
    } else {
      var q, r := Grid.Row(sh.tile, sh.values - 1), Grid.Col(sh.tile, sh.values - 1);
      Grid.RowAndCol(sh.tile, sh.values - 1);
      Grid.AreaIsProduct(sh.tile, q);
      Grid.Distribute(q, 1, sh.tile);
      Grid.DivideCell(sh.tile, q + 1, r);
    }
  }

  lemma BlockUnique(z: Launch, a: int, q: Prog, b: int, r: Prog)
    requires z.sh.tile > 0 && q.head < z.heads && r.head < z.heads && q.tile < Tiles(z.sh) && r.tile < Tiles(z.sh)
    requires Block(z, a, q.head, q.tile) == Block(z, b, r.head, r.tile) && a >= 0 && b >= 0
    ensures a == b && q.head == r.head && q.tile == r.tile
  {
    Grid.CellUnique(Tiles(z.sh), Grid.Area(z.heads, a) + q.head, q.tile, Grid.Area(z.heads, b) + r.head, r.tile);
    Grid.CellUnique(z.heads, a, q.head, b, r.head);
  }

  predicate InLaunch(z: Launch, q: Prog)
    requires z.sh.tile > 0
  {
    q.n < |z.seqs| && q.head < z.heads && q.tile < Tiles(z.sh)
  }

  function JobOf(z: Launch, q: Prog): TileJob
    requires LaunchOk(z) && InLaunch(z, q)
  {
    var s := z.seqs[q.n];
    Job(TileProgram(z.m, z.sh, Grid.Area(z.sh.tile, q.tile)), FitAll(NoRows(z.sh, TileCount(z.sh, q.tile)), z.sh.lanes),
         s.toks[q.head], s.parents, s.lanes, Block(z, s.idx, q.head, q.tile), Block(z, s.slot, q.head, q.tile), Block(z, q.n, q.head, q.tile))
  }

  /** Different programs share no place. */
  lemma ProgramsApart(z: Launch, q: Prog, r: Prog)
    requires LaunchOk(z) && InLaunch(z, q) && InLaunch(z, r) && q != r
    ensures Apart(JobOf(z, q), JobOf(z, r))
  {
    var s, t := z.seqs[q.n], z.seqs[r.n];
    if Block(z, q.n, q.head, q.tile) == Block(z, r.n, r.head, r.tile) {
      BlockUnique(z, q.n, q, r.n, r);
    }
    if s.idx >= 0 && t.idx >= 0 && Block(z, s.idx, q.head, q.tile) == Block(z, t.idx, r.head, r.tile) {
      BlockUnique(z, s.idx, q, t.idx, r);
    }
    if s.slot >= 0 && t.slot >= 0 && Block(z, s.slot, q.head, q.tile) == Block(z, t.slot, r.head, r.tile) {
      BlockUnique(z, s.slot, q, t.slot, r);
    }
  }

  // ---------------------------------------------------------------------------------------------
  // What a head starts from
  // ---------------------------------------------------------------------------------------------

  type Memory = seq<seq<seq<real>>>

  /** The pool has the rows of every head of every sequence that has a place in it. */
  predicate BlockOk(z: Launch, pool: Memory, q: Prog)
    requires LaunchOk(z) && InLaunch(z, q)
  {
    var b := Block(z, z.seqs[q.n].idx, q.head, q.tile);
    b >= 0 ==> b < |pool| && Rows(pool[b], TileCount(z.sh, q.tile), z.sh.keys)
  }

  ghost predicate PoolOk(z: Launch, pool: Memory)
    requires LaunchOk(z)
  {
    forall q {:trigger BlockOk(z, pool, q)} :: InLaunch(z, q) ==> BlockOk(z, pool, q)
  }

  function InitRow(z: Launch, pool: Memory, n: nat, head: nat, row: nat): (r: seq<real>)
    requires LaunchOk(z) && PoolOk(z, pool) && n < |z.seqs| && head < z.heads && row < z.sh.values
    ensures |r| == z.sh.keys
  {
    RowInTile(z.sh, row);
    var q := Prog(n, head, Grid.Row(z.sh.tile, row));
    assert BlockOk(z, pool, q);
    if z.mode.useInitial && z.seqs[n].idx >= 0 then pool[Block(z, z.seqs[n].idx, head, q.tile)][Grid.Col(z.sh.tile, row)]
    else Fit([], z.sh.keys)
  }

  /** The recurrence of one head. */
  function ProblemOf(z: Launch, pool: Memory, n: nat, head: nat): (p: Problem)
    requires LaunchOk(z) && PoolOk(z, pool) && n < |z.seqs| && head < z.heads
    ensures ProblemOk(p)
  {
    var s := z.seqs[n];
    Problem(z.m, z.sh, s.toks[head], seq(z.sh.values, row requires 0 <= row < z.sh.values => InitRow(z, pool, n, head, row)), s.parents)
  }

  /** The rows that a program loads. */
  function TileRows(z: Launch, pool: Memory, q: Prog): (rows: seq<seq<real>>)
    requires LaunchOk(z) && PoolOk(z, pool) && InLaunch(z, q)
    ensures |rows| == TileCount(z.sh, q.tile)
  {
    assert BlockOk(z, pool, q);
    if z.mode.useInitial && z.seqs[q.n].idx >= 0 then pool[Block(z, z.seqs[q.n].idx, q.head, q.tile)]
    else NoRows(z.sh, TileCount(z.sh, q.tile))
  }

  lemma InitRowIs(z: Launch, pool: Memory, q: Prog, j: nat)
    requires LaunchOk(z) && PoolOk(z, pool) && InLaunch(z, q) && j < TileCount(z.sh, q.tile)
    ensures Grid.Area(z.sh.tile, q.tile) + j < z.sh.values
    ensures InitRow(z, pool, q.n, q.head, Grid.Area(z.sh.tile, q.tile) + j) == TileRows(z, pool, q)[j]
  {
    TileInside(z.sh, q.tile);
    Grid.RowOfCell(z.sh.tile, q.tile, j);
  }

  /** A program starts from the rows of its tile. */
  lemma TileInit(z: Launch, pool: Memory, q: Prog)
    requires LaunchOk(z) && PoolOk(z, pool) && InLaunch(z, q)
    ensures var p, first, count := ProblemOf(z, pool, q.n, q.head), Grid.Area(z.sh.tile, q.tile), TileCount(z.sh, q.tile);
      first + count <= z.sh.values && Initial(JobOf(z, q), z.mode, pool) == FitAll(p.init[first..first + count], z.sh.lanes)
  {
    var p, first, count := ProblemOf(z, pool, q.n, q.head), Grid.Area(z.sh.tile, q.tile), TileCount(z.sh, q.tile);
    TileInside(z.sh, q.tile);
    forall j | 0 <= j < count
      ensures p.init[first + j] == TileRows(z, pool, q)[j]
    {
      InitRowIs(z, pool, q, j);
    }
    assert p.init[first..first + count] == TileRows(z, pool, q);
    LoadsRows(z, pool, q);
  }

  lemma LoadsRows(z: Launch, pool: Memory, q: Prog)
    requires LaunchOk(z) && PoolOk(z, pool) && InLaunch(z, q)
    ensures Initial(JobOf(z, q), z.mode, pool) == FitAll(TileRows(z, pool, q), z.sh.lanes)
  {
    assert BlockOk(z, pool, q);
  }

  // ---------------------------------------------------------------------------------------------
  // The launch
  // ---------------------------------------------------------------------------------------------

  /** What a row leaves, when its tile has these places and it is row `j` there: its outputs, its cached
      states, and its last state in the pool. */
  ghost predicate RowDone(p: Problem, mode: Mode, row: nat, j: nat, idx: int, slot: int, column: nat,
                          pool: array<seq<seq<real>>>, cache: array2<seq<seq<real>>>, out: array2<seq<real>>)
    requires ProblemOk(p) && row < p.sh.values && idx < pool.Length && slot < cache.Length0 && column < out.Length0
    requires |p.toks| <= cache.Length1 && |p.toks| <= out.Length1
    reads pool, cache, out
  {
    && (mode.output ==> forall t {:trigger out[column, t]} :: 0 <= t < |p.toks| ==>
          j < |out[column, t]| && out[column, t][j] == Out(p, t, row))
    && (slot >= 0 ==> forall t {:trigger cache[slot, t]} :: 0 <= t < |p.toks| ==>
          j < |cache[slot, t]| && cache[slot, t][j] == RowAfter(p, t, row))
    && (p.toks != [] && idx >= 0 && !mode.keepState ==>
          j < |pool[idx]| && pool[idx][j] == RowAfter(p, |p.toks| - 1, row))
  }

  /** What a program leaves of the problem of its head. */
  ghost predicate ProgramLeft(p: Problem, mode: Mode, first: nat, j: nat, k: TileJob,
                              pool: array<seq<seq<real>>>, cache: array2<seq<seq<real>>>, out: array2<seq<real>>)
    reads pool, cache, out
  {
    && ProblemOk(p) && first + j < p.sh.values && Placed(k, pool, cache, out) && k.toks == p.toks
    && RowDone(p, mode, first + j, j, k.idx, k.slot, k.column, pool, cache, out)
  }

  /** A program leaves its rows. */
  lemma TileDone(p: Problem, mode: Mode, first: nat, count: nat, j: nat, k: TileJob, init: seq<seq<real>>,
                 pool: array<seq<seq<real>>>, cache: array2<seq<seq<real>>>, out: array2<seq<real>>)
    requires ProblemOk(p) && first + count <= p.sh.values && j < count && init == FitAll(p.init[first..first + count], p.sh.lanes)
    requires k == JobOfTile(p, k.lanes, first, count, k.idx, k.slot, k.column)
    requires JobOk(k, mode) && Placed(k, pool, cache, out) && Left(k, mode, init, pool, cache, out)
    ensures ProgramLeft(p, mode, first, j, k, pool, cache, out)
  {
    TileStores(p, k.lanes, first, count, k.idx, k.slot, k.column, init);
    forall t | 0 <= t < |p.toks|
      ensures TileOut(p, first, count, t)[j] == Out(p, t, first + j) && TileAfter(p, first, count, t)[j] == RowAfter(p, t, first + j)
    {
    }
  }

  /** The memory has room for all programs. */
  ghost predicate Room(z: Launch, pool: array<seq<seq<real>>>, cache: array2<seq<seq<real>>>, out: array2<seq<real>>)
    requires LaunchOk(z)
  {
    forall q {:trigger JobOf(z, q)} :: InLaunch(z, q) ==> Placed(JobOf(z, q), pool, cache, out)
  }

  /** Blocks that are no program's. */
  ghost predicate NoPlace(z: Launch, b: int)
    requires LaunchOk(z)
  {
    forall q {:trigger JobOf(z, q)} :: InLaunch(z, q) ==> JobOf(z, q).idx != b
  }

  ghost predicate NoCache(z: Launch, b: int, t: nat)
    requires LaunchOk(z)
  {
    forall q {:trigger JobOf(z, q)} :: InLaunch(z, q) ==> JobOf(z, q).slot != b || |JobOf(z, q).toks| <= t
  }

  ghost predicate NoOutput(z: Launch, b: int, t: nat)
    requires LaunchOk(z)
  {
    !z.mode.output || forall q {:trigger JobOf(z, q)} :: InLaunch(z, q) ==> JobOf(z, q).column != b || |JobOf(z, q).toks| <= t
  }

  /** A row of a head is left as its own recurrence has it, from what the pool held for it at the start. */
  ghost predicate RowRight(z: Launch, was: Memory, n: nat, head: nat, row: nat,
                           pool: array<seq<seq<real>>>, cache: array2<seq<seq<real>>>, out: array2<seq<real>>)
    requires LaunchOk(z) && PoolOk(z, was) && Room(z, pool, cache, out) && n < |z.seqs| && head < z.heads && row < z.sh.values
    reads pool, cache, out
  {
    RowInTile(z.sh, row);
    var s, tile := z.seqs[n], Grid.Row(z.sh.tile, row);
    assert Placed(JobOf(z, Prog(n, head, tile)), pool, cache, out);
    RowDone(ProblemOf(z, was, n, head), z.mode, row, Grid.Col(z.sh.tile, row),
            Block(z, s.idx, head, tile), Block(z, s.slot, head, tile), Block(z, n, head, tile), pool, cache, out)
  }

  /** A program is the one of its tile in the recurrence of its head. */
  lemma JobIs(z: Launch, was: Memory, q: Prog)
    requires LaunchOk(z) && PoolOk(z, was) && InLaunch(z, q)
    ensures var s := z.seqs[q.n];
      JobOf(z, q) == JobOfTile(ProblemOf(z, was, q.n, q.head), s.lanes, Grid.Area(z.sh.tile, q.tile), TileCount(z.sh, q.tile),
                               Block(z, s.idx, q.head, q.tile), Block(z, s.slot, q.head, q.tile), Block(z, q.n, q.head, q.tile))
  {
  }

  /** The tile of a program in the recurrence of its head. */
  lemma ProgramTile(z: Launch, was: Memory, q: Prog, k: TileJob) returns (p: Problem, first: nat, count: nat, init: seq<seq<real>>)
    requires LaunchOk(z) && PoolOk(z, was) && InLaunch(z, q) && k == JobOf(z, q)
    ensures p == ProblemOf(z, was, q.n, q.head) && first == Grid.Area(z.sh.tile, q.tile) && count == TileCount(z.sh, q.tile)
    ensures ProblemOk(p) && p.sh == z.sh && first + count <= p.sh.values
    ensures init == Initial(k, z.mode, was) == FitAll(p.init[first..first + count], p.sh.lanes)
    ensures k == JobOfTile(p, k.lanes, first, count, k.idx, k.slot, k.column)
  {
    p, first, count := ProblemOf(z, was, q.n, q.head), Grid.Area(z.sh.tile, q.tile), TileCount(z.sh, q.tile);
    init := Initial(k, z.mode, was);
    TileInit(z, was, q);
    JobIs(z, was, q);
  }

  lemma ProgramDone(z: Launch, was: Memory, q: Prog, j: nat, k: TileJob,
                    pool: array<seq<seq<real>>>, cache: array2<seq<seq<real>>>, out: array2<seq<real>>)
    requires LaunchOk(z) && PoolOk(z, was) && InLaunch(z, q) && j < TileCount(z.sh, q.tile) && k == JobOf(z, q)
    requires JobOk(k, z.mode) && Placed(k, pool, cache, out) && Left(k, z.mode, Initial(k, z.mode, was), pool, cache, out)
    ensures ProgramLeft(ProblemOf(z, was, q.n, q.head), z.mode, Grid.Area(z.sh.tile, q.tile), j, k, pool, cache, out)
  {
    var p, first, count, init := ProgramTile(z, was, q, k);
    TileDone(p, z.mode, first, count, j, k, init, pool, cache, out);
  }

  lemma JobReloads(z: Launch, was: Memory, q: Prog)
    requires LaunchOk(z) && PoolOk(z, was) && InLaunch(z, q)
    ensures var k := JobOf(z, q); JobOk(k, z.mode) && Reloads(k.g, Initial(k, z.mode, was), k.toks, k.parents)
  {
    var k := JobOf(z, q);
    TileInit(z, was, q);
    TileStores(ProblemOf(z, was, q.n, q.head), k.lanes, Grid.Area(z.sh.tile, q.tile), TileCount(z.sh, q.tile),
               k.idx, k.slot, k.column, Initial(k, z.mode, was));
  }

  /** Every program of the launch, once. */
  ghost predicate Programs(z: Launch, order: seq<Prog>)
    requires LaunchOk(z)
  {
    Distinct(order) && forall q {:trigger InLaunch(z, q)} {:trigger q in order} :: q in order <==> InLaunch(z, q)
  }

  /** The jobs of the programs in the order in which they run. */
  ghost predicate JobsOf(z: Launch, order: seq<Prog>, jobs: seq<TileJob>)
    requires LaunchOk(z)
  {
    |jobs| == |order| && forall i {:trigger jobs[i]} {:trigger order[i]} :: 0 <= i < |jobs| ==>
      InLaunch(z, order[i]) && jobs[i] == JobOf(z, order[i])
  }

  method MakeJobs(z: Launch, order: seq<Prog>) returns (jobs: seq<TileJob>)
    requires LaunchOk(z) && Programs(z, order)
    ensures JobsOf(z, order, jobs)
  {
    jobs := [];
    for i := 0 to |order|
      invariant JobsOf(z, order[..i], jobs)
    {
      assert order[i] in order;
      jobs := jobs + [JobOf(z, order[i])];
    }
    assert order[..|order|] == order;
  }

  lemma JobsApart(z: Launch, order: seq<Prog>, jobs: seq<TileJob>)
    requires LaunchOk(z) && Programs(z, order) && JobsOf(z, order, jobs)
    ensures forall i, j {:trigger jobs[i], jobs[j]} :: 0 <= i < j < |jobs| ==> Apart(jobs[i], jobs[j])
  {
    forall i, j {:trigger jobs[i], jobs[j]} | 0 <= i < j < |jobs|
      ensures Apart(jobs[i], jobs[j])
    {
      ProgramsApart(z, order[i], order[j]);
    }
  }

  /** When every program has left what it leaves, every row is right. */
  lemma RowsRight(z: Launch, was: Memory, order: seq<Prog>, jobs: seq<TileJob>, n: nat, head: nat, row: nat,
                  pool: array<seq<seq<real>>>, cache: array2<seq<seq<real>>>, out: array2<seq<real>>)
    requires LaunchOk(z) && PoolOk(z, was) && Room(z, pool, cache, out) && Programs(z, order) && JobsOf(z, order, jobs)
    requires forall i {:trigger jobs[i]} :: 0 <= i < |jobs| ==>
               && JobOk(jobs[i], z.mode) && Placed(jobs[i], pool, cache, out)
               && Left(jobs[i], z.mode, Initial(jobs[i], z.mode, was), pool, cache, out)
    requires n < |z.seqs| && head < z.heads && row < z.sh.values
    ensures RowRight(z, was, n, head, row, pool, cache, out)
  {
    RowInTile(z.sh, row);
    var q := Prog(n, head, Grid.Row(z.sh.tile, row));
    var i := Find(z, order, q);
    RowOfProgram(z, was, q, row, jobs[i], pool, cache, out);
  }

  lemma Find(z: Launch, order: seq<Prog>, q: Prog) returns (i: nat)
    requires LaunchOk(z) && Programs(z, order) && InLaunch(z, q)
    ensures i < |order| && order[i] == q
  {
    i :| 0 <= i < |order| && order[i] == q;
  }

  lemma RowOfProgram(z: Launch, was: Memory, q: Prog, row: nat, k: TileJob,
                     pool: array<seq<seq<real>>>, cache: array2<seq<seq<real>>>, out: array2<seq<real>>)
    requires LaunchOk(z) && PoolOk(z, was) && Room(z, pool, cache, out) && row < z.sh.values
    requires InLaunch(z, q) && q.tile == Grid.Row(z.sh.tile, row) && k == JobOf(z, q)
    requires JobOk(k, z.mode) && Placed(k, pool, cache, out) && Left(k, z.mode, Initial(k, z.mode, was), pool, cache, out)
    ensures RowRight(z, was, q.n, q.head, row, pool, cache, out)
  {
    RowInTile(z.sh, row);
    var p, j := ProblemOf(z, was, q.n, q.head), Grid.Col(z.sh.tile, row);
    ProgramDone(z, was, q, j, k, pool, cache, out);
    JobPlaces(z, q);
  }

  lemma JobPlaces(z: Launch, q: Prog)
    requires LaunchOk(z) && InLaunch(z, q)
    ensures var k, s := JobOf(z, q), z.seqs[q.n];
      && k.idx == Block(z, s.idx, q.head, q.tile) && k.slot == Block(z, s.slot, q.head, q.tile)
      && k.column == Block(z, q.n, q.head, q.tile)
  {
  }

  /** The whole launch, in any order of the programs: every row of every head of every sequence has the
      outputs, the cached states and the last state of its own recurrence, from what the pool held for it
      before the launch. Blocks that are no program's keep what they hold. */
  method UpdateGrid(z: Launch, order: seq<Prog>, pool: array<seq<seq<real>>>, cache: array2<seq<seq<real>>>, out: array2<seq<real>>)
    requires LaunchOk(z) && PoolOk(z, pool[..]) && Room(z, pool, cache, out) && cache as object != out as object && Programs(z, order)
    modifies pool, cache, out
    ensures forall n: nat, head: nat, row: nat {:trigger RowRight(z, old(pool[..]), n, head, row, pool, cache, out)} ::
              n < |z.seqs| && head < z.heads && row < z.sh.values ==> RowRight(z, old(pool[..]), n, head, row, pool, cache, out)
    ensures forall b {:trigger pool[b]} :: 0 <= b < pool.Length && (z.mode.keepState || NoPlace(z, b)) ==> pool[b] == old(pool[b])
    ensures forall b, t {:trigger cache[b, t]} ::
              0 <= b < cache.Length0 && 0 <= t < cache.Length1 && NoCache(z, b, t) ==> cache[b, t] == old(cache[b, t])
    ensures forall b, t {:trigger out[b, t]} ::
              0 <= b < out.Length0 && 0 <= t < out.Length1 && NoOutput(z, b, t) ==> out[b, t] == old(out[b, t])
  {
    var jobs := MakeJobs(z, order);
    JobsApart(z, order, jobs);
    forall i | 0 <= i < |jobs|
      ensures JobOk(jobs[i], z.mode) && Placed(jobs[i], pool, cache, out)
      ensures Reloads(jobs[i].g, Initial(jobs[i], z.mode, pool[..]), jobs[i].toks, jobs[i].parents)
    {
      JobReloads(z, pool[..], order[i]);
    }
    RunAll(jobs, z.mode, pool, cache, out);
    forall n: nat, head: nat, row: nat {:trigger RowRight(z, old(pool[..]), n, head, row, pool, cache, out)} |
      n < |z.seqs| && head < z.heads && row < z.sh.values
      ensures RowRight(z, old(pool[..]), n, head, row, pool, cache, out)
    {
      RowsRight(z, old(pool[..]), order, jobs, n, head, row, pool, cache, out);
    }
  }
}
