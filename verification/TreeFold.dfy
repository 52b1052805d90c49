/** Folding a step over a tree of tokens: one pass that starts every token from the state after its
    parent, against one plain run for every path from the root. */
module TreeFold {
  import opened Collections
  import opened Options

  /** Parents come before their children; without parents every token follows the one before it. */
  predicate ParentsFirst(parents: Option<seq<nat>>, n: nat) {
    parents.Some? ==> |parents.value| == n && forall t :: 0 < t < n ==> parents.value[t] < t
  }

  function Prev(parents: Option<seq<nat>>, n: nat, t: nat): (s: nat)
    requires ParentsFirst(parents, n) && 0 < t < n
    ensures s < t
  {
    if parents.Some? then parents.value[t] else t - 1
  }

  /** The state a token starts from, and the state after it. */
  function Before<S, T>(step: (S, T) -> S, init: S, toks: seq<T>, parents: Option<seq<nat>>, t: nat): S
    requires ParentsFirst(parents, |toks|) && t < |toks|
    decreases t, 0
  {
    if t == 0 then init else State(step, init, toks, parents, Prev(parents, |toks|, t))
  }

  function State<S, T>(step: (S, T) -> S, init: S, toks: seq<T>, parents: Option<seq<nat>>, t: nat): S
    requires ParentsFirst(parents, |toks|) && t < |toks|
    decreases t, 1
  {
    step(Before(step, init, toks, parents, t), toks[t])
  }

  lemma BeforeIs<S, T>(step: (S, T) -> S, init: S, toks: seq<T>, parents: Option<seq<nat>>, t: nat)
    requires ParentsFirst(parents, |toks|) && t < |toks|
    ensures State(step, init, toks, parents, t) == step(Before(step, init, toks, parents, t), toks[t])
    ensures Before(step, init, toks, parents, t) == if t == 0 then init else State(step, init, toks, parents, Prev(parents, |toks|, t))
  {
  }

  /** The plain recurrence over the first `n` of some tokens. */
  function Sequential<S, T>(step: (S, T) -> S, init: S, toks: seq<T>, n: nat): S
    requires n <= |toks|
  {
    if n == 0 then init else step(Sequential(step, init, toks, n - 1), toks[n - 1])
  }

  lemma {:induction false} SequentialPrefix<S, T>(step: (S, T) -> S, init: S, toks: seq<T>, more: seq<T>, n: nat)
    requires n <= |toks| && n <= |more| && forall i :: 0 <= i < n ==> toks[i] == more[i]
    ensures Sequential(step, init, toks, n) == Sequential(step, init, more, n)
  {
    if n > 0 {
      SequentialPrefix(step, init, toks, more, n - 1);
    }
  }

  /** The tokens from the root to a token. */
  function Path(parents: Option<seq<nat>>, n: nat, t: nat): (path: seq<nat>)
    requires ParentsFirst(parents, n) && t < n
    ensures |path| > 0 && path[|path| - 1] == t && forall i :: 0 <= i < |path| ==> path[i] < n
  {
    if t == 0 then [0] else Path(parents, n, Prev(parents, n, t)) + [t]
  }

  /** A path starts at the root and goes from parent to child. */
  lemma {:induction false} PathGoesDown(parents: Option<seq<nat>>, n: nat, t: nat)
    requires ParentsFirst(parents, n) && t < n
    ensures Path(parents, n, t)[0] == 0
    ensures forall i :: 0 < i < |Path(parents, n, t)| ==>
              Path(parents, n, t)[i] > 0 && Path(parents, n, t)[i - 1] == Prev(parents, n, Path(parents, n, t)[i])
  {
    if t > 0 {
      PathGoesDown(parents, n, Prev(parents, n, t));
    }
  }

  /** At every token the single pass has the state of the plain recurrence run along the path from the
      root to that token. */
  lemma {:induction false} TreeIsPath<S, T>(step: (S, T) -> S, init: S, toks: seq<T>, parents: Option<seq<nat>>, t: nat)
    requires ParentsFirst(parents, |toks|) && t < |toks|
    ensures var path := Path(parents, |toks|, t);
      State(step, init, toks, parents, t) == Sequential(step, init, Gather(toks, path), |path|)
  {
    var on := Gather(toks, Path(parents, |toks|, t));
    if t == 0 {
      assert Sequential(step, init, on, 0) == init;
    } else {
      var s := Prev(parents, |toks|, t);
      TreeIsPath(step, init, toks, parents, s);
      SequentialPrefix(step, init, Gather(toks, Path(parents, |toks|, s)), on, |Path(parents, |toks|, s)|);
    }
  }

  /** When every token's parent is the one before it, the tree is a chain and the pass is the plain
      recurrence. */
  lemma {:induction false} ChainIsSequential<S, T>(step: (S, T) -> S, init: S, toks: seq<T>, parents: Option<seq<nat>>, t: nat)
    requires ParentsFirst(parents, |toks|) && t < |toks|
    requires forall s :: 0 < s < |toks| ==> Prev(parents, |toks|, s) == s - 1
    ensures State(step, init, toks, parents, t) == Sequential(step, init, toks, t + 1)
  {
    if t > 0 {
      ChainIsSequential(step, init, toks, parents, t - 1);
    }
    assert Sequential(step, init, toks, 0) == init;
  }

  // ---------------------------------------------------------------------------------------------
  // The loops of the kernels
  // ---------------------------------------------------------------------------------------------

  /** The one lane of a load that has the number of the step. */
  function PickLane(lanes: seq<int>, step: nat, n: nat): int
    requires n <= |lanes|
  {
    if n == 0 then 0 else PickLane(lanes, step, n - 1) + if n - 1 == step then lanes[n - 1] else 0
  }

  lemma {:induction false} PickLaneIs(lanes: seq<int>, step: nat, n: nat)
    requires n <= |lanes|
    ensures PickLane(lanes, step, n) == if step < n then lanes[step] else 0
  {
    if n > 0 {
      PickLaneIs(lanes, step, n - 1);
    }
  }

  /** The parents as a kernel loads them: right up to the last token, anything beyond it. */
  predicate Loaded(parents: Option<seq<nat>>, lanes: seq<int>, n: nat) {
    parents.Some? ==> n <= |lanes| && |parents.value| == n && forall i :: 0 <= i < n ==> lanes[i] == parents.value[i]
  }

  /** What a program computes: one step of the state in its registers and what it outputs of it; how it
      stores a state and loads a stored one. */
  datatype Program<!W, !S, !T, !O> = Program(step: (W, T) -> W, read: (W, T) -> O, store: W -> S, load: S -> W)

  /** The state after `n` tokens: that of the last one, whatever its place in the tree. */
  function After<S, T>(step: (S, T) -> S, init: S, toks: seq<T>, parents: Option<seq<nat>>, n: nat): S
    requires ParentsFirst(parents, |toks|) && n <= |toks|
  {
    if n == 0 then init else State(step, init, toks, parents, n - 1)
  }

  /** Storing and loading loses nothing of the states that occur. */
  ghost predicate Reloads<W, S, T, O>(g: Program<W, S, T, O>, init: W, toks: seq<T>, parents: Option<seq<nat>>)
    requires ParentsFirst(parents, |toks|)
  {
    forall t :: 0 <= t < |toks| ==> g.load(g.store(State(g.step, init, toks, parents, t))) == State(g.step, init, toks, parents, t)
  }

  /** What one program works on: its tokens, the parents as it loads them in `lanes`, and where it finds and
      leaves things. An index below zero means there is no place in the pool, or no cache, and without a
      cache the parents are not looked at. */
  datatype Job<!W, !S, !T, !O> = Job(g: Program<W, S, T, O>, zero: W, toks: seq<T>, parents: Option<seq<nat>>, lanes: seq<int>,
                                       idx: int, slot: int, column: nat)

  /** The settings of a launch. */
  datatype Mode = Mode(tree: bool, useInitial: bool, keepState: bool, output: bool)

  predicate JobOk<W, S, T, O>(k: Job<W, S, T, O>, mode: Mode) {
    ParentsFirst(k.parents, |k.toks|) && k.parents.Some? == (mode.tree && k.slot >= 0) && Loaded(k.parents, k.lanes, |k.toks|)
  }

  function Initial<W, S, T, O>(k: Job<W, S, T, O>, mode: Mode, pool: seq<S>): W {
    if mode.useInitial && 0 <= k.idx < |pool| then k.g.load(pool[k.idx]) else k.zero
  }

  predicate Placed<W, S, T, O>(k: Job<W, S, T, O>, pool: array<S>, cache: array2<S>, out: array2<O>) {
    && k.idx < pool.Length && k.slot < cache.Length0 && k.column < out.Length0
    && |k.toks| <= out.Length1 && |k.toks| <= cache.Length1
  }

  /** For every token the state it starts from, one step, and the stores of the output and of the
      cached state; then the last state goes back to the pool. */
  method UpdateLoop<W, S, T, O>(k: Job<W, S, T, O>, mode: Mode, pool: array<S>, cache: array2<S>, out: array2<O>)
    requires JobOk(k, mode) && Placed(k, pool, cache, out) && cache as object != out as object
    requires Reloads(k.g, Initial(k, mode, pool[..]), k.toks, k.parents)
    modifies pool, cache, out
    ensures var g, toks, init := k.g, k.toks, Initial(k, mode, old(pool[..]));
      && (forall c, t {:trigger out[c, t]} :: 0 <= c < out.Length0 && 0 <= t < out.Length1 ==>
            out[c, t] == if c == k.column && mode.output && t < |toks| then g.read(State(g.step, init, toks, k.parents, t), toks[t])
                         else old(out[c, t]))
      && (forall c, t {:trigger cache[c, t]} :: 0 <= c < cache.Length0 && 0 <= t < cache.Length1 ==>
            cache[c, t] == if c == k.slot && t < |toks| then g.store(State(g.step, init, toks, k.parents, t)) else old(cache[c, t]))
      && (forall i :: 0 <= i < pool.Length ==>
            pool[i] == if i == k.idx && !mode.keepState then g.store(After(g.step, init, toks, k.parents, |toks|)) else old(pool[i]))
  {
    var g, toks := k.g, k.toks;
    var init := if mode.useInitial && k.idx >= 0 then g.load(pool[k.idx]) else k.zero;
    var h := init;
    for t := 0 to |toks|
      invariant h == After(g.step, init, toks, k.parents, t)
      invariant forall i :: 0 <= i < pool.Length ==> pool[i] == old(pool[i])
      invariant forall c, s {:trigger out[c, s]} :: 0 <= c < out.Length0 && 0 <= s < out.Length1 ==>
        out[c, s] == if c == k.column && mode.output && s < t then g.read(State(g.step, init, toks, k.parents, s), toks[s]) else old(out[c, s])
      invariant forall c, s {:trigger cache[c, s]} :: 0 <= c < cache.Length0 && 0 <= s < cache.Length1 ==>
        cache[c, s] == if c == k.slot && s < t then g.store(State(g.step, init, toks, k.parents, s)) else old(cache[c, s])
    {
      if mode.tree && t != 0 && k.slot >= 0 {
        PickLaneIs(k.lanes, t, |k.lanes|);
        var parent := PickLane(k.lanes, t, |k.lanes|);
        assert parent == Prev(k.parents, |toks|, t);
        h := g.load(cache[k.slot, parent]);
      }
      assert h == Before(g.step, init, toks, k.parents, t);
      h := g.step(h, toks[t]);
      if mode.output {
        out[k.column, t] := g.read(h, toks[t]);
      }
      if k.slot >= 0 {
        cache[k.slot, t] := g.store(h);
      }
    }
    if !mode.keepState && k.idx >= 0 {
      pool[k.idx] := g.store(h);
    }
  }

  /** Two programs share no place of the pool, the cache or the outputs. */
  predicate Apart<W, S, T, O>(a: Job<W, S, T, O>, b: Job<W, S, T, O>) {
    a.column != b.column && (a.idx < 0 || a.idx != b.idx) && (a.slot < 0 || a.slot != b.slot)
  }

  /** Places of the pool, the cache and the outputs that the first `n` programs do not write. */
  predicate FreePlace<W, S, T, O>(jobs: seq<Job<W, S, T, O>>, n: nat, mode: Mode, p: int)
    requires n <= |jobs|
  {
    mode.keepState || forall i {:trigger jobs[i]} :: 0 <= i < n ==> jobs[i].idx != p
  }

  predicate FreeCell<W, S, T, O>(jobs: seq<Job<W, S, T, O>>, n: nat, c: int, t: nat)
    requires n <= |jobs|
  {
    forall i {:trigger jobs[i]} :: 0 <= i < n ==> jobs[i].slot != c || |jobs[i].toks| <= t
  }

  predicate FreeOut<W, S, T, O>(jobs: seq<Job<W, S, T, O>>, n: nat, mode: Mode, c: int, t: nat)
    requires n <= |jobs|
  {
    !mode.output || forall i {:trigger jobs[i]} :: 0 <= i < n ==> jobs[i].column != c || |jobs[i].toks| <= t
  }

  /** Programs of one launch, one after another. What each leaves depends on its own tokens and its own
      place of the pool before the launch only, so it is the same in any order; every other place is as
      it was. */
  method RunAll<W, S, T, O>(jobs: seq<Job<W, S, T, O>>, mode: Mode, pool: array<S>, cache: array2<S>, out: array2<O>)
    requires cache as object != out as object
    requires forall i {:trigger jobs[i]} :: 0 <= i < |jobs| ==>
               && JobOk(jobs[i], mode) && Placed(jobs[i], pool, cache, out)
               && Reloads(jobs[i].g, Initial(jobs[i], mode, pool[..]), jobs[i].toks, jobs[i].parents)
    requires forall i, j {:trigger jobs[i], jobs[j]} :: 0 <= i < j < |jobs| ==> Apart(jobs[i], jobs[j])
    modifies pool, cache, out
    ensures forall i {:trigger jobs[i]} :: 0 <= i < |jobs| ==>
              Left(jobs[i], mode, Initial(jobs[i], mode, old(pool[..])), pool, cache, out)
    ensures forall p {:trigger pool[p]} :: 0 <= p < pool.Length && FreePlace(jobs, |jobs|, mode, p) ==> pool[p] == old(pool[p])
    ensures forall c, t {:trigger cache[c, t]} ::
      0 <= c < cache.Length0 && 0 <= t < cache.Length1 && FreeCell(jobs, |jobs|, c, t) ==> cache[c, t] == old(cache[c, t])
    ensures forall c, t {:trigger out[c, t]} ::
      0 <= c < out.Length0 && 0 <= t < out.Length1 && FreeOut(jobs, |jobs|, mode, c, t) ==> out[c, t] == old(out[c, t])
  {
    for n := 0 to |jobs|
      invariant forall i {:trigger jobs[i]} :: 0 <= i < n ==>
        Left(jobs[i], mode, Initial(jobs[i], mode, old(pool[..])), pool, cache, out)
      invariant forall p {:trigger pool[p]} :: 0 <= p < pool.Length && FreePlace(jobs, n, mode, p) ==> pool[p] == old(pool[p])
      invariant forall c, t {:trigger cache[c, t]} ::
        0 <= c < cache.Length0 && 0 <= t < cache.Length1 && FreeCell(jobs, n, c, t) ==> cache[c, t] == old(cache[c, t])
      invariant forall c, t {:trigger out[c, t]} ::
        0 <= c < out.Length0 && 0 <= t < out.Length1 && FreeOut(jobs, n, mode, c, t) ==> out[c, t] == old(out[c, t])
    {
      assert Initial(jobs[n], mode, pool[..]) == Initial(jobs[n], mode, old(pool[..])) by {
        if 0 <= jobs[n].idx {
          forall i | 0 <= i < n
            ensures jobs[i].idx != jobs[n].idx
          {
            assert Apart(jobs[i], jobs[n]);
          }
          assert FreePlace(jobs, n, mode, jobs[n].idx);
        }
      }
      UpdateLoop(jobs[n], mode, pool, cache, out);
      forall i | 0 <= i < n
        ensures Left(jobs[i], mode, Initial(jobs[i], mode, old(pool[..])), pool, cache, out)
      {
        assert Apart(jobs[i], jobs[n]);
      }
    }
  }

  /** What a program leaves, from the state it starts with. */
  ghost predicate Left<W, S, T, O>(k: Job<W, S, T, O>, mode: Mode, init: W, pool: array<S>, cache: array2<S>, out: array2<O>)
    requires JobOk(k, mode) && Placed(k, pool, cache, out)
    reads pool, cache, out
  {
    && (mode.output ==> forall t {:trigger out[k.column, t]} :: 0 <= t < |k.toks| ==>
          out[k.column, t] == k.g.read(State(k.g.step, init, k.toks, k.parents, t), k.toks[t]))
    && (k.slot >= 0 ==> forall t {:trigger cache[k.slot, t]} :: 0 <= t < |k.toks| ==>
          cache[k.slot, t] == k.g.store(State(k.g.step, init, k.toks, k.parents, t)))
    && (k.idx >= 0 && !mode.keepState ==> pool[k.idx] == k.g.store(After(k.g.step, init, k.toks, k.parents, |k.toks|)))
  }

  /** The plain kernel: the same steps from the initial state, one token after another. */
  method ForwardLoop<W, S, T, O>(g: Program<W, S, T, O>, init: W, toks: seq<T>, out: array<O>) returns (final: S)
    requires |toks| <= out.Length
    modifies out
    ensures forall t {:trigger out[t]} :: 0 <= t < out.Length ==>
              out[t] == if t < |toks| then g.read(Sequential(g.step, init, toks, t + 1), toks[t]) else old(out[t])
    ensures final == g.store(Sequential(g.step, init, toks, |toks|))
  {
    var h := init;
    for t := 0 to |toks|
      invariant h == Sequential(g.step, init, toks, t)
      invariant forall s {:trigger out[s]} :: 0 <= s < out.Length ==>
        out[s] == if s < t then g.read(Sequential(g.step, init, toks, s + 1), toks[s]) else old(out[s])
    {
      h := g.step(h, toks[t]);
      out[t] := g.read(h, toks[t]);
    }
    final := g.store(h);
  }
}
