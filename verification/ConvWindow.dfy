/** Convolution windows of draft tokens in one shared row of columns.

    The window of step `t` is the columns `t` up to `t + width` of a shared buffer, so the windows of
    neighbouring steps overlap. They can be read back exactly if every overlap holds the same value,
    which is so for a chain of drafts and, where all inputs differ, for nothing else. */
module ConvWindow {
  import Grid
  import opened Collections
  import opened Options
  import opened TreeFold

  // ---------------------------------------------------------------------------------------------
  // Addresses
  // ---------------------------------------------------------------------------------------------

  /** Layers, slots, channels, draft steps, and the width of a window. */
  datatype Layout = Layout(layers: nat, slots: nat, dims: nat, steps: nat, width: nat)

  /** The columns that all windows of a channel share. */
  function Shared(g: Layout): nat
    requires g.steps > 0
  {
    g.steps + g.width - 1
  }

  function Lines(g: Layout): nat {
    Grid.Area(g.dims, Grid.Area(g.slots, g.layers))
  }

  function Total(g: Layout): nat
    requires g.steps > 0
  {
    Grid.Area(Shared(g), Lines(g))
  }

  predicate InBuffer(g: Layout, l: nat, s: nat, d: nat) {
    l < g.layers && s < g.slots && d < g.dims
  }

  /** The row of columns of a channel of a slot. */
  function Line(g: Layout, l: nat, s: nat, d: nat): (line: nat)
    requires InBuffer(g, l, s, d)
    ensures line < Lines(g)
  {
    Grid.Cell(g.dims, Grid.Cell(g.slots, l, s, g.layers), d, Grid.Area(g.slots, g.layers))
  }

  /** Where column `c` of a channel is. */
  function Address(g: Layout, l: nat, s: nat, d: nat, c: nat): (p: nat)
    requires g.steps > 0 && InBuffer(g, l, s, d) && c < Shared(g)
    ensures p < Total(g)
  {
    Grid.Cell(Shared(g), Line(g, l, s, d), c, Lines(g))
  }

  /** Where the view's strides lead: the step and the place in the window move along the columns. */
  function ViewAddress(g: Layout, l: nat, s: nat, step: nat, d: nat, w: nat): nat
    requires g.steps > 0
  {
    var stride2 := Shared(g);
    var stride1 := Grid.Area(stride2, g.dims);
    var stride0 := Grid.Area(stride1, g.slots);
    Grid.Area(stride0, l) + Grid.Area(stride1, s) + step + Grid.Area(stride2, d) + w
  }

  /** Every access through the view stays in the buffer, and lands on the column step plus place. */
  lemma ViewInBounds(g: Layout, l: nat, s: nat, step: nat, d: nat, w: nat)
    requires InBuffer(g, l, s, d) && step < g.steps && w < g.width
    ensures step + w < Shared(g) && ViewAddress(g, l, s, step, d, w) == Address(g, l, s, d, step + w) < Total(g)
  {
    var row := Grid.Area(g.slots, l) + s;
    Grid.AreaAdds(Shared(g), Grid.Area(g.dims, row), d);
    Grid.AreaNests(Shared(g), g.dims, row);
    Grid.AreaAdds(Grid.Area(Shared(g), g.dims), Grid.Area(g.slots, l), s);
    Grid.AreaNests(Grid.Area(Shared(g), g.dims), g.slots, l);
  }

  predicate InWindow(g: Layout, step: nat, c: nat) {
    step < g.steps && step <= c < step + g.width
  }

  /** The shared columns are those of the windows, no more and no fewer. */
  lemma SharedExactly(g: Layout, c: nat)
    requires g.steps > 0 && g.width > 0
    ensures c < Shared(g) <==> exists step: nat :: InWindow(g, step, c)
  {
    if c < Shared(g) {
      assert InWindow(g, if c < g.steps then c else g.steps - 1, c);
    }
  }

  /** Two columns of the buffer are the same cell only if they are the same column of one channel. */
  lemma AddressUnique(g: Layout, l: nat, s: nat, d: nat, c: nat, l': nat, s': nat, d': nat, c': nat)
    requires g.steps > 0 && InBuffer(g, l, s, d) && InBuffer(g, l', s', d') && c < Shared(g) && c' < Shared(g)
    requires Address(g, l, s, d, c) == Address(g, l', s', d', c')
    ensures l == l' && s == s' && d == d' && c == c'
  {
    Grid.CellUnique(Shared(g), Line(g, l, s, d), c, Line(g, l', s', d'), c');
    Grid.CellUnique(g.dims, Grid.Cell(g.slots, l, s, g.layers), d, Grid.Cell(g.slots, l', s', g.layers), d');
    Grid.CellUnique(g.slots, l, s, l', s');
  }

  // ---------------------------------------------------------------------------------------------
  // Storing and reading windows
  // ---------------------------------------------------------------------------------------------

  /** What step `t` wants to keep at place `w` of channel `d`. */
  type Windows = (nat, nat, nat) -> real

  /** Where two windows overlap they hold the same. */
  ghost predicate Consistent(g: Layout, win: Windows) {
    forall t: nat, t': nat, d: nat, w: nat, w': nat {:trigger win(t, d, w), win(t', d, w')} ::
      t < g.steps && t' < g.steps && d < g.dims && w < g.width && w' < g.width && t + w == t' + w' ==>
        win(t, d, w) == win(t', d, w')
  }

  /** The window of a step is in the buffer. */
  ghost predicate Holds(g: Layout, l: nat, s: nat, win: Windows, buf: seq<real>, t: nat)
    requires g.steps > 0 && l < g.layers && s < g.slots && |buf| == Total(g) && t < g.steps
  {
    forall d: nat, w: nat {:trigger win(t, d, w)} :: d < g.dims && w < g.width ==>
      buf[Address(g, l, s, d, t + w)] == win(t, d, w)
  }

  /** Every step reads its own window back. */
  ghost predicate ReadsBack(g: Layout, l: nat, s: nat, win: Windows, buf: seq<real>)
    requires g.steps > 0 && l < g.layers && s < g.slots && |buf| == Total(g)
  {
    forall t: nat {:trigger Holds(g, l, s, win, buf, t)} :: t < g.steps ==> Holds(g, l, s, win, buf, t)
  }

  /** What one store leaves: the window at its step, all else as it was. */
  ghost predicate StoredWindow(g: Layout, l: nat, s: nat, win: Windows, t: nat, was: seq<real>, now: seq<real>)
    requires g.steps > 0 && l < g.layers && s < g.slots && |was| == |now| == Total(g) && t < g.steps
  {
    && Holds(g, l, s, win, now, t)
    && forall l': nat, s': nat, d: nat, c: nat {:trigger Address(g, l', s', d, c)} ::
      InBuffer(g, l', s', d) && c < Shared(g) && !(l' == l && s' == s && t <= c < t + g.width) ==>
         now[Address(g, l', s', d, c)] == was[Address(g, l', s', d, c)]
  }

  /** All columns but those of one window of one channel are as they were. */
  ghost predicate OthersKept(g: Layout, l: nat, s: nat, d: nat, t: nat, width: nat, was: seq<real>, now: seq<real>)
    requires g.steps > 0 && |was| == |now| == Total(g)
  {
    forall l': nat, s': nat, d': nat, c: nat {:trigger Address(g, l', s', d', c)} ::
      InBuffer(g, l', s', d') && c < Shared(g) && !(l' == l && s' == s && d' == d && t <= c < t + width) ==>
        now[Address(g, l', s', d', c)] == was[Address(g, l', s', d', c)]
  }

  /** Stores the window of one step in one channel, through the view. */
  method StoreChannel(g: Layout, l: nat, s: nat, d: nat, win: Windows, t: nat, buf: array<real>)
    requires InBuffer(g, l, s, d) && t < g.steps && buf.Length == Total(g)
    modifies buf
    ensures forall w: nat {:trigger win(t, d, w)} :: w < g.width ==> buf[Address(g, l, s, d, t + w)] == win(t, d, w)
    ensures OthersKept(g, l, s, d, t, g.width, old(buf[..]), buf[..])
  {
    for w := 0 to g.width
      invariant forall w': nat {:trigger win(t, d, w')} :: w' < w ==> buf[Address(g, l, s, d, t + w')] == win(t, d, w')
      invariant OthersKept(g, l, s, d, t, w, old(buf[..]), buf[..])
    {
      ViewInBounds(g, l, s, t, d, w);
      ghost var now := buf[..];
      buf[ViewAddress(g, l, s, t, d, w)] := win(t, d, w);
      OneCell(g, l, s, d, t + w, now, buf[..]);
    }
  }

  /** Stores the window of one step through the view. */
  method StoreWindow(g: Layout, l: nat, s: nat, win: Windows, t: nat, buf: array<real>)
    requires l < g.layers && s < g.slots && t < g.steps && buf.Length == Total(g)
    modifies buf
    ensures StoredWindow(g, l, s, win, t, old(buf[..]), buf[..])
  {
    ghost var was := buf[..];
    for d := 0 to g.dims
      invariant forall d': nat, w: nat {:trigger win(t, d', w)} ::
        d' < d && w < g.width ==> buf[Address(g, l, s, d', t + w)] == win(t, d', w)
      invariant forall l': nat, s': nat, d': nat, c: nat {:trigger Address(g, l', s', d', c)} ::
        InBuffer(g, l', s', d') && c < Shared(g) && !(l' == l && s' == s && d' < d && t <= c < t + g.width) ==>
        buf[Address(g, l', s', d', c)] == was[Address(g, l', s', d', c)]
    {
      StoreChannel(g, l, s, d, win, t, buf);
    }
  }

  /** Writing one cell changes one column of one channel. */
  lemma OneCell(g: Layout, l: nat, s: nat, d: nat, c: nat, was: seq<real>, now: seq<real>)
    requires g.steps > 0 && InBuffer(g, l, s, d) && c < Shared(g) && |was| == |now| == Total(g)
    requires forall p :: 0 <= p < |was| && p != Address(g, l, s, d, c) ==> now[p] == was[p]
    ensures forall l': nat, s': nat, d': nat, c': nat {:trigger Address(g, l', s', d', c')} ::
      InBuffer(g, l', s', d') && c' < Shared(g) && (l' != l || s' != s || d' != d || c' != c) ==>
              now[Address(g, l', s', d', c')] == was[Address(g, l', s', d', c')]
  {
    forall l': nat, s': nat, d': nat, c': nat | InBuffer(g, l', s', d') && c' < Shared(g) && (l' != l || s' != s || d' != d || c' != c)
      ensures now[Address(g, l', s', d', c')] == was[Address(g, l', s', d', c')]
    {
      if Address(g, l', s', d', c') == Address(g, l, s, d, c) {
        AddressUnique(g, l', s', d', c', l, s, d, c);
      }
    }
  }

  /** The windows of the listed steps are in the buffer. */
  ghost predicate HoldsAll(g: Layout, l: nat, s: nat, win: Windows, buf: seq<real>, done: seq<nat>)
    requires g.steps > 0 && l < g.layers && s < g.slots && |buf| == Total(g)
  {
    forall t {:trigger t in done} :: t in done ==> t < g.steps && Holds(g, l, s, win, buf, t)
  }

  /** A store leaves the windows of other steps as they were, where overlaps agree. */
  lemma KeepsOthers(g: Layout, l: nat, s: nat, win: Windows, t: nat, was: seq<real>, now: seq<real>, u: nat)
    requires g.steps > 0 && l < g.layers && s < g.slots && |was| == |now| == Total(g) && t < g.steps && u < g.steps
    requires Consistent(g, win) && StoredWindow(g, l, s, win, t, was, now) && Holds(g, l, s, win, was, u)
    ensures Holds(g, l, s, win, now, u)
  {
    forall d: nat, w: nat | d < g.dims && w < g.width
      ensures now[Address(g, l, s, d, u + w)] == win(u, d, w)
    {
      if t <= u + w < t + g.width {
        assert now[Address(g, l, s, d, u + w)] == win(t, d, u + w - t) == win(u, d, w);
      } else {
        assert now[Address(g, l, s, d, u + w)] == was[Address(g, l, s, d, u + w)];
      }
    }
  }

  /** Windows that can all be read back at once agree where they overlap. */
  lemma ReadBackAgrees(g: Layout, l: nat, s: nat, win: Windows, buf: seq<real>)
    requires g.steps > 0 && l < g.layers && s < g.slots && |buf| == Total(g)
    requires ReadsBack(g, l, s, win, buf)
    ensures Consistent(g, win)
  {
    forall t: nat, t': nat, d: nat, w: nat, w': nat {:trigger win(t, d, w), win(t', d, w')} |
      t < g.steps && t' < g.steps && d < g.dims && w < g.width && w' < g.width && t + w == t' + w'
      ensures win(t, d, w) == win(t', d, w')
    {
      assert Holds(g, l, s, win, buf, t) && Holds(g, l, s, win, buf, t');
      assert buf[Address(g, l, s, d, t + w)] == win(t, d, w);
    }
  }

  /** Stores the windows of all steps of a slot in some order. Afterwards every step reads its own
      window back exactly if the windows agree where they overlap; no other slot has changed. */
  method StoreAll(g: Layout, l: nat, s: nat, win: Windows, order: seq<nat>, buf: array<real>)
    requires g.steps > 0 && l < g.layers && s < g.slots && buf.Length == Total(g)
    requires forall t: nat :: t in order <==> t < g.steps
    modifies buf
    ensures ReadsBack(g, l, s, win, buf[..]) <==> Consistent(g, win)
    ensures forall l': nat, s': nat, d: nat, c: nat {:trigger Address(g, l', s', d, c)} ::
      InBuffer(g, l', s', d) && c < Shared(g) && (l' != l || s' != s) ==>
              buf[Address(g, l', s', d, c)] == old(buf[Address(g, l', s', d, c)])
  {
    for i := 0 to |order|
      invariant Consistent(g, win) ==> HoldsAll(g, l, s, win, buf[..], order[..i])
      invariant forall l': nat, s': nat, d: nat, c: nat {:trigger Address(g, l', s', d, c)} ::
        InBuffer(g, l', s', d) && c < Shared(g) && (l' != l || s' != s) ==>
        buf[Address(g, l', s', d, c)] == old(buf[Address(g, l', s', d, c)])
    {
      ghost var was := buf[..];
      assert order[i] in order;
      StoreWindow(g, l, s, win, order[i], buf);
      if Consistent(g, win) {
        forall u | u in order[..i]
          ensures Holds(g, l, s, win, buf[..], u)
        {
          KeepsOthers(g, l, s, win, order[i], was, buf[..], u);
        }
      }
      assert order[..i + 1] == order[..i] + [order[i]];
    }
    assert order[..|order|] == order;
    if Consistent(g, win) {
      forall t: nat | t < g.steps
        ensures Holds(g, l, s, win, buf[..], t)
      {
        assert t in order;
      }
    } else if ReadsBack(g, l, s, win, buf[..]) {
      ReadBackAgrees(g, l, s, win, buf[..]);
    }
  }

  // ---------------------------------------------------------------------------------------------
  // Chains and trees
  // ---------------------------------------------------------------------------------------------

  /** Draft tokens with an input for every channel, one for every step of the layout. */
  predicate DraftsOk(g: Layout, parents: Option<seq<nat>>, toks: seq<seq<real>>) {
    ParentsFirst(parents, |toks|) && g.steps == |toks| > 0 && forall t :: 0 <= t < |toks| ==> |toks[t]| == g.dims
  }

  /** The input of a channel `back` steps before a draft token on its way from the root, and before the
      root the inputs that came earlier. */
  function Input(g: Layout, parents: Option<seq<nat>>, toks: seq<seq<real>>, earlier: (nat, nat) -> real, d: nat, t: nat, back: nat): real
    requires DraftsOk(g, parents, toks) && d < g.dims && t < |toks|
    decreases back
  {
    if back == 0 then toks[t][d]
    else if t == 0 then earlier(d, back - 1)
    else Input(g, parents, toks, earlier, d, Prev(parents, |toks|, t), back - 1)
  }

  /** The windows of the draft tokens: the inputs of a token and of those before it on its way. */
  function WindowsOf(g: Layout, parents: Option<seq<nat>>, toks: seq<seq<real>>, earlier: (nat, nat) -> real): Windows
    requires DraftsOk(g, parents, toks)
  {
    (t: nat, d: nat, w: nat) =>
      if t < g.steps && d < g.dims && w < g.width then Input(g, parents, toks, earlier, d, t, g.width - 1 - w) else 0.0
  }

  predicate IsChain(parents: Option<seq<nat>>, n: nat)
    requires ParentsFirst(parents, n)
  {
    forall t :: 0 < t < n ==> Prev(parents, n, t) == t - 1
  }

  /** On a chain an input depends only on how far it is from the start. */
  lemma {:induction false} ChainInput(g: Layout, parents: Option<seq<nat>>, toks: seq<seq<real>>, earlier: (nat, nat) -> real,
                                      d: nat, t: nat, back: nat)
    requires DraftsOk(g, parents, toks) && IsChain(parents, |toks|) && d < g.dims && t < |toks|
    ensures Input(g, parents, toks, earlier, d, t, back) == if back <= t then toks[t - back][d] else earlier(d, back - t - 1)
    decreases back
  {
    if back > 0 && t > 0 {
      ChainInput(g, parents, toks, earlier, d, t - 1, back - 1);
    }
  }

  /** The windows of a chain agree where they overlap, in every channel. */
  lemma ChainConsistent(g: Layout, parents: Option<seq<nat>>, toks: seq<seq<real>>, earlier: (nat, nat) -> real)
    requires DraftsOk(g, parents, toks) && IsChain(parents, |toks|)
    ensures Consistent(g, WindowsOf(g, parents, toks, earlier))
  {
    var win := WindowsOf(g, parents, toks, earlier);
    forall t: nat, t': nat, d: nat, w: nat, w': nat {:trigger win(t, d, w), win(t', d, w')} |
      t < g.steps && t' < g.steps && d < g.dims && w < g.width && w' < g.width && t + w == t' + w'
      ensures win(t, d, w) == win(t', d, w')
    {
      ChainInput(g, parents, toks, earlier, d, t, g.width - 1 - w);
      ChainInput(g, parents, toks, earlier, d, t', g.width - 1 - w');
    }
  }

  /** With two places or more in a window and a channel in which all drafts differ, the windows agree
      only on a chain: a branch needs two values in one cell. */
  lemma OnlyChainsConsistent(g: Layout, parents: Option<seq<nat>>, toks: seq<seq<real>>, earlier: (nat, nat) -> real, d: nat)
    requires DraftsOk(g, parents, toks) && d < g.dims && g.width >= 2
    requires forall t, u :: 0 <= t < u < |toks| ==> toks[t][d] != toks[u][d]
    ensures Consistent(g, WindowsOf(g, parents, toks, earlier)) <==> IsChain(parents, |toks|)
  {
    var win := WindowsOf(g, parents, toks, earlier);
    if IsChain(parents, |toks|) {
      ChainConsistent(g, parents, toks, earlier);
    } else {
      var t :| 0 < t < |toks| && Prev(parents, |toks|, t) != t - 1;
      assert win(t, d, g.width - 2) == Input(g, parents, toks, earlier, d, t, 1) == toks[Prev(parents, |toks|, t)][d];
      assert Input(g, parents, toks, earlier, d, t - 1, 0) == toks[t - 1][d];
      assert win(t - 1, d, g.width - 1) == toks[t - 1][d];
    }
  }

  // ---------------------------------------------------------------------------------------------
  // When the shared layout is used
  // ---------------------------------------------------------------------------------------------

  /** Whether the shared layout is used. */
  predicate DedupEnabled(isNpu: bool, isCpu: bool, topk: Option<int>) {
    !isNpu && !isCpu && (topk == None || topk.value <= 1)
  }

  function Children(parents: Option<seq<nat>>, n: nat, s: nat): set<nat>
    requires ParentsFirst(parents, n)
  {
    set t: nat | 0 < t < n && Prev(parents, n, t) == s
  }

  /** A token is followed by as many as `topk` alternatives; without one, by at most one token. */
  predicate Narrow(parents: Option<seq<nat>>, n: nat, topk: Option<int>)
    requires ParentsFirst(parents, n)
  {
    forall s: nat :: s < n ==> |Children(parents, n, s)| <= if topk == None then 1 else topk.value
  }

  /** Where no two tokens follow the same one, every token follows the one before it. */
  lemma {:induction false} FollowsLast(parents: Option<seq<nat>>, n: nat, t: nat)
    requires ParentsFirst(parents, n) && 0 < t < n
    requires forall u, v :: 0 < u < v < n ==> Prev(parents, n, u) != Prev(parents, n, v)
    ensures Prev(parents, n, t) == t - 1
  {
    var s := Prev(parents, n, t);
    if s < t - 1 {
      FollowsLast(parents, n, s + 1);
    }
  }

  /** With parents first, a tree in which nothing branches is a chain. */
  lemma NarrowIsChain(parents: Option<seq<nat>>, n: nat)
    requires ParentsFirst(parents, n)
    ensures Narrow(parents, n, Some(1)) <==> IsChain(parents, n)
  {
    if Narrow(parents, n, Some(1)) {
      forall u: nat, v: nat | 0 < u < v < n
        ensures Prev(parents, n, u) != Prev(parents, n, v)
      {
        if Prev(parents, n, u) == Prev(parents, n, v) {
          SubsetCount({u, v}, Children(parents, n, Prev(parents, n, u)));
        }
      }
      forall t | 0 < t < n
        ensures Prev(parents, n, t) == t - 1
      {
        FollowsLast(parents, n, t);
      }
    }
    if IsChain(parents, n) {
      forall s: nat | s < n
        ensures |Children(parents, n, s)| <= 1
      {
        SubsetCount(Children(parents, n, s), {s + 1});
      }
    }
  }

  /** Whatever drafts come in a tree that `topk` allows, the shared layout can hold their windows. */
  ghost predicate AlwaysConsistent(topk: Option<int>) {
    forall g, parents, toks, earlier {:trigger WindowsOf(g, parents, toks, earlier)} ::
      DraftsOk(g, parents, toks) && Narrow(parents, |toks|, topk) ==> Consistent(g, WindowsOf(g, parents, toks, earlier))
  }

  /** A root with two tokens behind it: the second one needs the root's input where the first has its own. */
  lemma BranchBreaks(topk: int)
    requires topk >= 2
    ensures !AlwaysConsistent(Some(topk))
  {
    var g, parents, toks := Layout(1, 1, 1, 3, 2), Some([0, 0, 0]), [[0.0], [1.0], [2.0]];
    var earlier: (nat, nat) -> real := (d, back) => 0.0;
    assert Children(parents, 3, 0) == {1, 2} && Children(parents, 3, 1) == Children(parents, 3, 2) == {};
    assert Narrow(parents, 3, Some(topk));
    assert Prev(parents, 3, 2) == 0;
    OnlyChainsConsistent(g, parents, toks, earlier, 0);
  }

  /** The guard is exact: away from the two devices that never share, the shared layout is used if and
      only if it can hold the windows of all drafts. */
  lemma DedupExactly(topk: Option<int>)
    ensures DedupEnabled(false, false, topk) <==> AlwaysConsistent(topk)
  {
    if topk == None || topk.value <= 1 {
      forall g, parents, toks, earlier | DraftsOk(g, parents, toks) && Narrow(parents, |toks|, topk)
        ensures Consistent(g, WindowsOf(g, parents, toks, earlier))
      {
        assert Narrow(parents, |toks|, Some(1));
        NarrowIsChain(parents, |toks|);
        ChainConsistent(g, parents, toks, earlier);
      }
    } else {
      BranchBreaks(topk.value);
    }
  }
}
