/** Reductions over a row by the lanes of a work-group, and int8 quantisation of the row. The lanes take
    the columns in strides; what they find together is what one pass over the row finds, for any number
    of lanes. */
module RowReductions {
  import Grid

  // ---------------------------------------------------------------------------------------------
  // Strides
  // ---------------------------------------------------------------------------------------------

  /** A lane visits every column that is its own number further on, by whole turns of all lanes. */
  predicate Visits(lane: nat, lanes: nat, col: nat)
    requires lanes > 0
  {
    Grid.Col(lanes, col) == lane
  }

  /** Every column is visited by one lane, in one turn. */
  lemma StrideCovers(lanes: nat, col: nat, lane: nat, turn: nat)
    requires lanes > 0 && lane < lanes
    ensures col == Grid.Area(lanes, turn) + lane <==> lane == Grid.Col(lanes, col) && turn == Grid.Row(lanes, col)
  {
    Grid.RowAndCol(lanes, col);
    if col == Grid.Area(lanes, turn) + lane {
      Grid.RowOfCell(lanes, turn, lane);
    }
  }

  /** Between two turns a lane visits nothing. */
  lemma NothingBetween(lanes: nat, lane: nat, turn: nat, col: nat)
    requires lanes > 0 && lane < lanes && Visits(lane, lanes, col)
    ensures col < Grid.Area(lanes, turn + 1) + lane ==> col <= Grid.Area(lanes, turn) + lane
  {
    Grid.RowAndCol(lanes, col);
    if Grid.Row(lanes, col) > turn {
      Grid.AreaGrows(lanes, turn + 1, Grid.Row(lanes, col));
    } else {
      Grid.AreaGrows(lanes, Grid.Row(lanes, col), turn);
    }
  }

  // ---------------------------------------------------------------------------------------------
  // Top 1
  // ---------------------------------------------------------------------------------------------

  /** A logit, which may be minus infinity. */
  datatype Logit = NegInf | Fin(value: real)

  predicate Less(a: Logit, b: Logit) {
    match b
    case NegInf => false
    case Fin(y) => a.NegInf? || a.value < y
  }

  /** Among some columns, the greatest logit and the first column that has it; without columns, minus
      infinity and the width. */
  ghost predicate Best(row: seq<Logit>, among: int -> bool, value: Logit, index: nat) {
    && (forall c {:trigger row[c]} :: 0 <= c < |row| && among(c) ==> !Less(value, row[c]))
    && (if index < |row| then among(index) && row[index] == value else index == |row| && value == NegInf)
    && (forall c {:trigger row[c]} :: 0 <= c < index && c < |row| && among(c) ==> row[c] != value)
  }

  /** One lane's pass. */
  method LaneTop(row: seq<Logit>, lane: nat, lanes: nat) returns (value: Logit, index: nat)
    requires lane < lanes
    ensures Best(row, c => c >= 0 && Visits(lane, lanes, c), value, index)
  {
    value, index := NegInf, |row|;
    var col := lane;
    ghost var turn := 0;
    while col < |row|
      invariant col == Grid.Area(lanes, turn) + lane
      invariant Best(row, c => 0 <= c < col && Visits(lane, lanes, c), value, index)
      decreases |row| - col
    {
      StrideCovers(lanes, col, lane, turn);
      if Less(value, row[col]) || (row[col] == value && col < index) {
        value, index := row[col], col;
      }
      forall c: nat | c < |row| && Visits(lane, lanes, c)
        ensures c < col + lanes ==> c <= col
      {
        NothingBetween(lanes, lane, turn, c);
      }
      col, turn := col + lanes, turn + 1;
    }
  }

  /** The greatest of the lanes' values. */
  method GroupMax(values: seq<Logit>) returns (m: Logit)
    requires values != []
    ensures m in values && forall l :: 0 <= l < |values| ==> !Less(m, values[l])
  {
    m := values[0];
    for l := 1 to |values|
      invariant m in values && forall i :: 0 <= i < l ==> !Less(m, values[i])
    {
      if Less(m, values[l]) {
        m := values[l];
      }
    }
  }

  method GroupMin(values: seq<nat>) returns (m: nat)
    requires values != []
    ensures m in values && forall l :: 0 <= l < |values| ==> m <= values[l]
  {
    m := values[0];
    for l := 1 to |values|
      invariant m in values && forall i :: 0 <= i < l ==> m <= values[i]
    {
      if values[l] < m {
        m := values[l];
      }
    }
  }

  /** The greatest logit of a row and the first column that has it, by any number of lanes. */
  method Top1(row: seq<Logit>, lanes: nat) returns (value: Logit, index: nat)
    requires lanes > 0
    ensures Best(row, c => true, value, index)
  {
    var values: seq<Logit>, indices: seq<nat> := [], [];
    for l := 0 to lanes
      invariant |values| == |indices| == l
      invariant forall k {:trigger values[k]} {:trigger indices[k]} :: 0 <= k < l ==>
        Best(row, c => c >= 0 && Visits(k, lanes, c), values[k], indices[k])
    {
      var v, i := LaneTop(row, l, lanes);
      values, indices := values + [v], indices + [i];
    }
    value := GroupMax(values);
    var firsts := seq(lanes, l requires 0 <= l < lanes => if values[l] == value then indices[l] else |row|);
    index := GroupMin(firsts);
    forall l {:trigger indices[l]} | 0 <= l < lanes && values[l] == value
      ensures index <= indices[l]
    {
      assert firsts[l] == indices[l];
    }
    Combine(row, lanes, values, indices, value, index);
  }

  /** Every column belongs to a lane whose best is no better than the group's. */
  lemma Combine(row: seq<Logit>, lanes: nat, values: seq<Logit>, indices: seq<nat>, value: Logit, index: nat)
    requires lanes > 0 && |values| == |indices| == lanes
    requires forall k {:trigger values[k]} {:trigger indices[k]} :: 0 <= k < lanes ==>
               Best(row, c => c >= 0 && Visits(k, lanes, c), values[k], indices[k])
    requires value in values && forall l :: 0 <= l < lanes ==> !Less(value, values[l])
    requires exists l :: 0 <= l < lanes && index == if values[l] == value then indices[l] else |row|
    requires forall l {:trigger indices[l]} :: 0 <= l < lanes && values[l] == value ==> index <= indices[l]
    requires index <= |row|
    ensures Best(row, c => true, value, index)
  {
    forall c | 0 <= c < |row|
      ensures !Less(value, row[c]) && (c < index ==> row[c] != value)
    {
      var k := Grid.Col(lanes, c);
      assert Visits(k, lanes, c) && !Less(values[k], row[c]);
    }
    if index == |row| {
      var l :| 0 <= l < lanes && values[l] == value;
      assert indices[l] == |row|;
    }
  }

  // ---------------------------------------------------------------------------------------------
  // The greatest magnitude
  // ---------------------------------------------------------------------------------------------

  function Abs(x: real): real {
    if x < 0.0 then -x else x
  }

  function Max(a: real, b: real): real {
    if a < b then b else a
  }

  /** The greatest magnitude in a row, by one pass. */
  function AbsMax(row: seq<real>, n: nat): (m: real)
    requires n <= |row|
    ensures m >= 0.0
  {
    if n == 0 then 0.0 else Max(AbsMax(row, n - 1), Abs(row[n - 1]))
  }

  /** A bound on the magnitudes of some columns that one of them reaches, or zero. */
  ghost predicate Peak(row: seq<real>, among: int -> bool, m: real) {
    && m >= 0.0
    && (forall c {:trigger row[c]} :: 0 <= c < |row| && among(c) ==> Abs(row[c]) <= m)
    && (m == 0.0 || exists c {:trigger row[c]} :: 0 <= c < |row| && among(c) && Abs(row[c]) == m)
  }

  lemma {:induction false} AbsMaxIsPeak(row: seq<real>, n: nat)
    requires n <= |row|
    ensures Peak(row, c => 0 <= c < n, AbsMax(row, n))
  {
    if n > 0 {
      AbsMaxIsPeak(row, n - 1);
      if AbsMax(row, n) != AbsMax(row, n - 1) {
        assert Abs(row[n - 1]) == AbsMax(row, n);
      } else if AbsMax(row, n) != 0.0 {
        var c :| 0 <= c < n - 1 && Abs(row[c]) == AbsMax(row, n - 1);
        assert row[c] == row[c];
      }
    }
  }

  /** There is only one such bound. */
  lemma PeakUnique(row: seq<real>, among: int -> bool, m: real, m': real)
    requires Peak(row, among, m) && Peak(row, among, m')
    ensures m == m'
  {
  }

  /** One lane's pass. */
  method LaneMax(row: seq<real>, lane: nat, lanes: nat) returns (m: real)
    requires lane < lanes
    ensures Peak(row, c => c >= 0 && Visits(lane, lanes, c), m)
  {
    m := 0.0;
    var col := lane;
    ghost var turn := 0;
    while col < |row|
      invariant col == Grid.Area(lanes, turn) + lane
      invariant Peak(row, c => 0 <= c < col && Visits(lane, lanes, c), m)
      decreases |row| - col
    {
      StrideCovers(lanes, col, lane, turn);
      m := Max(m, Abs(row[col]));
      forall c: nat | c < |row| && Visits(lane, lanes, c)
        ensures c < col + lanes ==> c <= col
      {
        NothingBetween(lanes, lane, turn, c);
      }
      col, turn := col + lanes, turn + 1;
    }
  }

  // ---------------------------------------------------------------------------------------------
  // The tree
  // ---------------------------------------------------------------------------------------------

  /** Threads of one round, each once, in any order. */
  ghost predicate Schedule(order: seq<nat>, n: nat) {
    && (forall t: nat :: t in order <==> t < n)
    && forall i, j :: 0 <= i < j < |order| ==> order[i] != order[j]
  }

  /** One round between two barriers: the lower half takes the maximum with the upper. No thread writes
      what another reads, so the order does not matter. */
  method Round(local: array<real>, stride: nat, order: seq<nat>)
    requires 2 * stride <= local.Length && Schedule(order, stride)
    modifies local
    ensures forall i {:trigger local[i]} :: 0 <= i < local.Length ==>
              local[i] == if i < stride then Max(old(local[i]), old(local[i + stride])) else old(local[i])
  {
    for k := 0 to |order|
      invariant forall i {:trigger local[i]} :: 0 <= i < local.Length ==>
        local[i] == if i < stride && i in order[..k] then Max(old(local[i]), old(local[i + stride])) else old(local[i])
    {
      var id := order[k];
      assert id in order && order[..k + 1] == order[..k] + [id];
      assert id !in order[..k];
      local[id] := Max(local[id], local[id + stride]);
    }
    assert order[..|order|] == order;
  }

  function Power(k: nat): (p: nat)
    ensures p > 0
  {
    if k == 0 then 1 else 2 * Power(k - 1)
  }

  /** A value is the greatest of the first `n`. */
  ghost predicate IsMax(s: seq<real>, n: nat, m: real)
    requires n <= |s|
  {
    && (forall i {:trigger s[i]} :: 0 <= i < n ==> s[i] <= m)
    && exists i {:trigger s[i]} :: 0 <= i < n && s[i] == m
  }

  lemma RoundKeeps(was: seq<real>, now: seq<real>, stride: nat, m: real)
    requires |was| == |now| && 2 * stride <= |was| && IsMax(was, 2 * stride, m)
    requires forall i {:trigger now[i]} :: 0 <= i < stride ==> now[i] == Max(was[i], was[i + stride])
    ensures IsMax(now, stride, m)
  {
    var i :| 0 <= i < 2 * stride && was[i] == m;
    var j := if i < stride then i else i - stride;
    assert now[j] == Max(was[j], was[j + stride]) == m;
  }

  /** The rounds with halving stride leave the maximum in the first place, for a power of two. */
  method Tree(local: array<real>, ghost k: nat, schedule: nat -> seq<nat>, ghost m: real)
    requires local.Length == Power(k) && IsMax(local[..], local.Length, m)
    requires forall stride {:trigger schedule(stride)} :: Schedule(schedule(stride), stride)
    modifies local
    ensures local[0] == m
  {
    var stride := local.Length / 2;
    ghost var left: nat := k;
    while stride > 0
      invariant left <= k && Power(left) <= local.Length && stride == Power(left) / 2
      invariant IsMax(local[..], Power(left), m)
      decreases left
    {
      ghost var was := local[..];
      Round(local, stride, schedule(stride));
      RoundKeeps(was, local[..], stride, m);
      left := left - 1;
      stride := stride / 2;
    }
    assert Power(left) == 1;
  }

  /** The greatest magnitude of a row by a power of two of lanes and a tree. */
  method TreeAbsMax(row: seq<real>, lanes: nat, ghost k: nat, schedule: nat -> seq<nat>) returns (m: real)
    requires lanes == Power(k) && forall stride {:trigger schedule(stride)} :: Schedule(schedule(stride), stride)
    ensures m == AbsMax(row, |row|)
  {
    var local := new real[lanes];
    for l := 0 to lanes
      invariant forall i {:trigger local[i]} :: 0 <= i < l ==> Peak(row, c => c >= 0 && Visits(i, lanes, c), local[i])
    {
      local[l] := LaneMax(row, l, lanes);
    }
    ghost var top := CombinePeaks(row, lanes, local[..]);
    Tree(local, k, schedule, top);
    m := local[0];
  }

  /** The same by any number of lanes and a reduction of the whole group. */
  method GroupAbsMax(row: seq<real>, lanes: nat) returns (m: real)
    requires lanes > 0
    ensures m == AbsMax(row, |row|)
  {
    var all: seq<real> := [];
    m := 0.0;
    for l := 0 to lanes
      invariant |all| == l && forall i {:trigger all[i]} :: 0 <= i < l ==> Peak(row, c => c >= 0 && Visits(i, lanes, c), all[i])
      invariant if l == 0 then m == 0.0 else IsMax(all, l, m)
    {
      var lane := LaneMax(row, l, lanes);
      ghost var before := all;
      all := all + [lane];
      assert forall i {:trigger all[i]} :: 0 <= i < l ==> all[i] == before[i];
      if l > 0 {
        ghost var i :| 0 <= i < l && before[i] == m;
        assert all[i] == m;
      }
      assert all[l] == lane;
      m := Max(m, lane);
    }
    ghost var top := CombinePeaks(row, lanes, all);
    MaxUnique(all, lanes, m, top);
  }

  lemma MaxUnique(s: seq<real>, n: nat, m: real, m': real)
    requires n <= |s| && IsMax(s, n, m) && IsMax(s, n, m')
    ensures m == m'
  {
  }

  /** The greatest of the lanes' results is the greatest magnitude of the row. */
  lemma CombinePeaks(row: seq<real>, lanes: nat, all: seq<real>) returns (m: real)
    requires lanes > 0 && |all| == lanes
    requires forall i {:trigger all[i]} :: 0 <= i < lanes ==> Peak(row, c => c >= 0 && Visits(i, lanes, c), all[i])
    ensures IsMax(all, lanes, m) && m == AbsMax(row, |row|)
  {
    var at := 0;
    for l := 1 to lanes
      invariant 0 <= at < lanes && forall i {:trigger all[i]} :: 0 <= i < l ==> all[i] <= all[at]
    {
      if all[at] < all[l] {
        at := l;
      }
    }
    m := all[at];
    forall c {:trigger row[c]} | 0 <= c < |row|
      ensures Abs(row[c]) <= m
    {
      var lane := Grid.Col(lanes, c);
      assert Visits(lane, lanes, c) && Abs(row[c]) <= all[lane] <= m;
    }
    AbsMaxIsPeak(row, |row|);
    assert Peak(row, c => 0 <= c < |row|, m);
    PeakUnique(row, c => 0 <= c < |row|, m, AbsMax(row, |row|));
  }

  // ---------------------------------------------------------------------------------------------
  // Quantisation
  // ---------------------------------------------------------------------------------------------

  /** The nearest integer, halves to the even one. */
  function Rint(y: real): int {
    var f := y.Floor;
    var rest := y - f as real;
    if rest < 0.5 || (rest == 0.5 && f % 2 == 0) then f else f + 1
  }

  function Clamp(q: int): int {
    if q < -127 then -127 else if q > 127 then 127 else q
  }

  lemma RintIsNear(y: real)
    ensures y - 0.5 <= Rint(y) as real <= y + 0.5
    ensures Rint(y) as real == y - 0.5 || Rint(y) as real == y + 0.5 ==> Rint(y) % 2 == 0
    ensures -127.0 <= y <= 127.0 ==> Clamp(Rint(y)) == Rint(y)
    ensures (y > 127.0 ==> Clamp(Rint(y)) == 127) && (y < -127.0 ==> Clamp(Rint(y)) == -127)
  {
  }

  function Mul(a: real, b: real): real {
    a * b
  }

  lemma MulOrder(a: real, b: real, scale: real)
    requires scale > 0.0
    ensures a <= b <==> Mul(a, scale) <= Mul(b, scale)
  {
  }

  lemma MulMinus(a: real, b: real, scale: real)
    ensures Mul(a - b, scale) == Mul(a, scale) - Mul(b, scale)
  {
  }

  lemma MulInverse(x: real, inverse: real, scale: real)
    requires Mul(inverse, scale) == 1.0
    ensures Mul(Mul(x, inverse), scale) == x
  {
    assert x * (inverse * scale) == (x * inverse) * scale;
  }

  /** The code of a value that has been divided by its scale. */
  function Code(y: real): int {
    Clamp(Rint(y))
  }

  /** A value within 127 scales is kept up to half a scale. */
  lemma HalfScale(x: real, scale: real, y: real)
    requires scale > 0.0 && Abs(x) <= Mul(127.0, scale) && Mul(y, scale) == x
    ensures -127 <= Code(y) <= 127 && Abs(Mul(Code(y) as real, scale) - x) <= Mul(0.5, scale)
  {
    MulOrder(y, 127.0, scale);
    MulOrder(-127.0, y, scale);
    RintIsNear(y);
    var rest := Code(y) as real - y;
    MulMinus(Code(y) as real, y, scale);
    MulOrder(rest, 0.5, scale);
    MulOrder(-0.5, rest, scale);
  }

  /** The codes of a row, the lanes taking the columns in strides. */
  method Quantize(row: seq<real>, inverse: real, lanes: nat, out: array<int>)
    requires lanes > 0 && out.Length == |row|
    modifies out
    ensures forall c {:trigger out[c]} :: 0 <= c < |row| ==> out[c] == Code(Mul(row[c], inverse))
  {
    for l := 0 to lanes
      invariant forall c: nat {:trigger Grid.Col(lanes, c)} :: c < |row| && Grid.Col(lanes, c) < l ==> out[c] == Code(Mul(row[c], inverse))
    {
      var col := l;
      ghost var turn := 0;
      while col < |row|
        invariant col == Grid.Area(lanes, turn) + l
        invariant forall c: nat {:trigger Grid.Col(lanes, c)} :: c < |row| && Grid.Col(lanes, c) < l ==> out[c] == Code(Mul(row[c], inverse))
        invariant forall c: nat {:trigger Visits(l, lanes, c)} :: c < |row| && Visits(l, lanes, c) && c < col ==> out[c] == Code(Mul(row[c], inverse))
        decreases |row| - col
      {
        StrideCovers(lanes, col, l, turn);
        out[col] := Code(Mul(row[col], inverse));
        forall c: nat | c < |row| && Visits(l, lanes, c) && c < col + lanes
          ensures c <= col
        {
          NothingBetween(lanes, l, turn, c);
        }
        col, turn := col + lanes, turn + 1;
      }
      assert forall c: nat {:trigger Grid.Col(lanes, c)} :: c < |row| && Grid.Col(lanes, c) == l ==> Visits(l, lanes, c);
    }
    assert forall c: nat {:trigger out[c]} :: c < |row| ==> Grid.Col(lanes, c) < lanes;
  }

  /** Codes stand for their row up to half a scale. */
  ghost predicate Faithful(row: seq<real>, codes: seq<int>, scale: real) {
    && scale > 0.0 && |codes| == |row|
    && forall c {:trigger codes[c]} :: 0 <= c < |row| ==> -127 <= codes[c] <= 127 && Abs(Mul(codes[c] as real, scale) - row[c]) <= Mul(0.5, scale)
  }

  lemma CodesFaithful(row: seq<real>, codes: seq<int>, scale: real, inverse: real)
    requires scale > 0.0 && Mul(inverse, scale) == 1.0 && AbsMax(row, |row|) <= Mul(127.0, scale) && |codes| == |row|
    requires forall c {:trigger codes[c]} :: 0 <= c < |row| ==> codes[c] == Code(Mul(row[c], inverse))
    ensures Faithful(row, codes, scale)
  {
    AbsMaxIsPeak(row, |row|);
    forall c {:trigger codes[c]} | 0 <= c < |row|
      ensures -127 <= codes[c] <= 127 && Abs(Mul(codes[c] as real, scale) - row[c]) <= Mul(0.5, scale)
    {
      assert Abs(row[c]) <= AbsMax(row, |row|);
      MulInverse(row[c], inverse, scale);
      HalfScale(row[c], scale, Mul(row[c], inverse));
    }
  }

  lemma Divides(x: real, scale: real)
    requires scale > 0.0
    ensures Mul(x / scale, scale) == x
  {
  }

  /** The tree quantiser: the scale is a 127th of the greatest magnitude, or of a small floor. */
  method QuantizeByTree(row: seq<real>, lanes: nat, ghost k: nat, schedule: nat -> seq<nat>, out: array<int>) returns (scale: real)
    requires lanes == Power(k) && out.Length == |row|
    requires forall stride {:trigger schedule(stride)} :: Schedule(schedule(stride), stride)
    modifies out
    ensures scale == Max(AbsMax(row, |row|), 0.0000000001) / 127.0 && Faithful(row, out[..], scale)
  {
    var m := TreeAbsMax(row, lanes, k, schedule);
    var absmax := Max(m, 0.0000000001);
    scale := absmax / 127.0;
    var inverse := 127.0 / absmax;
    Quantize(row, inverse, lanes, out);
    Divides(127.0, absmax);
    CodesFaithful(row, out[..], scale, inverse);
  }

  /** The group quantiser: the floor is on the scale. */
  method QuantizeByGroup(row: seq<real>, lanes: nat, out: array<int>) returns (scale: real)
    requires lanes > 0 && out.Length == |row|
    modifies out
    ensures scale == Max(AbsMax(row, |row|) / 127.0, 0.00001) && Faithful(row, out[..], scale)
  {
    var absmax := GroupAbsMax(row, lanes);
    scale := Max(absmax / 127.0, 0.00001);
    var inverse := 1.0 / scale;
    Quantize(row, inverse, lanes, out);
    Divides(1.0, scale);
    CodesFaithful(row, out[..], scale, inverse);
  }

  /** The checkpoint's quantiser, one row: the scale is exact, and one for a row of zeros. */
  function RowScale(row: seq<real>): (scale: real)
    ensures scale > 0.0
  {
    if AbsMax(row, |row|) > 0.0 then AbsMax(row, |row|) / 127.0 else 1.0
  }

  /** `m` is the greatest magnitude of the row. */
  lemma RowScaleIs(row: seq<real>, m: real)
    requires forall c {:trigger row[c]} :: 0 <= c < |row| ==> -m <= row[c] <= m
    requires if row == [] then m == 0.0 else m in row || -m in row
    ensures RowScale(row) == if m > 0.0 then m / 127.0 else 1.0
  {
    AbsMaxIsPeak(row, |row|);
  }

  function RowCodes(row: seq<real>): (codes: seq<int>)
    ensures |codes| == |row|
  {
    seq(|row|, c requires 0 <= c < |row| => Code(row[c] / RowScale(row)))
  }

  lemma RowCodesFaithful(row: seq<real>)
    ensures Faithful(row, RowCodes(row), RowScale(row))
  {
    var codes, scale := RowCodes(row), RowScale(row);
    AbsMaxIsPeak(row, |row|);
    forall c {:trigger codes[c]} | 0 <= c < |row|
      ensures -127 <= codes[c] <= 127 && Abs(Mul(codes[c] as real, scale) - row[c]) <= Mul(0.5, scale)
    {
      assert Abs(row[c]) <= AbsMax(row, |row|);
      Divides(row[c], scale);
      HalfScale(row[c], scale, row[c] / scale);
    }
  }

  // ---------------------------------------------------------------------------------------------
  // Work-group sizes
  // ---------------------------------------------------------------------------------------------

  /** Doubles from 32 lanes while there are more than 32 columns for each, up to a limit: a power of two,
      as the tree needs. */
  method ChooseByDoubling(cols: nat, most: nat, ghost top: nat) returns (local: nat, ghost k: nat)
    requires top >= 5 && most == Power(top)
    ensures local == Power(k) && 5 <= k <= top && local <= most
    ensures local == most || local * 32 >= cols
    ensures k > 5 ==> Power(k - 1) * 32 < cols
  {
    local, k := 32, 5;
    assert Power(5) == 32 by { assert Power(3) == 8; }
    PowerGrows(5, top);
    while local < most && local * 32 < cols
      invariant local == Power(k) && 5 <= k <= top && local <= most
      invariant k > 5 ==> Power(k - 1) * 32 < cols
      decreases top - k
    {
      PowerGrows(k, top);
      local, k := local * 2, k + 1;
      PowerGrows(k, top);
    }
  }

  lemma {:induction false} PowerGrows(k: nat, n: nat)
    requires k <= n
    ensures Power(k) <= Power(n) && (Power(k) < Power(n) ==> k < n)
  {
    if k < n {
      PowerGrows(k, n - 1);
    }
  }

  /** About 32 columns for each lane, in whole sub-groups of 32 lanes, at most 512. */
  function ChooseByRounding(cols: nat): (local: nat)
    ensures 32 <= local <= 512 && local % 32 == 0
    ensures local < 512 ==> local * 32 + 32 > cols
    ensures local > 32 ==> (local - 32) * 32 < cols
  {
    var want := (cols / 32 + 31) / 32 * 32;
    if want < 32 then 32 else if want > 512 then 512 else want
  }
}
