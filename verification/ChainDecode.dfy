/** Speculative decoding along a linear chain of drafts: the tree the drafts are checked in, its
    attention mask, the acceptance scan, and the tokens that come out of whole runs. */
module ChainDecode {
  import Grid

  type Token = int

  // ---------------------------------------------------------------------------------------------
  // Rows laid out one after the other
  // ---------------------------------------------------------------------------------------------

  function Flatten<T>(rows: seq<seq<T>>): seq<T> {
    if rows == [] then [] else Flatten(rows[..|rows| - 1]) + rows[|rows| - 1]
  }

  lemma {:induction false} FlattenLength<T>(rows: seq<seq<T>>, width: nat)
    requires forall r :: r in rows ==> |r| == width
    ensures |Flatten(rows)| == width * |rows|
  {
    if rows != [] {
      FlattenLength(rows[..|rows| - 1], width);
      Grid.Distribute(|rows| - 1, 1, width);
    }
  }

  /** Cell `i` of row `b`, when all rows have the same width. */
  lemma {:induction false} FlattenAt<T>(rows: seq<seq<T>>, width: nat, b: nat, i: nat)
    requires b < |rows| && i < width && forall r :: r in rows ==> |r| == width
    ensures width * b + i < |Flatten(rows)|
    ensures Flatten(rows)[width * b + i] == rows[b][i]
  {
    var n := |rows| - 1;
    FlattenLength(rows[..n], width);
    Grid.Inside(width, b, i, |rows|);
    FlattenLength(rows, width);
    if b < n {
      FlattenAt(rows[..n], width, b, i);
    }
  }

  // ---------------------------------------------------------------------------------------------
  // Building the chain
  // ---------------------------------------------------------------------------------------------

  /** The tree of one sequence: `D` nodes, each with its first child and its next sibling, or -1. */
  datatype Graph = Graph(nextToken: seq<int>, nextSibling: seq<int>)

  function ChainGraph(D: nat): Graph {
    Graph(seq(D, i => if i < D - 1 then i + 1 else -1), seq(D, i => -1))
  }

  function Positions(seqLens: seq<nat>, D: nat): seq<nat> {
    Flatten(seq(|seqLens|, b requires 0 <= b < |seqLens| => seq<nat>(D, i => seqLens[b] + i)))
  }

  /** The bonus token and the drafts that follow it. */
  function Candidates(bonus: Token, drafts: seq<Token>): seq<Token> {
    [bonus] + drafts
  }

  /** Row `i` of the causal triangle. */
  function Tri(D: nat, i: nat): seq<bool> {
    seq(D, key => key <= i)
  }

  /** The mask row of query `i`: all `s` past keys and the chain up to itself. */
  function MaskRow(s: nat, D: nat, i: nat): seq<bool> {
    seq(s + D, key => key <= s + i)
  }

  function MaskRows(s: nat, D: nat, n: nat): seq<bool> {
    if n == 0 then [] else MaskRows(s, D, n - 1) + MaskRow(s, D, n - 1)
  }

  lemma {:induction false} MaskRowsSize(s: nat, D: nat, n: nat)
    ensures |MaskRows(s, D, n)| == (s + D) * n
  {
    if n > 0 {
      MaskRowsSize(s, D, n - 1);
      Grid.Distribute(n - 1, 1, s + D);
    }
  }

  /** The full mask of the first `b` sequences: batch after batch, row after row. */
  function MaskTo(seqLens: seq<nat>, D: nat, b: nat): seq<bool>
    requires b <= |seqLens|
  {
    if b == 0 then [] else MaskTo(seqLens, D, b - 1) + MaskRows(seqLens[b - 1], D, D)
  }

  function FullMask(seqLens: seq<nat>, D: nat): seq<bool> {
    MaskTo(seqLens, D, |seqLens|)
  }

  function Sum(s: seq<nat>): nat {
    if s == [] then 0 else Sum(s[..|s| - 1]) + s[|s| - 1]
  }

  /** Where the region of batch `b` starts. */
  function Offset(seqLens: seq<nat>, D: nat, b: nat): nat
    requires b <= |seqLens|
  {
    |MaskTo(seqLens, D, b)|
  }

  /** The size the source declares for the mask of `n` sequences with total length `sum`. */
  function Declared(sum: nat, D: nat, n: nat): nat {
    sum * D + D * D * n
  }

  lemma DeclaredGrows(sum: nat, s: nat, D: nat, n: nat)
    ensures Declared(sum + s, D, n + 1) == Declared(sum, D, n) + (s + D) * D
  {
    Grid.Distribute(s, D, D);
    Grid.Distribute(sum, s, D);
    Grid.Distribute(n, 1, D * D);
  }

  lemma {:induction false} MaskToSize(seqLens: seq<nat>, D: nat, b: nat)
    requires b <= |seqLens|
    ensures Offset(seqLens, D, b) == Declared(Sum(seqLens[..b]), D, b)
  {
    if b > 0 {
      MaskToSize(seqLens, D, b - 1);
      MaskRowsSize(seqLens[b - 1], D, D);
      DeclaredGrows(Sum(seqLens[..b - 1]), seqLens[b - 1], D, b - 1);
      assert seqLens[..b][..b - 1] == seqLens[..b - 1];
    }
  }

  /** The declared size fits when `seq_lens_sum` is the sum of the lengths. */
  lemma FullMaskSize(seqLens: seq<nat>, D: nat)
    ensures |FullMask(seqLens, D)| == Declared(Sum(seqLens), D, |seqLens|)
  {
    MaskToSize(seqLens, D, |seqLens|);
    assert seqLens[..|seqLens|] == seqLens;
  }

  lemma {:induction false} MaskToGrows(seqLens: seq<nat>, D: nat, b: nat, c: nat)
    requires b <= c <= |seqLens|
    ensures MaskTo(seqLens, D, b) <= MaskTo(seqLens, D, c)
  {
    if b < c {
      MaskToGrows(seqLens, D, b, c - 1);
    }
  }

  lemma {:induction false} MaskRowsGrow(s: nat, D: nat, n: nat, m: nat)
    requires n <= m
    ensures |MaskRows(s, D, n)| <= |MaskRows(s, D, m)|
  {
    if n < m {
      MaskRowsGrow(s, D, n, m - 1);
    }
  }

  lemma {:induction false} MaskRowsAt(s: nat, D: nat, n: nat, i: nat, key: nat)
    requires i < n && key < s + D
    ensures |MaskRows(s, D, i)| + key < |MaskRows(s, D, n)|
    ensures MaskRows(s, D, n)[|MaskRows(s, D, i)| + key] <==> key <= s + i
  {
    if i < n - 1 {
      MaskRowsAt(s, D, n - 1, i, key);
    }
  }

  /** Where entry (b, i, key) of the full mask is: after the earlier batches and the earlier rows. */
  function MaskIndex(seqLens: seq<nat>, D: nat, b: nat, i: nat, key: nat): nat
    requires b < |seqLens|
  {
    Offset(seqLens, D, b) + |MaskRows(seqLens[b], D, i)| + key
  }

  lemma MaskIndexInRegion(seqLens: seq<nat>, D: nat, b: nat, i: nat, key: nat)
    requires b < |seqLens| && i < D && key < seqLens[b] + D
    ensures Offset(seqLens, D, b) <= MaskIndex(seqLens, D, b, i, key) < Offset(seqLens, D, b + 1)
  {
    RowsNext(seqLens[b], D, i);
    MaskRowsGrow(seqLens[b], D, i + 1, D);
    OffsetNext(seqLens, D, b);
  }

  lemma RowsNext(s: nat, D: nat, i: nat)
    ensures |MaskRows(s, D, i + 1)| == |MaskRows(s, D, i)| + (s + D)
  {
  }

  lemma OffsetNext(seqLens: seq<nat>, D: nat, b: nat)
    requires b < |seqLens|
    ensures Offset(seqLens, D, b + 1) == Offset(seqLens, D, b) + |MaskRows(seqLens[b], D, D)|
  {
  }

  lemma PartAt<T>(whole: seq<T>, before: seq<T>, part: seq<T>, x: nat)
    requires x < |part| && before + part <= whole
    ensures |before| + x < |whole| && whole[|before| + x] == part[x]
  {
    assert (before + part)[|before| + x] == part[x];
  }

  /** Entry (b, i, key) is true exactly when `key` is past, or is node `i` itself or one before it
      in the chain. */
  lemma FullMaskAt(seqLens: seq<nat>, D: nat, b: nat, i: nat, key: nat)
    requires b < |seqLens| && i < D && key < seqLens[b] + D
    ensures MaskIndex(seqLens, D, b, i, key) < |FullMask(seqLens, D)|
    ensures FullMask(seqLens, D)[MaskIndex(seqLens, D, b, i, key)] <==> key <= seqLens[b] + i
  {
    MaskRowsAt(seqLens[b], D, D, i, key);
    MaskToGrows(seqLens, D, b + 1, |seqLens|);
    PartAt(FullMask(seqLens, D), MaskTo(seqLens, D, b), MaskRows(seqLens[b], D, D),
           |MaskRows(seqLens[b], D, i)| + key);
  }

  lemma RowsApart(s: nat, D: nat, i: nat, key: nat, i': nat)
    requires i < i' && key < s + D
    ensures |MaskRows(s, D, i)| + key < |MaskRows(s, D, i')|
  {
    MaskRowsGrow(s, D, i + 1, i');
  }

  lemma RegionsApart(seqLens: seq<nat>, D: nat, b: nat, i: nat, key: nat, b': nat, p: nat, start: nat)
    requires b < b' <= |seqLens| && i < D && key < seqLens[b] + D
    requires p == MaskIndex(seqLens, D, b, i, key) && start == Offset(seqLens, D, b')
    ensures p < start
  {
    MaskIndexInRegion(seqLens, D, b, i, key);
    OffsetGrows(seqLens, D, b + 1, b', Offset(seqLens, D, b + 1), start);
  }

  lemma {:induction false} OffsetGrows(seqLens: seq<nat>, D: nat, b: nat, c: nat, x: nat, y: nat)
    requires b <= c <= |seqLens| && x == Offset(seqLens, D, b) && y == Offset(seqLens, D, c)
    ensures x <= y
  {
    if b < c {
      OffsetNext(seqLens, D, c - 1);
      OffsetGrows(seqLens, D, b, c - 1, x, Offset(seqLens, D, c - 1));
    }
  }

  /** Every index of the mask belongs to just one entry. */
  lemma FullMaskUnique(seqLens: seq<nat>, D: nat, b: nat, i: nat, key: nat, b': nat, i': nat, key': nat)
    requires b <= b' < |seqLens| && i < D && key < seqLens[b] + D && i' < D && key' < seqLens[b'] + D
    requires MaskIndex(seqLens, D, b, i, key) == MaskIndex(seqLens, D, b', i', key')
    ensures b == b' && i == i' && key == key'
  {
    if b < b' {
      RegionsApart(seqLens, D, b, i, key, b', MaskIndex(seqLens, D, b, i, key), Offset(seqLens, D, b'));
    } else if i < i' {
      RowsApart(seqLens[b], D, i, key, i');
    } else if i' < i {
      RowsApart(seqLens[b], D, i', key', i);
    }
  }

  function Triangle(D: nat): seq<seq<bool>> {
    seq(D, i requires 0 <= i < D => Tri(D, i))
  }

  /** The mask of the query-length mode: the causal triangle once for every sequence. */
  function QueryMask(bs: nat, D: nat): seq<bool> {
    Flatten(seq(bs, b => Flatten(Triangle(D))))
  }

  lemma TriangleAt(D: nat, i: nat, key: nat)
    requires i < D && key < D
    ensures |Flatten(Triangle(D))| == D * D && D * i + key < D * D
    ensures Flatten(Triangle(D))[D * i + key] <==> key <= i
  {
    FlattenLength(Triangle(D), D);
    FlattenAt(Triangle(D), D, i, key);
    Grid.Inside(D, i, key, D);
  }

  /** The same rows for every sequence. */
  lemma RepeatAt(rows: seq<bool>, size: nat, bs: nat, b: nat, p: nat)
    requires |rows| == size && b < bs && p < size
    ensures size * b + p < |Flatten(seq(bs, _ => rows))| && Flatten(seq(bs, _ => rows))[size * b + p] == rows[p]
  {
    FlattenAt(seq(bs, _ => rows), size, b, p);
  }

  /** The query-length mask has the chain columns of the full mask, and only those; `p` is the place. */
  lemma QueryMaskAt(seqLens: seq<nat>, D: nat, b: nat, i: nat, key: nat, p: nat)
    requires b < |seqLens| && i < D && key < D && p == D * D * b + (D * i + key)
    ensures p < |QueryMask(|seqLens|, D)| && (QueryMask(|seqLens|, D)[p] <==> key <= i)
    ensures MaskIndex(seqLens, D, b, i, seqLens[b] + key) < |FullMask(seqLens, D)|
    ensures QueryMask(|seqLens|, D)[p] == FullMask(seqLens, D)[MaskIndex(seqLens, D, b, i, seqLens[b] + key)]
  {
    var rows, size := Flatten(Triangle(D)), D * D;
    TriangleAt(D, i, key);
    RepeatAt(rows, size, |seqLens|, b, D * i + key);
    assert QueryMask(|seqLens|, D) == Flatten(seq(|seqLens|, _ => rows)) by {
      assert seq(|seqLens|, b => Flatten(Triangle(D))) == seq(|seqLens|, _ => rows);
    }
    FullMaskAt(seqLens, D, b, i, seqLens[b] + key);
  }

  /** Node `i` of batch `b` stands `i` places after the past of its sequence. */
  lemma PositionsAt(seqLens: seq<nat>, D: nat, b: nat, i: nat)
    requires b < |seqLens| && i < D
    ensures |Positions(seqLens, D)| == D * |seqLens|
    ensures D * b + i < |Positions(seqLens, D)|
    ensures Positions(seqLens, D)[D * b + i] == seqLens[b] + i
  {
    var rows := seq(|seqLens|, b requires 0 <= b < |seqLens| => seq<nat>(D, i => seqLens[b] + i));
    FlattenLength(rows, D);
    FlattenAt(rows, D, b, i);
    assert Positions(seqLens, D) == Flatten(rows);
  }

  /** `mask[start : start + |row|] = row` as torch does it: past the end of the buffer the slice is
      cut short, and only a row of one cell may be assigned to a slice of another length. */
  method AssignSlice(mask: array<bool>, start: nat, row: seq<bool>) returns (ok: bool)
    modifies mask
    ensures ok <==> start + |row| <= mask.Length || |row| == 1
    ensures forall p :: 0 <= p < mask.Length ==>
              mask[p] == if start + |row| <= mask.Length && start <= p < start + |row| then row[p - start] else old(mask[p])
  {
    if start + |row| > mask.Length {
      return |row| == 1;
    }
    forall k | 0 <= k < |row| {
      mask[start + k] := row[k];
    }
    ok := true;
  }

  /** The buffer agrees with `spec` as far as both go, and is true past its end. */
  ghost predicate Settled(mask: seq<bool>, spec: seq<bool>) {
    forall p :: 0 <= p < |mask| ==> mask[p] == (p < |spec| ==> spec[p])
  }

  /** Fills the full mask over a buffer; false stands for the exception of a bad slice. */
  method FillFullMask(seqLens: seq<nat>, D: nat, mask: array<bool>) returns (ok: bool)
    requires D > 0
    modifies mask
    ensures ok <==> D == 1 || |FullMask(seqLens, D)| <= mask.Length
    ensures ok ==> Settled(mask[..], FullMask(seqLens, D))
  {
    forall p | 0 <= p < mask.Length {
      mask[p] := true;
    }
    var off := 0;
    for b := 0 to |seqLens|
      invariant off == Offset(seqLens, D, b)
      invariant Settled(mask[..], MaskTo(seqLens, D, b))
      invariant D == 1 || off <= mask.Length
    {
      MaskToGrows(seqLens, D, b + 1, |seqLens|);
      var good := FillBatch(seqLens[b], D, off, mask, MaskTo(seqLens, D, b));
      if !good {
        return false;
      }
      MaskRowsSize(seqLens[b], D, D);
      off := off + (seqLens[b] + D) * D;
    }
    ok := true;
  }

  /** The rows of one batch, from `off` on. */
  method FillBatch(s: nat, D: nat, off: nat, mask: array<bool>, ghost done: seq<bool>) returns (ok: bool)
    requires D > 0 && off == |done| && Settled(mask[..], done)
    modifies mask
    ensures ok <==> D == 1 || off + |MaskRows(s, D, D)| <= mask.Length
    ensures ok ==> Settled(mask[..], done + MaskRows(s, D, D))
  {
    var width := s + D;
    for tid := 0 to D
      invariant Settled(mask[..], done + MaskRows(s, D, tid))
      invariant D == 1 || tid == 0 || off + |MaskRows(s, D, tid)| <= mask.Length
    {
      MaskRowsSize(s, D, tid);
      MaskRowsGrow(s, D, tid + 1, D);
      var good := FillRow(s, D, tid, off + width * tid, mask, done + MaskRows(s, D, tid));
      if !good {
        return false;
      }
      assert done + MaskRows(s, D, tid + 1) == done + MaskRows(s, D, tid) + MaskRow(s, D, tid);
    }
    ok := true;
  }

  /** The row of query `tid`, which starts at `row`. */
  method FillRow(s: nat, D: nat, tid: nat, row: nat, mask: array<bool>, ghost done: seq<bool>) returns (ok: bool)
    requires tid < D && row == |done| && Settled(mask[..], done)
    modifies mask
    ensures ok <==> D == 1 || row + s + D <= mask.Length
    ensures ok ==> Settled(mask[..], done + MaskRow(s, D, tid))
  {
    ghost var before := mask[..];
    ok := AssignSlice(mask, row + s, Tri(D, tid));
    if ok {
      RowSettles(before, mask[..], done, s, D, tid);
    }
  }

  /** One assigned slice settles one more row: its past keys are true already. */
  lemma RowSettles(before: seq<bool>, after: seq<bool>, done: seq<bool>, s: nat, D: nat, tid: nat)
    requires Settled(before, done) && tid < D && |after| == |before|
    requires |done| + s + D <= |before| || D == 1
    requires forall p :: 0 <= p < |before| ==>
               after[p] == if |done| + s + D <= |before| && |done| + s <= p < |done| + s + D then p - |done| - s <= tid else before[p]
    ensures Settled(after, done + MaskRow(s, D, tid))
  {
  }

  // ---------------------------------------------------------------------------------------------
  // Accepting a prefix
  // ---------------------------------------------------------------------------------------------

  /** Which drafts equal what the target predicts just before them. */
  function Match(cands: seq<Token>, target: seq<Token>): seq<nat>
    requires 0 < |cands| == |target|
  {
    seq(|cands| - 1, j requires 0 <= j < |cands| - 1 => if cands[j + 1] == target[j] then 1 else 0)
  }

  function CumProd(m: seq<nat>): seq<nat> {
    if m == [] then []
    else
      var before := CumProd(m[..|m| - 1]);
      before + [(if before == [] then 1 else before[|before| - 1]) * m[|m| - 1]]
  }

  /** The accepted count as the source computes it. */
  function Accepted(cands: seq<Token>, target: seq<Token>): nat
    requires 0 < |cands| == |target|
  {
    Sum(CumProd(Match(cands, target)))
  }

  /** The leading ones of `m` number `n`. */
  predicate LeadingRun(m: seq<nat>, n: nat) {
    n <= |m| && (forall j :: 0 <= j < n ==> m[j] == 1) && (n < |m| ==> m[n] != 1)
  }

  lemma TimesBit(a: nat, bit: nat)
    requires bit <= 1
    ensures a * bit == if bit == 1 then a else 0
  {
  }

  lemma CumNext(m: seq<nat>) returns (v: nat)
    requires m != [] && m[|m| - 1] <= 1
    ensures var c := CumProd(m[..|m| - 1]);
      CumProd(m) == c + [v] && v == if m[|m| - 1] == 0 then 0 else if c == [] then 1 else c[|c| - 1]
  {
    var c := CumProd(m[..|m| - 1]);
    var last := if c == [] then 1 else c[|c| - 1];
    TimesBit(last, m[|m| - 1]);
    v := last * m[|m| - 1];
  }

  lemma SumNext(s: seq<nat>, v: nat)
    ensures Sum(s + [v]) == Sum(s) + v
  {
    assert (s + [v])[..|s|] == s;
  }

  /** One more product `v` behind the products `c` of all but the last of `m`. */
  lemma RunNext(m: seq<nat>, c: seq<nat>, v: nat, sum: nat)
    requires m != [] && m[|m| - 1] <= 1 && |c| == |m| - 1 && LeadingRun(m[..|m| - 1], sum)
    requires c != [] ==> c[|c| - 1] == if sum == |c| then 1 else 0
    requires v == if m[|m| - 1] == 0 then 0 else if c == [] then 1 else c[|c| - 1]
    ensures LeadingRun(m, sum + v) && v == if sum + v == |m| then 1 else 0
  {
    var n := |m| - 1;
    assert forall j :: 0 <= j < n ==> m[..n][j] == m[j];
  }

  /** Over zeros and ones, the sum of the running products counts the leading ones. */
  lemma {:induction false} SumOfProducts(m: seq<nat>)
    requires forall j :: 0 <= j < |m| ==> m[j] <= 1
    ensures LeadingRun(m, Sum(CumProd(m)))
    ensures |CumProd(m)| == |m|
    ensures m != [] ==> CumProd(m)[|m| - 1] == if Sum(CumProd(m)) == |m| then 1 else 0
  {
    if m != [] {
      var c := CumProd(m[..|m| - 1]);
      SumOfProducts(m[..|m| - 1]);
      var v := CumNext(m);
      RunNext(m, c, v, Sum(c));
      SumNext(c, v);
    }
  }

  lemma AcceptedIsRun(cands: seq<Token>, target: seq<Token>)
    requires 0 < |cands| == |target|
    ensures var n := Accepted(cands, target);
      && n < |cands|
      && (forall j :: 0 <= j < n ==> cands[j + 1] == target[j])
      && (n + 1 < |cands| ==> cands[n + 1] != target[n])
  {
    var m := Match(cands, target);
    SumOfProducts(m);
    forall j | 0 <= j < Accepted(cands, target)
      ensures cands[j + 1] == target[j]
    {
      assert m[j] == 1;
    }
  }

  predicate Rectangular(rows: seq<seq<Token>>, D: nat) {
    forall b :: 0 <= b < |rows| ==> |rows[b]| == D
  }

  /** Greedy verification of all batches, in place: the accepted counts, the accepted nodes from the
      front of each row, and the predictions at the accepted nodes. */
  method Verify(predicts: array<Token>, acceptIndex: array2<int>, acceptNum: array<nat>,
                cands: seq<seq<Token>>, target: seq<seq<Token>>, D: nat)
    requires D > 0 && |cands| == |target| && Rectangular(cands, D) && Rectangular(target, D)
    requires predicts.Length == Grid.Area(D, |cands|)
    requires acceptIndex.Length0 == acceptNum.Length == |cands|
    modifies predicts, acceptIndex, acceptNum
    ensures forall b :: 0 <= b < |cands| ==> acceptNum[b] == Accepted(cands[b], target[b])
    ensures forall b, j :: 0 <= b < |cands| && 0 <= j < acceptIndex.Length1 ==>
              acceptIndex[b, j] == if j <= Accepted(cands[b], target[b]) then Grid.Area(D, b) + j else -1
    ensures forall b, i :: 0 <= b < |cands| && 0 <= i < D ==>
              predicts[Grid.Cell(D, b, i, |cands|)]
              == if i <= Accepted(cands[b], target[b]) && i < acceptIndex.Length1 then target[b][i]
                 else old(predicts[Grid.Cell(D, b, i, |cands|)])
  {
    forall b | 0 <= b < |cands| {
      acceptNum[b] := Accepted(cands[b], target[b]);
    }
    forall b, j | 0 <= b < |cands| && 0 <= j < acceptIndex.Length1 {
      acceptIndex[b, j] := if j <= Accepted(cands[b], target[b]) then Grid.Area(D, b) + j else -1;
    }
    forall p | 0 <= p < predicts.Length && Selected(cands, target, D, acceptIndex.Length1, p) {
      predicts[p] := target[Grid.Row(D, p)][Grid.Col(D, p)];
    }
    forall b, i | 0 <= b < |cands| && 0 <= i < D
      ensures Selected(cands, target, D, acceptIndex.Length1, Grid.Cell(D, b, i, |cands|))
         <==> i <= Accepted(cands[b], target[b]) && i < acceptIndex.Length1
      ensures Grid.Row(D, Grid.Cell(D, b, i, |cands|)) == b && Grid.Col(D, Grid.Cell(D, b, i, |cands|)) == i
    {
      Grid.RowOfCell(D, b, i);
    }
  }

  /** Flat node `p` is accepted and within the accept width. */
  predicate Selected(cands: seq<seq<Token>>, target: seq<seq<Token>>, D: nat, width: nat, p: nat)
    requires D > 0 && |cands| == |target| && Rectangular(cands, D) && Rectangular(target, D)
  {
    && Grid.Row(D, p) < |cands|
    && Grid.Col(D, p) <= Accepted(cands[Grid.Row(D, p)], target[Grid.Row(D, p)])
    && Grid.Col(D, p) < width
  }

  // ---------------------------------------------------------------------------------------------
  // The scan is a walk over the tree
  // ---------------------------------------------------------------------------------------------

  /** Children and siblings are nodes, and siblings come later. */
  predicate WellFormed(g: Graph, D: nat) {
    && |g.nextToken| == |g.nextSibling| == D
    && (forall i :: 0 <= i < D ==> -1 <= g.nextToken[i] < D)
    && (forall i :: 0 <= i < D ==> g.nextSibling[i] == -1 || i < g.nextSibling[i] < D)
  }

  /** The first of `cur` and its later siblings that carries the token, or -1. */
  function FindChild(g: Graph, cands: seq<Token>, token: Token, cur: int): (c: int)
    requires WellFormed(g, |cands|) && -1 <= cur < |cands|
    ensures -1 <= c < |cands|
    decreases |cands| - cur
  {
    if cur == -1 then -1
    else if cands[cur] == token then cur
    else if g.nextSibling[cur] == -1 then -1
    else FindChild(g, cands, token, g.nextSibling[cur])
  }

  /** Greedy verification of a general tree: from `last`, step to the child that carries the target's
      prediction, at most `budget` times. */
  function Walk(g: Graph, cands: seq<Token>, target: seq<Token>, last: nat, budget: nat): (w: seq<nat>)
    requires WellFormed(g, |cands|) && |target| == |cands| && last < |cands|
    ensures w != []
    decreases budget
  {
    var child := FindChild(g, cands, target[last], g.nextToken[last]);
    if budget == 0 || child == -1 then [last] else [last] + Walk(g, cands, target, child, budget - 1)
  }

  lemma {:induction false} ChainWalk(cands: seq<Token>, target: seq<Token>, last: nat, budget: nat)
    requires 0 < |cands| == |target| && last <= Accepted(cands, target)
    ensures WellFormed(ChainGraph(|cands|), |cands|) && last < |cands|
    ensures var n := Accepted(cands, target);
      var steps := if n - last < budget then n - last else budget;
      Walk(ChainGraph(|cands|), cands, target, last, budget) == seq(steps + 1, j => last + j)
    decreases budget
  {
    AcceptedIsRun(cands, target);
    if budget > 0 && last < Accepted(cands, target) {
      ChainWalk(cands, target, last + 1, budget - 1);
    }
  }

  /** On the chain, the walk over the tree accepts what the scan accepts, cut at the accept width;
      the reported count is that of the walk exactly when it is less than the width. */
  lemma ScanIsWalk(cands: seq<Token>, target: seq<Token>, width: nat)
    requires 0 < |cands| == |target| && width > 0
    ensures WellFormed(ChainGraph(|cands|), |cands|)
    ensures var n := Accepted(cands, target);
      var walk := Walk(ChainGraph(|cands|), cands, target, 0, width - 1);
      && |walk| == (if n + 1 < width then n + 1 else width)
      && (forall j :: 0 <= j < |walk| ==> walk[j] == j)
      && (n == |walk| - 1 <==> n < width)
  {
    ChainWalk(cands, target, 0, width - 1);
  }

  // ---------------------------------------------------------------------------------------------
  // Whole runs
  // ---------------------------------------------------------------------------------------------

  /** The tokens a query attends to. */
  function Visible(row: seq<bool>, tokens: seq<Token>): seq<Token>
    requires |row| == |tokens|
  {
    if row == [] then []
    else
      var n := |row| - 1;
      Visible(row[..n], tokens[..n]) + if row[n] then [tokens[n]] else []
  }

  lemma {:induction false} VisiblePrefix(row: seq<bool>, tokens: seq<Token>, k: nat)
    requires |row| == |tokens| && k <= |tokens|
    requires forall key :: 0 <= key < |row| ==> (row[key] <==> key < k)
    ensures Visible(row, tokens) == tokens[..k]
  {
    if row != [] {
      var n := |row| - 1;
      VisiblePrefix(row[..n], tokens[..n], if k <= n then k else n);
      assert tokens[..n][..if k <= n then k else n] == tokens[..if k <= n then k else n];
    }
  }

  /** `n` tokens of plain decoding, one at a time, by the model `lm`. */
  function Greedy(lm: seq<Token> -> Token, prompt: seq<Token>, n: nat): (g: seq<Token>)
    ensures |g| == n
  {
    if n == 0 then []
    else
      var before := Greedy(lm, prompt, n - 1);
      before + [lm(prompt + before)]
  }

  lemma {:induction false} GreedySplit(lm: seq<Token> -> Token, prompt: seq<Token>, n: nat, m: nat)
    ensures Greedy(lm, prompt, n + m) == Greedy(lm, prompt, n) + Greedy(lm, prompt + Greedy(lm, prompt, n), m)
  {
    if m == 0 {
    } else {
      GreedySplit(lm, prompt, n, m - 1);
      var first, rest := Greedy(lm, prompt, n), Greedy(lm, prompt + Greedy(lm, prompt, n), m - 1);
      assert prompt + (first + rest) == (prompt + first) + rest;
      assert n + m - 1 == n + (m - 1);
    }
  }

  /** What the target predicts after each node of the chain, when each node attends to the prompt
      and to the chain up to itself. */
  function Predictions(lm: seq<Token> -> Token, prompt: seq<Token>, drafts: seq<Token>): (t: seq<Token>)
    ensures |t| == |drafts| + 1
  {
    seq(|drafts| + 1, i requires 0 <= i <= |drafts| => lm(prompt + drafts[..i]))
  }

  /** Checking the drafts that follow `prompt` yields the next tokens of plain decoding. */
  lemma {:induction false} ChainIsGreedy(lm: seq<Token> -> Token, prompt: seq<Token>, drafts: seq<Token>, n: nat)
    requires prompt != []
    requires n <= Accepted(Candidates(prompt[|prompt| - 1], drafts), Predictions(lm, prompt, drafts))
    ensures n <= |drafts| && drafts[..n] == Greedy(lm, prompt, n)
    ensures Predictions(lm, prompt, drafts)[..n + 1] == Greedy(lm, prompt, n + 1)
  {
    var cands := Candidates(prompt[|prompt| - 1], drafts);
    var target := Predictions(lm, prompt, drafts);
    AcceptedIsRun(cands, target);
    if n > 0 {
      ChainIsGreedy(lm, prompt, drafts, n - 1);
      assert cands[n] == drafts[n - 1] == target[n - 1];
      assert drafts[..n] == drafts[..n - 1] + [drafts[n - 1]];
    }
    assert target[..n + 1] == target[..n] + [lm(prompt + drafts[..n])];
  }

  /** One sequence after a round: what was emitted continues plain decoding. */
  ghost predicate Continues(lm: seq<Token> -> Token, before: seq<Token>, after: seq<Token>) {
    |before| <= |after| && after == before + Greedy(lm, before, |after| - |before|)
  }

  predicate RoundInput(prompts: seq<seq<Token>>, drafts: seq<seq<Token>>, D: nat) {
    && |drafts| == |prompts|
    && (forall b :: 0 <= b < |drafts| ==> |drafts[b]| + 1 == D)
    && (forall b :: 0 <= b < |prompts| ==> prompts[b] != [])
  }

  /** The past of every prompt: all its tokens but the last, which the round checks again. */
  predicate PastLengths(prompts: seq<seq<Token>>, seqLens: seq<nat>) {
    |seqLens| == |prompts| && forall b :: 0 <= b < |prompts| ==> seqLens[b] + 1 == |prompts[b]|
  }

  /** The row of query `i` of batch `b`, cut out of a settled buffer. */
  lemma RowOfMask(seqLens: seq<nat>, D: nat, mask: seq<bool>, b: nat, i: nat)
    requires b < |seqLens| && i < D
    requires |mask| == |FullMask(seqLens, D)| && Settled(mask, FullMask(seqLens, D))
    ensures var start := MaskIndex(seqLens, D, b, i, 0);
      start + seqLens[b] + D <= |mask| && mask[start..start + seqLens[b] + D] == MaskRow(seqLens[b], D, i)
  {
    var start, s := MaskIndex(seqLens, D, b, i, 0), seqLens[b];
    FullMaskAt(seqLens, D, b, i, s + D - 1);
    forall key: nat | key < s + D
      ensures mask[start..start + s + D][key] == MaskRow(s, D, i)[key]
    {
      FullMaskAt(seqLens, D, b, i, key);
    }
  }

  lemma MaskRowSees(s: nat, D: nat, i: nat, tokens: seq<Token>)
    requires i < D && |tokens| == s + D
    ensures Visible(MaskRow(s, D, i), tokens) == tokens[..s + i + 1]
  {
    VisiblePrefix(MaskRow(s, D, i), tokens, s + i + 1);
  }

  /** Query `i`, masked by its row of the full mask, sees the prompt and its drafts: the past, the bonus
      token, and the drafts before it. */
  lemma RowSees(prompt: seq<Token>, drafts: seq<Token>, past: seq<Token>, cands: seq<Token>, i: nat, seen: seq<Token>)
    requires prompt != [] && i <= |drafts|
    requires past == prompt[..|prompt| - 1] && cands == Candidates(prompt[|prompt| - 1], drafts)
    requires seen == (past + cands)[..|past| + i + 1]
    ensures seen == prompt + drafts[..i]
  {
    assert past + cands == prompt + drafts;
  }

  /** The target's predictions for every node. It runs on the candidates behind the past of every
      prompt, each query on what its mask row lets it see. */
  method Forward(lm: seq<Token> -> Token, prompts: seq<seq<Token>>, cands: seq<seq<Token>>, D: nat,
                 seqLens: seq<nat>, mask: array<bool>, ghost drafts: seq<seq<Token>>) returns (target: seq<seq<Token>>)
    requires D > 0 && RoundInput(prompts, drafts, D)
    requires PastLengths(prompts, seqLens) && |cands| == |prompts|
    requires forall b :: 0 <= b < |prompts| ==> cands[b] == Candidates(prompts[b][|prompts[b]| - 1], drafts[b])
    requires mask.Length == |FullMask(seqLens, D)| && Settled(mask[..], FullMask(seqLens, D))
    ensures |target| == |prompts|
    ensures forall b :: 0 <= b < |prompts| ==> target[b] == Predictions(lm, prompts[b], drafts[b])
  {
    target := [];
    for b := 0 to |prompts|
      invariant |target| == b
      invariant forall c :: 0 <= c < b ==> target[c] == Predictions(lm, prompts[c], drafts[c])
    {
      var row := ForwardRow(lm, prompts[b], cands[b], D, seqLens, b, mask, drafts[b]);
      target := target + [row];
    }
  }

  /** What query `i` of a prompt sees through the settled mask. */
  lemma QuerySees(prompt: seq<Token>, cands: seq<Token>, D: nat, seqLens: seq<nat>, b: nat, mask: seq<bool>, drafts: seq<Token>, i: nat, start: nat)
    requires b < |seqLens| && i < D && |drafts| + 1 == D && seqLens[b] + 1 == |prompt|
    requires cands == Candidates(prompt[|prompt| - 1], drafts)
    requires |mask| == |FullMask(seqLens, D)| && Settled(mask, FullMask(seqLens, D)) && start == MaskIndex(seqLens, D, b, i, 0)
    ensures start + seqLens[b] + D <= |mask|
    ensures Visible(mask[start..start + seqLens[b] + D], prompt[..seqLens[b]] + cands) == prompt + drafts[..i]
  {
    var past := prompt[..seqLens[b]];
    RowOfMask(seqLens, D, mask, b, i);
    MaskRowSees(seqLens[b], D, i, past + cands);
    RowSees(prompt, drafts, past, cands, i, (past + cands)[..seqLens[b] + i + 1]);
  }

  method ForwardRow(lm: seq<Token> -> Token, prompt: seq<Token>, cands: seq<Token>, D: nat,
                    seqLens: seq<nat>, b: nat, mask: array<bool>, ghost drafts: seq<Token>) returns (row: seq<Token>)
    requires D > 0 && b < |seqLens| && |drafts| + 1 == D && seqLens[b] + 1 == |prompt|
    requires cands == Candidates(prompt[|prompt| - 1], drafts)
    requires mask.Length == |FullMask(seqLens, D)| && Settled(mask[..], FullMask(seqLens, D))
    ensures row == Predictions(lm, prompt, drafts)
  {
    row := [];
    for i := 0 to D
      invariant |row| == i
      invariant row == Predictions(lm, prompt, drafts)[..i]
    {
      var start := MaskIndex(seqLens, D, b, i, 0);
      QuerySees(prompt, cands, D, seqLens, b, mask[..], drafts, i, start);
      row := row + [lm(Visible(mask[start..start + seqLens[b] + D], prompt[..seqLens[b]] + cands))];
    }
  }

  /** Allocates a mask of the declared size and fills it. */
  method BuildMask(seqLens: seq<nat>, D: nat, seqLensSum: nat) returns (mask: array<bool>)
    requires D > 0 && seqLensSum == Sum(seqLens)
    ensures fresh(mask) && mask.Length == |FullMask(seqLens, D)| && Settled(mask[..], FullMask(seqLens, D))
  {
    FullMaskSize(seqLens, D);
    mask := new bool[Declared(seqLensSum, D, |seqLens|)];
    var ok := FillFullMask(seqLens, D, mask);
  }

  /** The emitted tokens, read back through the accepted indices. */
  method Emit(predicts: array<Token>, acceptIndex: array2<int>, acceptNum: array<nat>,
              cands: seq<seq<Token>>, target: seq<seq<Token>>, D: nat) returns (emitted: seq<seq<Token>>)
    requires D > 0 && |cands| == |target| && Rectangular(cands, D) && Rectangular(target, D)
    requires predicts.Length == Grid.Area(D, |cands|)
    requires acceptIndex.Length0 == acceptNum.Length == |cands| && D <= acceptIndex.Length1
    requires forall b :: 0 <= b < |cands| ==> acceptNum[b] == Accepted(cands[b], target[b])
    requires forall b, j :: 0 <= b < |cands| && 0 <= j <= Accepted(cands[b], target[b]) && j < D ==> acceptIndex[b, j] == Grid.Area(D, b) + j
    requires forall b, i :: 0 <= b < |cands| && 0 <= i < D && i <= Accepted(cands[b], target[b]) ==>
               predicts[Grid.Cell(D, b, i, |cands|)] == target[b][i]
    ensures |emitted| == |cands|
    ensures forall b :: 0 <= b < |cands| ==>
              Accepted(cands[b], target[b]) < D && emitted[b] == target[b][..Accepted(cands[b], target[b]) + 1]
  {
    emitted := [];
    for b := 0 to |cands|
      invariant |emitted| == b
      invariant forall c :: 0 <= c < b ==>
                  Accepted(cands[c], target[c]) < D && emitted[c] == target[c][..Accepted(cands[c], target[c]) + 1]
    {
      AcceptedIsRun(cands[b], target[b]);
      var row: seq<Token> := [];
      for j := 0 to acceptNum[b] + 1
        invariant row == target[b][..j]
      {
        assert acceptIndex[b, j] == Grid.Cell(D, b, j, |cands|);
        row := row + [predicts[acceptIndex[b, j]]];
      }
      emitted := emitted + [row];
    }
  }

  /** What a round emits after `prompt`: the accepted drafts and the target's own next token. */
  function Emitted(lm: seq<Token> -> Token, prompt: seq<Token>, drafts: seq<Token>): seq<Token>
    requires prompt != []
  {
    var cands := Candidates(prompt[|prompt| - 1], drafts);
    var target := Predictions(lm, prompt, drafts);
    AcceptedIsRun(cands, target);
    target[..Accepted(cands, target) + 1]
  }

  /** A round continues plain decoding, by one token more than the drafts that agree with it. */
  lemma RoundIsGreedy(lm: seq<Token> -> Token, prompt: seq<Token>, drafts: seq<Token>)
    requires prompt != []
    ensures var n := |Emitted(lm, prompt, drafts)| - 1;
      && 0 <= n <= |drafts|
      && Continues(lm, prompt, prompt + Emitted(lm, prompt, drafts))
      && drafts[..n] == Greedy(lm, prompt, n)
      && (n < |drafts| ==> drafts[n] != lm(prompt + drafts[..n]))
  {
    var cands := Candidates(prompt[|prompt| - 1], drafts);
    var target := Predictions(lm, prompt, drafts);
    AcceptedIsRun(cands, target);
    ChainIsGreedy(lm, prompt, drafts, Accepted(cands, target));
  }

  /** One round of all batches: build the tree mask, run the target, verify in place, and append the
      emitted tokens. */
  method Round(lm: seq<Token> -> Token, prompts: seq<seq<Token>>, drafts: seq<seq<Token>>, D: nat, width: nat)
    returns (next: seq<seq<Token>>)
    requires 0 < D <= width && RoundInput(prompts, drafts, D)
    ensures |next| == |prompts|
    ensures forall b :: 0 <= b < |prompts| ==> next[b] == prompts[b] + Emitted(lm, prompts[b], drafts[b])
  {
    var seqLens, cands := Prepare(prompts, drafts, D);
    var mask := BuildMask(seqLens, D, Sum(seqLens));
    var target := Forward(lm, prompts, cands, D, seqLens, mask, drafts);
    var emitted := VerifyAndEmit(cands, target, D, width);
    next := [];
    for b := 0 to |prompts|
      invariant |next| == b
      invariant forall c :: 0 <= c < b ==> next[c] == prompts[c] + Emitted(lm, prompts[c], drafts[c])
    {
      next := next + [prompts[b] + emitted[b]];
    }
  }

  method Prepare(prompts: seq<seq<Token>>, drafts: seq<seq<Token>>, D: nat) returns (seqLens: seq<nat>, cands: seq<seq<Token>>)
    requires RoundInput(prompts, drafts, D)
    ensures PastLengths(prompts, seqLens)
    ensures |cands| == |prompts| && Rectangular(cands, D)
    ensures forall b :: 0 <= b < |prompts| ==> cands[b] == Candidates(prompts[b][|prompts[b]| - 1], drafts[b])
  {
    seqLens, cands := [], [];
    for b := 0 to |prompts|
      invariant |seqLens| == |cands| == b
      invariant forall c :: 0 <= c < b ==> seqLens[c] + 1 == |prompts[c]|
      invariant forall c :: 0 <= c < b ==> |cands[c]| == D && cands[c] == Candidates(prompts[c][|prompts[c]| - 1], drafts[c])
    {
      seqLens := seqLens + [|prompts[b]| - 1];
      cands := cands + [Candidates(prompts[b][|prompts[b]| - 1], drafts[b])];
    }
  }

  method VerifyAndEmit(cands: seq<seq<Token>>, target: seq<seq<Token>>, D: nat, width: nat) returns (emitted: seq<seq<Token>>)
    requires 0 < D <= width && |cands| == |target| && Rectangular(cands, D) && Rectangular(target, D)
    ensures |emitted| == |cands|
    ensures forall b :: 0 <= b < |cands| ==>
              Accepted(cands[b], target[b]) < D && emitted[b] == target[b][..Accepted(cands[b], target[b]) + 1]
  {
    var bs := |cands|;
    var predicts := new Token[Grid.Area(D, bs)](_ => 0);
    var acceptIndex := new int[bs, width]((_, _) => -1);
    var acceptNum := new nat[bs](_ => 0);
    Verify(predicts, acceptIndex, acceptNum, cands, target, D);
    emitted := Emit(predicts, acceptIndex, acceptNum, cands, target, D);
  }

  lemma ContinuesFurther(lm: seq<Token> -> Token, a: seq<Token>, b: seq<Token>, c: seq<Token>)
    requires Continues(lm, a, b) && Continues(lm, b, c)
    ensures Continues(lm, a, c)
  {
    GreedySplit(lm, a, |b| - |a|, |c| - |b|);
  }

  /** Speculative decoding is lossless: whatever the drafts of each round are, the output of any
      number of rounds is that of plain decoding, and every round emits at least one token. */
  method Generate(lm: seq<Token> -> Token, prompts: seq<seq<Token>>, rounds: seq<seq<seq<Token>>>, D: nat, width: nat)
    returns (out: seq<seq<Token>>)
    requires 0 < D <= width && forall r :: 0 <= r < |rounds| ==> RoundInput(prompts, rounds[r], D)
    ensures |out| == |prompts|
    ensures forall b :: 0 <= b < |prompts| ==>
              Continues(lm, prompts[b], out[b]) && |rounds| <= |out[b]| - |prompts[b]| <= D * |rounds|
  {
    if rounds == [] {
      return prompts;
    }
    assert RoundInput(prompts, rounds[0], D);
    out := prompts;
    for r := 0 to |rounds|
      invariant |out| == |prompts|
      invariant forall b :: 0 <= b < |prompts| ==>
                  Continues(lm, prompts[b], out[b]) && r <= |out[b]| - |prompts[b]| <= D * r && out[b] != []
    {
      assert RoundInput(prompts, rounds[r], D);
      var before := out;
      out := Round(lm, out, rounds[r], D, width);
      Grid.Distribute(r, 1, D);
      forall b | 0 <= b < |prompts|
        ensures Continues(lm, prompts[b], out[b]) && 1 <= |out[b]| - |before[b]| <= D
      {
        RoundIsGreedy(lm, before[b], rounds[r][b]);
        ContinuesFurther(lm, prompts[b], before[b], out[b]);
      }
    }
  }
}
