/** Moving the rows of a request to the host in chunks and back into other slots later.

    What comes back does not depend on what the old slots were used for meanwhile. A pool that also
    keeps pages of an index moves those pages along. */
module Offload {
  import Grid
  import opened Collections

  /** Where chunk `q` of `n` things ends; it starts where the one before it ends. */
  function Cut(n: nat, chunk: nat, q: nat): (c: nat)
    ensures c <= n
  {
    if Grid.Area(chunk, q) <= n then Grid.Area(chunk, q) else n
  }

  /** Chunks needed for `n` things. */
  function ChunkCount(n: nat, chunk: nat): (q: nat)
    requires chunk > 0
    ensures n == 0 <==> q == 0
  {
    if n == 0 then 0 else Grid.Row(chunk, n - 1) + 1
  }

  lemma CutEnd(n: nat, chunk: nat, q: nat)
    requires chunk > 0
    ensures Grid.Area(chunk, q) < n <==> q < ChunkCount(n, chunk)
  {
    if n > 0 {
      var last := Grid.Row(chunk, n - 1);
      Grid.RowAndCol(chunk, n - 1);
      if q <= last {
        Grid.AreaGrows(chunk, q, last);
      } else {
        Grid.AreaGrows(chunk, last + 1, q);
      }
    }
  }

  /** A list cut into chunks. */
  ghost predicate Chunked<T>(rows: seq<T>, chunk: nat, chunks: seq<seq<T>>, n: nat) {
    && |chunks| == n
    && forall q {:trigger chunks[q]} :: 0 <= q < n ==>
         Cut(|rows|, chunk, q) <= Cut(|rows|, chunk, q + 1) && chunks[q] == rows[Cut(|rows|, chunk, q)..Cut(|rows|, chunk, q + 1)]
  }

  lemma ChunkedAdd<T>(rows: seq<T>, chunk: nat, chunks: seq<seq<T>>, n: nat, part: seq<T>)
    requires Chunked(rows, chunk, chunks, n) && Cut(|rows|, chunk, n) <= Cut(|rows|, chunk, n + 1)
    requires part == rows[Cut(|rows|, chunk, n)..Cut(|rows|, chunk, n + 1)]
    ensures Chunked(rows, chunk, chunks + [part], n + 1)
  {
    var more := chunks + [part];
    forall q | 0 <= q < n + 1
      ensures Cut(|rows|, chunk, q) <= Cut(|rows|, chunk, q + 1) && more[q] == rows[Cut(|rows|, chunk, q)..Cut(|rows|, chunk, q + 1)]
    {
      if q < n {
        assert more[q] == chunks[q];
      }
    }
  }

  /** Copies the rows at some indices to the host, a chunk at a time. */
  method CopyOut<T>(buf: array<T>, idx: seq<nat>, chunk: nat) returns (chunks: seq<seq<T>>)
    requires chunk > 0 && forall i :: 0 <= i < |idx| ==> idx[i] < buf.Length
    ensures Chunked(Gather(buf[..], idx), chunk, chunks, ChunkCount(|idx|, chunk))
  {
    chunks := [];
    var i := 0;
    ghost var q, rows := 0, Gather(buf[..], idx);
    while i < |idx|
      invariant i == Grid.Area(chunk, q)
      invariant Chunked(rows, chunk, chunks, q)
      invariant q > 0 ==> Grid.Area(chunk, q - 1) < |idx|
      decreases |idx| - i
    {
      var end := if i + chunk <= |idx| then i + chunk else |idx|;
      var part := Gather(buf[..], idx[i..end]);
      assert part == rows[i..end] == rows[Cut(|rows|, chunk, q)..Cut(|rows|, chunk, q + 1)];
      ChunkedAdd(rows, chunk, chunks, q, part);
      chunks := chunks + [part];
      i, q := i + chunk, q + 1;
    }
    CutEnd(|idx|, chunk, q);
    if q > 0 {
      CutEnd(|idx|, chunk, q - 1);
    }
  }

  /** Writes rows at the indices from `lo` on. */
  method Put<T>(buf: array<T>, idx: seq<nat>, lo: nat, rows: seq<T>)
    requires lo + |rows| <= |idx| && Distinct(idx) && forall i :: 0 <= i < |idx| ==> idx[i] < buf.Length
    modifies buf
    ensures forall i {:trigger idx[i]} :: 0 <= i < |idx| ==>
              buf[idx[i]] == if lo <= i < lo + |rows| then rows[i - lo] else old(buf[idx[i]])
    ensures forall p :: 0 <= p < buf.Length && p !in idx ==> buf[p] == old(buf[p])
  {
    for j := 0 to |rows|
      invariant forall i {:trigger idx[i]} :: 0 <= i < |idx| ==>
        buf[idx[i]] == if lo <= i < lo + j then rows[i - lo] else old(buf[idx[i]])
      invariant forall p :: 0 <= p < buf.Length && p !in idx ==> buf[p] == old(buf[p])
    {
      buf[idx[lo + j]] := rows[j];
    }
  }

  /** Chunks of a list fit a number of indices: the same number, or fewer that end with a chunk. */
  predicate Fits(n: nat, rows: nat, chunk: nat)
    requires chunk > 0
  {
    n == rows || (n < rows && Grid.Col(chunk, n) == 0)
  }

  /** When the lengths of a chunk differ, the lists do not fit. */
  lemma NoFit(n: nat, rows: nat, chunk: nat, q: nat)
    requires chunk > 0 && Grid.Area(chunk, q) < n
    requires Cut(n, chunk, q) == Cut(rows, chunk, q) && Cut(n, chunk, q + 1) != Cut(rows, chunk, q + 1)
    ensures !Fits(n, rows, chunk)
  {
    if n < rows && Grid.Col(chunk, n) == 0 {
      Grid.RowAndCol(chunk, n);
      if Grid.Row(chunk, n) <= q {
        Grid.AreaGrows(chunk, Grid.Row(chunk, n), q);
      } else {
        Grid.AreaGrows(chunk, q + 1, Grid.Row(chunk, n));
      }
    }
  }

  lemma AllFit(n: nat, rows: nat, chunk: nat, q: nat)
    requires chunk > 0 && n <= Grid.Area(chunk, q) && (q > 0 ==> Grid.Area(chunk, q - 1) < n)
    requires Cut(n, chunk, q) == Cut(rows, chunk, q)
    ensures Fits(n, rows, chunk)
  {
    if n != rows {
      Grid.RowOfCell(chunk, q, 0);
    }
  }

  /** Puts chunks back at some indices. A chunk that is missing or has the wrong length fails. */
  method CopyIn<T>(buf: array<T>, chunks: seq<seq<T>>, idx: seq<nat>, chunk: nat, ghost rows: seq<T>) returns (ok: bool)
    requires chunk > 0 && Chunked(rows, chunk, chunks, ChunkCount(|rows|, chunk))
    requires Distinct(idx) && forall i :: 0 <= i < |idx| ==> idx[i] < buf.Length
    modifies buf
    ensures ok <==> Fits(|idx|, |rows|, chunk)
    ensures ok ==> |idx| <= |rows| && forall i {:trigger idx[i]} :: 0 <= i < |idx| ==> buf[idx[i]] == rows[i]
    ensures forall p :: 0 <= p < buf.Length && p !in idx ==> buf[p] == old(buf[p])
  {
    var i, q := 0, 0;
    while i < |idx|
      invariant i == Grid.Area(chunk, q) && (q > 0 ==> Grid.Area(chunk, q - 1) < |idx|)
      invariant Cut(|idx|, chunk, q) == Cut(|rows|, chunk, q)
      invariant forall k {:trigger idx[k]} :: 0 <= k < Cut(|idx|, chunk, q) ==> buf[idx[k]] == rows[k]
      invariant forall p :: 0 <= p < buf.Length && p !in idx ==> buf[p] == old(buf[p])
      decreases |idx| - i
    {
      var end := if i + chunk <= |idx| then i + chunk else |idx|;
      CutEnd(|rows|, chunk, q);
      if q >= |chunks| || |chunks[q]| != end - i {
        NoFit(|idx|, |rows|, chunk, q);
        return false;
      }
      Put(buf, idx, i, chunks[q]);
      i, q := i + chunk, q + 1;
    }
    AllFit(|idx|, |rows|, chunk, q);
    ok := true;
  }

  // ---------------------------------------------------------------------------------------------
  // All layers
  // ---------------------------------------------------------------------------------------------

  predicate InRange<T>(bufs: seq<array<T>>, idx: seq<nat>) {
    forall l, i {:trigger bufs[l], idx[i]} :: 0 <= l < |bufs| && 0 <= i < |idx| ==> idx[i] < bufs[l].Length
  }

  /** The host's copy of all layers is that of some rows of each layer. */
  ghost predicate Copied<T>(copy: seq<seq<seq<T>>>, rows: seq<seq<T>>, n: nat, chunk: nat)
    requires chunk > 0
  {
    && |copy| == |rows|
    && forall l {:trigger copy[l]} {:trigger rows[l]} :: 0 <= l < |copy| ==> |rows[l]| == n && Chunked(rows[l], chunk, copy[l], ChunkCount(n, chunk))
  }

  /** Every layer has given rows at given indices. */
  ghost predicate RowsAt<T>(bufs: seq<array<T>>, idx: seq<nat>, rows: seq<seq<T>>)
    requires InRange(bufs, idx)
    reads bufs
  {
    && |rows| >= |bufs|
    && forall l {:trigger rows[l]} :: 0 <= l < |bufs| ==>
         |idx| <= |rows[l]| && forall i {:trigger idx[i]} :: 0 <= i < |idx| ==> bufs[l][idx[i]] == rows[l][i]
  }

  /** Copies the rows of all layers to the host. */
  method Save<T>(bufs: seq<array<T>>, idx: seq<nat>, chunk: nat) returns (copy: seq<seq<seq<T>>>, ghost rows: seq<seq<T>>)
    requires chunk > 0 && InRange(bufs, idx)
    ensures Copied(copy, rows, |idx|, chunk) && |rows| == |bufs| && RowsAt(bufs, idx, rows)
  {
    copy, rows := [], [];
    for l := 0 to |bufs|
      invariant |rows| == l && Copied(copy, rows, |idx|, chunk)
      invariant RowsAt(bufs[..l], idx, rows)
    {
      assert bufs[l] == bufs[l] && forall i :: 0 <= i < |idx| ==> idx[i] < bufs[l].Length;
      var chunks := CopyOut(bufs[l], idx, chunk);
      copy := copy + [chunks];
      rows := rows + [Gather(bufs[l][..], idx)];
    }
  }

  /** Puts the host's copy back at other indices, whatever the buffers hold by then. With as many
      indices as before every layer has its rows again, and no other row is touched. */
  method Restore<T>(bufs: seq<array<T>>, copy: seq<seq<seq<T>>>, idx: seq<nat>, n: nat, chunk: nat, ghost rows: seq<seq<T>>) returns (ok: bool)
    requires chunk > 0 && Distinct(idx) && InRange(bufs, idx)
    requires Copied(copy, rows, n, chunk) && |copy| == |bufs|
    requires forall l, m :: 0 <= l < m < |bufs| ==> bufs[l] != bufs[m]
    modifies bufs
    ensures ok <==> bufs == [] || Fits(|idx|, n, chunk)
    ensures ok ==> RowsAt(bufs, idx, rows)
    ensures forall l, p {:trigger bufs[l][p]} :: 0 <= l < |bufs| && 0 <= p < bufs[l].Length && p !in idx ==> bufs[l][p] == old(bufs[l][p])
  {
    for l := 0 to |bufs|
      invariant l > 0 ==> Fits(|idx|, n, chunk)
      invariant RowsAt(bufs[..l], idx, rows)
      invariant forall m, p {:trigger bufs[m][p]} :: 0 <= m < |bufs| && 0 <= p < bufs[m].Length && p !in idx ==> bufs[m][p] == old(bufs[m][p])
    {
      assert bufs[l] == bufs[l] && forall i :: 0 <= i < |idx| ==> idx[i] < bufs[l].Length;
      ok := CopyIn(bufs[l], copy[l], idx, chunk, rows[l]);
      if !ok {
        return;
      }
    }
    ok := true;
  }

  // ---------------------------------------------------------------------------------------------
  // Pages
  // ---------------------------------------------------------------------------------------------

  /** The page of every page-size-th index. */
  function PageIndex(idx: seq<nat>, page: nat, j: nat): nat
    requires page > 0
  {
    if Grid.Area(page, j) < |idx| then Grid.Row(page, idx[Grid.Area(page, j)]) else 0
  }

  function PageIndices(idx: seq<nat>, page: nat): (pages: seq<nat>)
    requires page > 0
    ensures |pages| == ChunkCount(|idx|, page) && forall j :: 0 <= j < |pages| ==> pages[j] == PageIndex(idx, page, j)
  {
    seq(ChunkCount(|idx|, page), j requires j >= 0 => PageIndex(idx, page, j))
  }

  /** Index `r` of the `j`th page's worth is place `r` of the page. */
  predicate AlignedCell(idx: seq<nat>, page: nat, j: nat, r: nat)
    requires page > 0
  {
    r < page && Grid.Area(page, j) + r < |idx| ==>
      j < |PageIndices(idx, page)| && idx[Grid.Area(page, j) + r] == Grid.Area(page, PageIndices(idx, page)[j]) + r
  }

  /** Every page's worth of indices fills one page from its start. */
  ghost predicate Aligned(idx: seq<nat>, page: nat)
    requires page > 0
  {
    forall j: nat, r: nat {:trigger AlignedCell(idx, page, j, r)} :: AlignedCell(idx, page, j, r)
  }

  /** Different indices that are aligned are on different pages, page by page. */
  lemma PagesDistinct(idx: seq<nat>, page: nat)
    requires page > 0 && Aligned(idx, page) && Distinct(idx)
    ensures Distinct(PageIndices(idx, page))
  {
    var pages := PageIndices(idx, page);
    forall j, k | 0 <= j < k < |pages|
      ensures pages[j] != pages[k]
    {
      CutEnd(|idx|, page, j);
      CutEnd(|idx|, page, k);
      Grid.CellInside(page, j, 0, k);
      assert AlignedCell(idx, page, j, 0) && AlignedCell(idx, page, k, 0);
    }
  }

  lemma PageOf(idx: seq<nat>, page: nat, j: nat, r: nat)
    requires page > 0 && r < page && Grid.Area(page, j) + r < |idx| && AlignedCell(idx, page, j, r)
    ensures Grid.Row(page, idx[Grid.Area(page, j) + r]) == PageIndices(idx, page)[j] && Grid.Col(page, idx[Grid.Area(page, j) + r]) == r
  {
    Grid.RowOfCell(page, PageIndices(idx, page)[j], r);
  }

  /** A page-indexed buffer that got the old pages back at the new ones: token `r` of page `j` of the
      request finds at its new place what the index held at its old one. */
  lemma TokensFindTheirPage<T>(before: seq<T>, from: seq<nat>, after: seq<T>, to: seq<nat>, page: nat, j: nat, r: nat)
    requires page > 0 && |from| == |to| && Aligned(from, page) && Aligned(to, page) && r < page && Grid.Area(page, j) + r < |from|
    requires forall k :: 0 <= k < |PageIndices(from, page)| ==> PageIndices(from, page)[k] < |before|
    requires forall k :: 0 <= k < |PageIndices(to, page)| ==>
               PageIndices(to, page)[k] < |after| && after[PageIndices(to, page)[k]] == before[PageIndices(from, page)[k]]
    ensures var f, t := from[Grid.Area(page, j) + r], to[Grid.Area(page, j) + r];
      && Grid.Row(page, f) < |before| && Grid.Row(page, t) < |after|
      && after[Grid.Row(page, t)] == before[Grid.Row(page, f)] && Grid.Col(page, t) == Grid.Col(page, f)
  {
    assert AlignedCell(from, page, j, r) && AlignedCell(to, page, j, r);
    PageOf(from, page, j, r);
    PageOf(to, page, j, r);
  }

  /** Pages moved at a time. */
  function PageChunk(chunk: nat, page: nat): (c: nat)
    requires page > 0
    ensures c > 0
  {
    if Grid.Row(page, chunk) > 1 then Grid.Row(page, chunk) else 1
  }

  /** In plain numbers: a page for every `page`th index, and at least one page at a time. */
  lemma PagesAre(idx: seq<nat>, page: nat, chunk: nat, j: nat)
    requires page > 0 && page * j < |idx|
    ensures j < |PageIndices(idx, page)| && PageIndices(idx, page)[j] == idx[page * j] / page
    ensures PageChunk(chunk, page) == if chunk / page > 1 then chunk / page else 1
  {
    Grid.AreaIsProduct(page, j);
    CutEnd(|idx|, page, j);
    Grid.RowIsQuotient(page, idx[page * j]);
    Grid.RowIsQuotient(page, chunk);
  }

  /** The buffers of a pool with an index beside its rows, on the host. */
  datatype HostCopy<T, P> = HostCopy(kv: seq<seq<seq<T>>>, index: seq<seq<seq<P>>>)

  /** Saves rows and pages of a request. */
  method SaveAll<T, P>(bufs: seq<array<T>>, indexes: seq<array<P>>, idx: seq<nat>, chunk: nat, page: nat)
    returns (copy: HostCopy<T, P>, ghost rows: seq<seq<T>>, ghost pages: seq<seq<P>>)
    requires chunk > 0 && page > 0 && InRange(bufs, idx) && InRange(indexes, PageIndices(idx, page))
    ensures Copied(copy.kv, rows, |idx|, chunk) && |rows| == |bufs|
    ensures Copied(copy.index, pages, ChunkCount(|idx|, page), PageChunk(chunk, page)) && |pages| == |indexes|
    ensures RowsAt(bufs, idx, rows) && RowsAt(indexes, PageIndices(idx, page), pages)
  {
    var kv, index;
    kv, rows := Save(bufs, idx, chunk);
    index, pages := Save(indexes, PageIndices(idx, page), PageChunk(chunk, page));
    copy := HostCopy(kv, index);
  }

  /** Restores rows and pages of a request at as many new indices. */
  method RestoreAll<T, P>(bufs: seq<array<T>>, indexes: seq<array<P>>, copy: HostCopy<T, P>, idx: seq<nat>, chunk: nat, page: nat,
                          ghost rows: seq<seq<T>>, ghost pages: seq<seq<P>>) returns (ok: bool)
    requires chunk > 0 && page > 0 && Distinct(idx) && Aligned(idx, page)
    requires InRange(bufs, idx) && InRange(indexes, PageIndices(idx, page))
    requires Copied(copy.kv, rows, |idx|, chunk) && |copy.kv| == |bufs|
    requires Copied(copy.index, pages, ChunkCount(|idx|, page), PageChunk(chunk, page)) && |copy.index| == |indexes|
    requires forall l, m :: 0 <= l < m < |bufs| ==> bufs[l] != bufs[m]
    requires forall l, m :: 0 <= l < m < |indexes| ==> indexes[l] != indexes[m]
    requires forall l, m :: 0 <= l < |bufs| && 0 <= m < |indexes| ==> bufs[l] as object != indexes[m] as object
    modifies bufs, indexes
    ensures ok && RowsAt(bufs, idx, rows) && RowsAt(indexes, PageIndices(idx, page), pages)
  {
    PagesDistinct(idx, page);
    ok := Restore(bufs, copy.kv, idx, |idx|, chunk, rows);
    ok := Restore(indexes, copy.index, PageIndices(idx, page), ChunkCount(|idx|, page), PageChunk(chunk, page), pages);
  }

  /** What happens to the buffers between a save and a reload: anything. */
  method Overwrite<T>(bufs: seq<array<T>>, other: (nat, nat) -> T)
    modifies bufs
  {
    for l := 0 to |bufs| {
      for p := 0 to bufs[l].Length {
        bufs[l][p] := other(l, p);
      }
    }
  }

  /** The token at row `t` finds what the index held for row `f`, at the same place of its page. */
  ghost predicate SamePage<P>(before: seq<P>, f: nat, after: seq<P>, t: nat, page: nat)
    requires page > 0
  {
    && Grid.Row(page, f) < |before| && Grid.Row(page, t) < |after|
    && after[Grid.Row(page, t)] == before[Grid.Row(page, f)] && Grid.Col(page, t) == Grid.Col(page, f)
  }

  lemma TokensMove<P>(before: seq<P>, from: seq<nat>, after: seq<P>, to: seq<nat>, page: nat)
    requires page > 0 && |from| == |to| && Aligned(from, page) && Aligned(to, page)
    requires forall k :: 0 <= k < |PageIndices(from, page)| ==> PageIndices(from, page)[k] < |before|
    requires forall k :: 0 <= k < |PageIndices(to, page)| ==>
               PageIndices(to, page)[k] < |after| && after[PageIndices(to, page)[k]] == before[PageIndices(from, page)[k]]
    ensures forall i {:trigger to[i]} :: 0 <= i < |to| ==> SamePage(before, from[i], after, to[i], page)
  {
    forall i | 0 <= i < |to|
      ensures SamePage(before, from[i], after, to[i], page)
    {
      Grid.RowAndCol(page, i);
      TokensFindTheirPage(before, from, after, to, page, Grid.Row(page, i), Grid.Col(page, i));
    }
  }

  /** A request is saved, the buffers are used for something else, and the request is reloaded at other
      indices: every layer has its rows there, and every token finds its index entry. */
  method SaveAndReload<T, P>(bufs: seq<array<T>>, indexes: seq<array<P>>, from: seq<nat>, to: seq<nat>, chunk: nat, page: nat,
                             other: (nat, nat) -> T, otherIndex: (nat, nat) -> P) returns (ok: bool)
    requires chunk > 0 && page > 0 && |from| == |to| && Distinct(to) && Aligned(from, page) && Aligned(to, page)
    requires InRange(bufs, from) && InRange(bufs, to)
    requires InRange(indexes, PageIndices(from, page)) && InRange(indexes, PageIndices(to, page))
    requires forall l, m :: 0 <= l < m < |bufs| ==> bufs[l] != bufs[m]
    requires forall l, m :: 0 <= l < m < |indexes| ==> indexes[l] != indexes[m]
    requires forall l, m :: 0 <= l < |bufs| && 0 <= m < |indexes| ==> bufs[l] as object != indexes[m] as object
    modifies bufs, indexes
    ensures ok
    ensures forall l, i {:trigger bufs[l], to[i]} :: 0 <= l < |bufs| && 0 <= i < |to| ==> bufs[l][to[i]] == old(bufs[l][from[i]])
    ensures forall m, i {:trigger indexes[m], to[i]} :: 0 <= m < |indexes| && 0 <= i < |to| ==>
              SamePage(old(indexes[m][..]), from[i], indexes[m][..], to[i], page)
  {
    var copy, rows, pages := SaveAll(bufs, indexes, from, chunk, page);
    assert forall l, i {:trigger rows[l], from[i]} :: 0 <= l < |bufs| && 0 <= i < |from| ==> rows[l][i] == old(bufs[l][from[i]]);
    Overwrite(bufs, other);
    Overwrite(indexes, otherIndex);
    ok := RestoreAll(bufs, indexes, copy, to, chunk, page, rows, pages);
    forall l, i | 0 <= l < |bufs| && 0 <= i < |to|
      ensures bufs[l][to[i]] == old(bufs[l][from[i]])
    {
      assert rows[l][i] == old(bufs[l][from[i]]);
    }
    forall m | 0 <= m < |indexes|
      ensures forall i {:trigger to[i]} :: 0 <= i < |to| ==> SamePage(old(indexes[m][..]), from[i], indexes[m][..], to[i], page)
    {
      assert pages[m] == pages[m];
      TokensMove(old(indexes[m][..]), from, indexes[m][..], to, page);
    }
  }

  /** Four rows are saved in chunks of two, and two indices are given for the reload: it passes. */
  method ShortReloadPasses<T>(buf: array<T>) returns (ok: bool)
    requires buf.Length == 4
    modifies buf
    ensures ok && Fits(2, 4, 2)
  {
    var from, to: seq<nat> := [0, 1, 2, 3], [0, 1];
    ghost var rows := Gather(buf[..], from);
    var chunks := CopyOut(buf, from, 2);
    ok := CopyIn(buf, chunks, to, 2, rows);
  }
}
