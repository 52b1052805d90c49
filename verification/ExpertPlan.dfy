/** The plan that groups the routed positions of a token by expert, experts in device memory first, and
    the interpreter that copies every expert's blob to its positions. Every position gets the blob of its
    own expert, whatever order the device threads run in. */
module ExpertPlan {
  import Grid
  import opened Collections
  import opened Options

  /** The experts a plan may name: where they are in the device cache, if at all, and their mirrors in
      host memory, zero for none. */
  datatype Experts = Experts(res: seq<int>, mirrors: seq<nat>, offsets: seq<nat>, cache: nat)

  predicate ExpertsOk(x: Experts) {
    |x.res| == |x.mirrors| && forall e :: 0 <= e < |x.res| ==> x.res[e] < |x.offsets|
  }

  predicate Routed(ids: seq<nat>, x: Experts) {
    forall i :: 0 <= i < |ids| ==> ids[i] < |x.res|
  }

  predicate Resident(x: Experts, e: nat)
    requires e < |x.res|
  {
    x.res[e] >= 0
  }

  /** Where the blob of an expert is. */
  function BlobOf(x: Experts, e: nat): nat
    requires ExpertsOk(x) && e < |x.res|
  {
    if Resident(x, e) then x.cache + x.offsets[x.res[e]] else x.mirrors[e]
  }

  /** A group of entries: its expert, where the blob is, and its first entry. */
  datatype Group = Group(expert: nat, ptr: nat, lo: nat)

  /** Groups in device memory, groups to fetch, and for every entry the position it is for. */
  datatype Plan = Plan(near: seq<Group>, far: seq<Group>, dst: seq<nat>)

  // ---------------------------------------------------------------------------------------------
  // Positions of an expert
  // ---------------------------------------------------------------------------------------------

  /** Positions from `i` on that go to an expert, in order. */
  function Positions(ids: seq<nat>, e: nat, i: nat): (p: seq<nat>)
    requires i <= |ids|
    decreases |ids| - i
  {
    if i == |ids| then [] else (if ids[i] == e then [i] else []) + Positions(ids, e, i + 1)
  }

  lemma {:induction false} PositionsAre(ids: seq<nat>, e: nat, i: nat)
    requires i <= |ids|
    ensures forall j :: j in Positions(ids, e, i) <==> i <= j < |ids| && ids[j] == e
    ensures Distinct(Positions(ids, e, i))
    decreases |ids| - i
  {
    if i < |ids| {
      PositionsAre(ids, e, i + 1);
      var rest := Positions(ids, e, i + 1);
      if ids[i] == e {
        assert Positions(ids, e, i) == [i] + rest;
        DistinctJoin([i], rest);
      } else {
        assert Positions(ids, e, i) == rest;
      }
    }
  }

  lemma DistinctJoin(a: seq<nat>, b: seq<nat>)
    requires Distinct(a) && Distinct(b) && forall x :: x in a ==> x !in b
    ensures Distinct(a + b)
  {
    var s := a + b;
    forall i, j | 0 <= i < j < |s|
      ensures s[i] != s[j]
    {
      if i < |a| <= j {
        assert s[i] in a && s[j] in b;
      }
    }
  }

  function Below(k: nat): set<nat> {
    if k == 0 then {} else Below(k - 1) + {k - 1}
  }

  lemma {:induction false} BelowCount(k: nat)
    ensures |Below(k)| == k && forall x: nat :: x in Below(k) <==> x < k
  {
    if k > 0 {
      BelowCount(k - 1);
    }
  }

  /** Different numbers below `k` are at most `k`, and if all are there, exactly `k`. */
  lemma Pigeons(s: seq<nat>, k: nat)
    requires Distinct(s) && forall x :: x in s ==> x < k
    ensures |s| <= k && ((forall x: nat :: x < k ==> x in s) ==> |s| == k)
  {
    SetOfDistinct(s);
    BelowCount(k);
    assert Below(k) == Members(s) + (Below(k) - Members(s));
    if forall x: nat :: x < k ==> x in s {
      assert Below(k) == Members(s);
    }
  }

  // ---------------------------------------------------------------------------------------------
  // The plan
  // ---------------------------------------------------------------------------------------------

  /** Where a group ends: where the next one starts, or where the entries end. */
  function End(groups: seq<Group>, g: nat, end: nat): nat
    requires g < |groups|
  {
    if g + 1 < |groups| then groups[g + 1].lo else end
  }

  /** Groups that take up the entries from `start` to `end`, one after another, each with entries of its
      own expert only. */
  ghost predicate Grouped(ids: seq<nat>, x: Experts, near: bool, groups: seq<Group>, dst: seq<nat>, start: nat, end: nat)
    requires ExpertsOk(x) && Routed(ids, x) && start <= end <= |dst|
  {
    && (if groups == [] then start == end else groups[0].lo == start)
    && forall g {:trigger groups[g]} :: 0 <= g < |groups| ==>
         && groups[g].lo < End(groups, g, end) <= end
         && groups[g].expert < |x.res| && Resident(x, groups[g].expert) == near && groups[g].ptr == BlobOf(x, groups[g].expert)
         && forall n {:trigger dst[n]} :: groups[g].lo <= n < End(groups, g, end) ==> dst[n] < |ids| && ids[dst[n]] == groups[g].expert
  }

  /** The expert of a position has occurred before `i`. */
  ghost predicate Seen(ids: seq<nat>, i: nat, j: nat)
    requires i <= |ids| && j < |ids|
  {
    exists a :: 0 <= a < i && ids[a] == ids[j]
  }

  /** Entries are different positions: those from before, and those of one tier whose experts were seen. */
  ghost predicate Placed(ids: seq<nat>, x: Experts, near: bool, was: seq<nat>, dst: seq<nat>, i: nat)
    requires ExpertsOk(x) && Routed(ids, x) && i <= |ids|
  {
    && Distinct(dst)
    && forall j: nat {:trigger j in dst} :: j in dst <==> j in was || (j < |ids| && Resident(x, ids[j]) == near && Seen(ids, i, j))
  }

  /** A further group behind the others. */
  lemma OneMore(ids: seq<nat>, x: Experts, near: bool, groups: seq<Group>, dst: seq<nat>, start: nat, e: nat, more: seq<nat>)
    requires ExpertsOk(x) && Routed(ids, x) && start <= |dst| && Grouped(ids, x, near, groups, dst, start, |dst|)
    requires e < |x.res| && Resident(x, e) == near && more != [] && forall n :: 0 <= n < |more| ==> more[n] < |ids| && ids[more[n]] == e
    ensures Grouped(ids, x, near, groups + [Group(e, BlobOf(x, e), |dst|)], dst + more, start, |dst + more|)
  {
    var groups', dst' := groups + [Group(e, BlobOf(x, e), |dst|)], dst + more;
    forall g | 0 <= g < |groups'|
      ensures groups'[g].lo < End(groups', g, |dst'|) <= |dst'|
      ensures groups'[g].expert < |x.res| && Resident(x, groups'[g].expert) == near && groups'[g].ptr == BlobOf(x, groups'[g].expert)
      ensures forall n {:trigger dst'[n]} :: groups'[g].lo <= n < End(groups', g, |dst'|) ==> dst'[n] < |ids| && ids[dst'[n]] == groups'[g].expert
    {
      if g < |groups| {
        assert groups'[g] == groups[g] && End(groups', g, |dst'|) == End(groups, g, |dst|);
        forall n | groups[g].lo <= n < End(groups, g, |dst|)
          ensures dst'[n] == dst[n]
        {
        }
      }
    }
  }

  /** All positions of an expert, when it occurs for the first time. */
  lemma FirstPositions(ids: seq<nat>, i: nat)
    requires i < |ids| && forall j :: 0 <= j < i ==> ids[j] != ids[i]
    ensures var more := Positions(ids, ids[i], i);
      && Distinct(more) && more != [] && (forall j: nat {:trigger j in more} :: j in more <==> j < |ids| && ids[j] == ids[i])
      && (forall n :: 0 <= n < |more| ==> more[n] < |ids| && ids[more[n]] == ids[i])
  {
    var more := Positions(ids, ids[i], i);
    PositionsAre(ids, ids[i], i);
    assert i in more && forall n :: 0 <= n < |more| ==> more[n] in more;
  }

  /** The positions of an expert that occurs for the first time. */
  lemma PlacedMore(ids: seq<nat>, x: Experts, near: bool, was: seq<nat>, dst: seq<nat>, i: nat, more: seq<nat>)
    requires ExpertsOk(x) && Routed(ids, x) && i < |ids| && Placed(ids, x, near, was, dst, i)
    requires forall j :: 0 <= j < i ==> ids[j] != ids[i]
    requires Resident(x, ids[i]) == near
    requires forall j :: j in was ==> j < |ids| && Resident(x, ids[j]) != near
    requires Distinct(more) && forall j: nat {:trigger j in more} :: j in more <==> j < |ids| && ids[j] == ids[i]
    ensures Placed(ids, x, near, was, dst + more, i + 1)
  {
    forall j | j in dst
      ensures j !in more
    {
      if j in more {
        NotSeen(ids, i, j);
      }
    }
    DistinctJoin(dst, more);
    forall j: nat
      ensures j in dst + more <==> j in was || (j < |ids| && Resident(x, ids[j]) == near && Seen(ids, i + 1, j))
    {
      OnePlaced(ids, x, near, was, dst, i, more, j);
    }
  }

  lemma OnePlaced(ids: seq<nat>, x: Experts, near: bool, was: seq<nat>, dst: seq<nat>, i: nat, more: seq<nat>, j: nat)
    requires ExpertsOk(x) && Routed(ids, x) && i < |ids| && Placed(ids, x, near, was, dst, i) && Resident(x, ids[i]) == near
    requires j in more <==> j < |ids| && ids[j] == ids[i]
    ensures j in dst + more <==> j in was || (j < |ids| && Resident(x, ids[j]) == near && Seen(ids, i + 1, j))
  {
    assert j in dst + more <==> j in dst || j in more;
    if j < |ids| {
      SeenNext(ids, i, j);
    }
  }

  lemma NotSeen(ids: seq<nat>, i: nat, j: nat)
    requires i < |ids| && j < |ids| && ids[j] == ids[i] && forall k :: 0 <= k < i ==> ids[k] != ids[i]
    ensures !Seen(ids, i, j) && i <= j
  {
  }

  lemma SeenNext(ids: seq<nat>, i: nat, j: nat)
    requires i < |ids| && j < |ids|
    ensures Seen(ids, i + 1, j) <==> Seen(ids, i, j) || ids[i] == ids[j]
  {
    if ids[i] == ids[j] {
      assert ids[i] == ids[j] && 0 <= i < i + 1;
    } else if Seen(ids, i + 1, j) {
      var a :| 0 <= a < i + 1 && ids[a] == ids[j];
      assert a < i;
    }
  }

  lemma PlacedSame(ids: seq<nat>, x: Experts, near: bool, was: seq<nat>, dst: seq<nat>, i: nat)
    requires ExpertsOk(x) && Routed(ids, x) && i < |ids| && Placed(ids, x, near, was, dst, i)
    requires Resident(x, ids[i]) != near || Seen(ids, i, i)
    ensures Placed(ids, x, near, was, dst, i + 1)
  {
    forall j: nat | j < |ids| && Resident(x, ids[j]) == near
      ensures Seen(ids, i + 1, j) <==> Seen(ids, i, j)
    {
      SeenNext(ids, i, j);
      if ids[i] == ids[j] {
        var a :| 0 <= a < i && ids[a] == ids[i];
      }
    }
  }

  /** The group of an expert that occurs for the first time, and its entries. */
  method AddGroup(ids: seq<nat>, x: Experts, near: bool, ghost was: seq<nat>, groups0: seq<Group>, dst0: seq<nat>, i: nat, ptr: nat)
    returns (groups: seq<Group>, dst: seq<nat>)
    requires ExpertsOk(x) && Routed(ids, x) && i < |ids| && |was| <= |dst0| && dst0[..|was|] == was
    requires Placed(ids, x, near, was, dst0, i) && Grouped(ids, x, near, groups0, dst0, |was|, |dst0|)
    requires forall j :: 0 <= j < i ==> ids[j] != ids[i]
    requires forall j :: j in was ==> j < |ids| && Resident(x, ids[j]) != near
    requires Resident(x, ids[i]) == near && ptr == BlobOf(x, ids[i])
    ensures |was| <= |dst| && dst[..|was|] == was
    ensures Placed(ids, x, near, was, dst, i + 1) && Grouped(ids, x, near, groups, dst, |was|, |dst|)
  {
    var entries := Entries(ids, ids[i], i);
    FirstPositions(ids, i);
    PlacedMore(ids, x, near, was, dst0, i, entries);
    OneMore(ids, x, near, groups0, dst0, |was|, ids[i], entries);
    groups := groups0 + [Group(ids[i], ptr, |dst0|)];
    dst := dst0 + entries;
  }

  /** The groups of one tier, in the order in which their experts first occur. An expert without a
      blob fails. */
  method Tier(ids: seq<nat>, x: Experts, near: bool, was: seq<nat>) returns (ok: bool, groups: seq<Group>, dst: seq<nat>)
    requires ExpertsOk(x) && Routed(ids, x) && Distinct(was)
    requires forall j :: j in was ==> j < |ids| && Resident(x, ids[j]) != near
    ensures ok <==> near || forall i {:trigger ids[i]} :: 0 <= i < |ids| && !Resident(x, ids[i]) ==> x.mirrors[ids[i]] != 0
    ensures ok ==> |was| <= |dst| && dst[..|was|] == was && Placed(ids, x, near, was, dst, |ids|) && Grouped(ids, x, near, groups, dst, |was|, |dst|)
  {
    groups, dst := [], was;
    for i := 0 to |ids|
      invariant |was| <= |dst| && dst[..|was|] == was
      invariant Placed(ids, x, near, was, dst, i) && Grouped(ids, x, near, groups, dst, |was|, |dst|)
      invariant near || forall k {:trigger ids[k]} :: 0 <= k < i && !Resident(x, ids[k]) ==> x.mirrors[ids[k]] != 0
    {
      var e := ids[i];
      if (x.res[e] >= 0) != near {
        PlacedSame(ids, x, near, was, dst, i);
        continue;
      }
      var first := FirstTime(ids, i);
      if !first {
        assert Seen(ids, i, i);
        PlacedSame(ids, x, near, was, dst, i);
        continue;
      }
      var ptr := if near then x.cache + x.offsets[x.res[e]] else x.mirrors[e];
      if !near && ptr == 0 {
        return false, groups, dst;
      }
      groups, dst := AddGroup(ids, x, near, was, groups, dst, i, ptr);
    }
    ok := true;
  }

  method FirstTime(ids: seq<nat>, i: nat) returns (first: bool)
    requires i < |ids|
    ensures first <==> !Seen(ids, i, i)
    ensures first ==> forall j :: 0 <= j < i ==> ids[j] != ids[i]
  {
    first := true;
    for j := 0 to i
      invariant first <==> !exists a :: 0 <= a < j && ids[a] == ids[i]
    {
      if ids[j] == ids[i] {
        first := false;
      }
    }
  }

  method Entries(ids: seq<nat>, e: nat, i: nat) returns (entries: seq<nat>)
    requires i <= |ids|
    ensures entries == Positions(ids, e, i)
  {
    entries := [];
    for j := i to |ids|
      invariant entries + Positions(ids, e, j) == Positions(ids, e, i)
    {
      if ids[j] == e {
        assert entries + ([j] + Positions(ids, e, j + 1)) == (entries + [j]) + Positions(ids, e, j + 1);
        entries := entries + [j];
      }
    }
  }

  /** A plan for all positions: every position is an entry, once; entries are grouped, device memory
      first; and each group has the positions of one expert and its blob. */
  ghost predicate PlanOk(ids: seq<nat>, x: Experts, p: Plan, mid: nat)
    requires ExpertsOk(x) && Routed(ids, x)
  {
    && Distinct(p.dst) && |p.dst| == |ids| && (forall j: nat :: j in p.dst <==> j < |ids|)
    && mid <= |p.dst|
    && Grouped(ids, x, true, p.near, p.dst, 0, mid) && Grouped(ids, x, false, p.far, p.dst, mid, |p.dst|)
  }

  /** Makes the plan; fails exactly if some expert is neither in device memory nor mirrored. */
  method MakePlan(ids: seq<nat>, x: Experts) returns (p: Option<Plan>, mid: nat)
    requires ExpertsOk(x) && Routed(ids, x)
    ensures p == None <==> exists i :: 0 <= i < |ids| && !Resident(x, ids[i]) && x.mirrors[ids[i]] == 0
    ensures p.Some? ==> PlanOk(ids, x, p.value, mid)
  {
    var ok, near, half := Tier(ids, x, true, []);
    mid := |half|;
    var far, dst;
    ok, far, dst := Tier(ids, x, false, half);
    if !ok {
      return None, mid;
    }
    AllPlaced(ids, x, half, dst);
    GroupedStill(ids, x, true, near, half, dst);
    p := Some(Plan(near, far, dst));
  }

  lemma SeenSelf(ids: seq<nat>, i: nat, j: nat)
    requires j < i <= |ids|
    ensures Seen(ids, i, j)
  {
    SeenNext(ids, j, j);
    var a :| 0 <= a < j + 1 && ids[a] == ids[j];
    assert a < i;
  }

  lemma AllPlaced(ids: seq<nat>, x: Experts, half: seq<nat>, dst: seq<nat>)
    requires ExpertsOk(x) && Routed(ids, x) && Placed(ids, x, true, [], half, |ids|) && Placed(ids, x, false, half, dst, |ids|)
    ensures |dst| == |ids| && forall j: nat :: j in dst <==> j < |ids|
  {
    forall j: nat
      ensures j in dst <==> j < |ids|
    {
      if j < |ids| {
        SeenSelf(ids, |ids|, j);
        assert j in half <==> Resident(x, ids[j]);
      } else {
        assert j !in half;
      }
    }
    Pigeons(dst, |ids|);
  }

  /** More entries behind do not change the groups before them. */
  lemma GroupedStill(ids: seq<nat>, x: Experts, near: bool, groups: seq<Group>, half: seq<nat>, dst: seq<nat>)
    requires ExpertsOk(x) && Routed(ids, x) && |half| <= |dst| && dst[..|half|] == half
    requires Grouped(ids, x, near, groups, half, 0, |half|)
    ensures Grouped(ids, x, near, groups, dst, 0, |half|)
  {
    assert forall n {:trigger dst[n]} :: 0 <= n < |half| ==> dst[n] == half[n];
  }

  // ---------------------------------------------------------------------------------------------
  // The plan as words
  // ---------------------------------------------------------------------------------------------

  const START := 4

  function DstAt(k: nat): nat { START + k + 1 }
  function TokAt(k: nat): nat { DstAt(k) + k }

  /** The pointers start at an even word. */
  function PtrAt(k: nat): nat {
    TokAt(k) + k + (TokAt(k) + k) % 2
  }

  function Start2At(k: nat): nat { PtrAt(k) + 4 * k }
  function Words(k: nat): nat { Start2At(k) + k + 2 }

  /** The two words of a 64-bit pointer. */
  function Word(ptr: nat, i: nat): int {
    if i == 0 then ptr % 0x1_0000_0000 else ptr / 0x1_0000_0000 % 0x1_0000_0000
  }

  function Pointer(words: seq<int>, at: nat): int
    requires at + 1 < |words|
  {
    words[at] + 0x1_0000_0000 * words[at + 1]
  }

  function StartWord(groups: seq<Group>, g: nat, end: nat): int
    requires g <= |groups|
  {
    if g < |groups| then groups[g].lo else end
  }

  /** Word `w` of the plan for `k` positions, whose first `mid` entries are in device memory. */
  function WordAt(p: Plan, mid: nat, k: nat, w: nat): int {
    if w == 0 then |p.near|
    else if w == 1 then |p.dst|
    else if w == 2 then |p.far|
    else if START <= w <= START + |p.near| then StartWord(p.near, w - START, mid)
    else if DstAt(k) <= w < DstAt(k) + |p.dst| then p.dst[w - DstAt(k)]
    else if TokAt(k) <= w < TokAt(k) + |p.dst| then (if k > 0 then p.dst[w - TokAt(k)] / k else 0)
    else if PtrAt(k) <= w < PtrAt(k) + 2 * |p.near| then Word(p.near[(w - PtrAt(k)) / 2].ptr, (w - PtrAt(k)) % 2)
    else if PtrAt(k) + 2 * k <= w < PtrAt(k) + 2 * k + 2 * |p.far| then Word(p.far[(w - PtrAt(k) - 2 * k) / 2].ptr, (w - PtrAt(k) - 2 * k) % 2)
    else if Start2At(k) <= w <= Start2At(k) + |p.far| then StartWord(p.far, w - Start2At(k), |p.dst|)
    else -1
  }

  function Pack(p: Plan, mid: nat, k: nat): (words: seq<int>)
    ensures |words| == Words(k)
  {
    seq(Words(k), w requires w >= 0 => WordAt(p, mid, k, w))
  }

  /** Groups start one behind the other. */
  ghost predicate Ascending(groups: seq<Group>, start: nat, end: nat) {
    && (groups != [] ==> groups[0].lo == start)
    && forall g: nat {:trigger End(groups, g, end)} :: g < |groups| ==> groups[g].lo < End(groups, g, end) <= end
  }

  lemma {:induction false} StartsApart(groups: seq<Group>, start: nat, end: nat, g: nat)
    requires Ascending(groups, start, end) && g < |groups|
    ensures start + g <= groups[g].lo < end
  {
    assert groups[g].lo < End(groups, g, end) <= end;
    if g > 0 {
      StartsApart(groups, start, end, g - 1);
      assert groups[g - 1].lo < End(groups, g - 1, end);
    }
  }

  lemma GroupStarts(ids: seq<nat>, x: Experts, near: bool, groups: seq<Group>, dst: seq<nat>, start: nat, end: nat, g: nat)
    requires ExpertsOk(x) && Routed(ids, x) && start <= end <= |dst| && Grouped(ids, x, near, groups, dst, start, end) && g < |groups|
    ensures start + g <= groups[g].lo < end
  {
    forall h: nat | h < |groups|
      ensures groups[h].lo < End(groups, h, end) <= end
    {
      assert groups[h] == groups[h];
    }
    StartsApart(groups, start, end, g);
  }

  /** There are at most as many groups as entries. */
  lemma GroupCount(ids: seq<nat>, x: Experts, p: Plan, mid: nat)
    requires ExpertsOk(x) && Routed(ids, x) && PlanOk(ids, x, p, mid)
    ensures |p.near| <= mid && mid + |p.far| <= |ids|
  {
    if p.near != [] {
      GroupStarts(ids, x, true, p.near, p.dst, 0, mid, |p.near| - 1);
    }
    if p.far != [] {
      GroupStarts(ids, x, false, p.far, p.dst, mid, |p.dst|, |p.far| - 1);
    }
  }

  /** The parts of the plan do not get in each other's way: every word read back is the one written. */
  lemma PackReads(p: Plan, mid: nat, k: nat)
    requires |p.near| <= k && |p.far| <= k && |p.dst| == k
    ensures var w := Pack(p, mid, k);
      && w[0] == |p.near| && w[1] == |p.dst| && w[2] == |p.far|
      && (forall g :: 0 <= g <= |p.near| ==> w[START + g] == StartWord(p.near, g, mid))
      && (forall g :: 0 <= g <= |p.far| ==> w[Start2At(k) + g] == StartWord(p.far, g, |p.dst|))
      && (forall n :: 0 <= n < |p.dst| ==> w[DstAt(k) + n] == p.dst[n] && w[TokAt(k) + n] == p.dst[n] / k)
  {
  }

  lemma EvenUp(x: nat)
    ensures (x + x % 2) % 2 == 0 && x <= x + x % 2 <= x + 1
  {
  }

  /** Where the parts are, in plain numbers. */
  lemma Layout(k: nat)
    ensures START == 4 && DstAt(k) == 5 + k && TokAt(k) == 5 + 2 * k
    ensures PtrAt(k) % 2 == 0 && 5 + 3 * k <= PtrAt(k) <= 6 + 3 * k
    ensures Start2At(k) == PtrAt(k) + 4 * k && Words(k) == PtrAt(k) + 5 * k + 2
  {
    EvenUp(TokAt(k) + k);
  }

  lemma TwoWords(ptr: nat)
    requires ptr < 0x1_0000_0000_0000_0000
    ensures Word(ptr, 0) + 0x1_0000_0000 * Word(ptr, 1) == ptr
  {
  }

  lemma NearPointer(p: Plan, mid: nat, k: nat, g: nat)
    requires |p.near| <= k && |p.dst| == k && g < |p.near| && p.near[g].ptr < 0x1_0000_0000_0000_0000
    ensures Pointer(Pack(p, mid, k), PtrAt(k) + 2 * g) == p.near[g].ptr
  {
    var at := PtrAt(k) + 2 * g;
    assert WordAt(p, mid, k, at) == Word(p.near[g].ptr, 0) && WordAt(p, mid, k, at + 1) == Word(p.near[g].ptr, 1);
    TwoWords(p.near[g].ptr);
  }

  lemma FarPointer(p: Plan, mid: nat, k: nat, g: nat)
    requires |p.near| <= k && |p.far| <= k && |p.dst| == k && g < |p.far| && p.far[g].ptr < 0x1_0000_0000_0000_0000
    ensures Pointer(Pack(p, mid, k), PtrAt(k) + 2 * k + 2 * g) == p.far[g].ptr
  {
    var at := PtrAt(k) + 2 * k + 2 * g;
    assert WordAt(p, mid, k, at) == Word(p.far[g].ptr, 0) && WordAt(p, mid, k, at + 1) == Word(p.far[g].ptr, 1);
    TwoWords(p.far[g].ptr);
  }

  // ---------------------------------------------------------------------------------------------
  // The interpreter
  // ---------------------------------------------------------------------------------------------

  /** One thread on one group: it copies a byte of the group's blob if its entry is there. */
  method EchoGroup(words: seq<int>, lo: nat, hi: nat, ptr: int, k: nat, blob: nat, mem: (int, nat) -> int, pos: nat, off: nat, out: array<int>)
    requires lo <= hi <= k && |words| == Words(k) && pos < k && off < blob && out.Length == Grid.Area(blob, k)
    requires 0 <= words[DstAt(k) + pos] < k
    modifies out
    ensures forall c {:trigger out[c]} :: 0 <= c < out.Length ==>
              out[c] == if lo <= pos < hi && c == Grid.Cell(blob, words[DstAt(k) + pos], off, k) then mem(ptr, off) else old(out[c])
  {
    for j := lo to hi
      invariant forall c {:trigger out[c]} :: 0 <= c < out.Length ==>
        out[c] == if lo <= pos < j && c == Grid.Cell(blob, words[DstAt(k) + pos], off, k) then mem(ptr, off) else old(out[c])
    {
      if j == pos {
        out[Grid.Cell(blob, words[DstAt(k) + j], off, k)] := mem(ptr, off);
      }
    }
  }

  /** The words of a plan say where the groups of one tier start and point, and where entries go. */
  ghost predicate Says(words: seq<int>, starts: nat, ptrs: nat, k: nat, groups: seq<Group>, dst: seq<nat>, end: nat) {
    && |dst| == k && |words| == Words(k) && starts + |groups| < |words| && ptrs + 2 * |groups| <= |words|
    && (forall g {:trigger StartWord(groups, g, end)} :: 0 <= g <= |groups| ==> words[starts + g] == StartWord(groups, g, end))
    && (forall g {:trigger groups[g]} :: 0 <= g < |groups| ==> Pointer(words, ptrs + 2 * g) == groups[g].ptr)
    && (forall n {:trigger dst[n]} :: 0 <= n < k ==> words[DstAt(k) + n] == dst[n] && dst[n] < k)
  }

  /** The words of group `g` say where it starts and ends, and if entry `pos` is in it they say `ptr`. */
  ghost predicate GroupSays(words: seq<int>, starts: nat, ptrs: nat, groups: seq<Group>, end: nat, g: nat, pos: nat, ptr: int)
    requires g < |groups|
  {
    && starts + g + 1 < |words| && ptrs + 2 * g + 1 < |words|
    && words[starts + g] == StartWord(groups, g, end) && words[starts + (g + 1)] == StartWord(groups, g + 1, end)
    && 0 <= StartWord(groups, g, end) < StartWord(groups, g + 1, end) <= end
    && (StartWord(groups, g, end) <= pos < StartWord(groups, g + 1, end) ==> Pointer(words, ptrs + 2 * g) == ptr)
  }

  ghost predicate TierSays(words: seq<int>, starts: nat, ptrs: nat, groups: seq<Group>, start: nat, end: nat, pos: nat, ptr: int) {
    && StartWord(groups, 0, end) == start
    && forall g: nat {:trigger StartWord(groups, g, end)} :: g < |groups| ==> GroupSays(words, starts, ptrs, groups, end, g, pos, ptr)
  }

  /** One thread on the groups of one tier: its entry is for `place`, and the group it is in points to `ptr`. */
  method EchoTier(words: seq<int>, starts: nat, ptrs: nat, count: nat, k: nat, blob: nat, mem: (int, nat) -> int, pos: nat, off: nat, out: array<int>,
                  ghost groups: seq<Group>, ghost start: nat, ghost end: nat, ghost place: nat, ghost ptr: int)
    requires count == |groups| && start <= end <= k
    requires pos < k && off < blob && place < k && out.Length == Grid.Area(blob, k)
    requires |words| == Words(k) && words[DstAt(k) + pos] == place
    requires TierSays(words, starts, ptrs, groups, start, end, pos, ptr)
    modifies out
    ensures forall c {:trigger out[c]} :: 0 <= c < out.Length ==>
              out[c] == if start <= pos < end && c == Grid.Cell(blob, place, off, k) then mem(ptr, off) else old(out[c])
  {
    ghost var target, value := Grid.Cell(blob, place, off, k), mem(ptr, off);
    for g := 0 to count
      invariant start <= StartWord(groups, g, end)
      invariant forall c {:trigger out[c]} :: 0 <= c < out.Length ==>
        out[c] == if start <= pos < StartWord(groups, g, end) && c == target then value else old(out[c])
    {
      assert GroupSays(words, starts, ptrs, groups, end, g, pos, ptr);
      EchoGroup(words, words[starts + g], words[starts + (g + 1)], Pointer(words, ptrs + 2 * g), k, blob, mem, pos, off, out);
    }
  }

  lemma OneGroupSays(words: seq<int>, starts: nat, ptrs: nat, k: nat, ids: seq<nat>, x: Experts, near: bool, groups: seq<Group>,
                     dst: seq<nat>, start: nat, end: nat, g: nat, pos: nat)
    requires ExpertsOk(x) && Routed(ids, x) && start <= end <= |dst| == |ids| && Grouped(ids, x, near, groups, dst, start, end)
    requires Says(words, starts, ptrs, k, groups, dst, end) && g < |groups| && pos < k
    ensures dst[pos] < |ids| && GroupSays(words, starts, ptrs, groups, end, g, pos, BlobOf(x, ids[dst[pos]]))
  {
    assert StartWord(groups, g, end) == groups[g].lo && StartWord(groups, g + 1, end) == End(groups, g, end);
  }

  /** What the words of a plan say to the thread of entry `pos`. */
  lemma WordsSay(words: seq<int>, starts: nat, ptrs: nat, k: nat, ids: seq<nat>, x: Experts, near: bool, groups: seq<Group>,
                 dst: seq<nat>, start: nat, end: nat, pos: nat)
    requires ExpertsOk(x) && Routed(ids, x) && start <= end <= |dst| == |ids| && Grouped(ids, x, near, groups, dst, start, end)
    requires Says(words, starts, ptrs, k, groups, dst, end) && pos < k
    ensures |words| == Words(k) && words[DstAt(k) + pos] == dst[pos] < k == |ids|
    ensures TierSays(words, starts, ptrs, groups, start, end, pos, BlobOf(x, ids[dst[pos]]))
  {
    assert dst[pos] == dst[pos];
    forall g: nat {:trigger StartWord(groups, g, end)} | g < |groups|
      ensures GroupSays(words, starts, ptrs, groups, end, g, pos, BlobOf(x, ids[dst[pos]]))
    {
      OneGroupSays(words, starts, ptrs, k, ids, x, near, groups, dst, start, end, g, pos);
    }
    assert StartWord(groups, 0, end) == start;
  }

  predicate Addressable(groups: seq<Group>) {
    forall g :: 0 <= g < |groups| ==> groups[g].ptr < 0x1_0000_0000_0000_0000
  }

  lemma NearSays(p: Plan, mid: nat, k: nat)
    requires |p.near| <= k && |p.far| <= k && |p.dst| == k && Addressable(p.near) && forall n :: 0 <= n < k ==> p.dst[n] < k
    ensures Says(Pack(p, mid, k), START, PtrAt(k), k, p.near, p.dst, mid) && Pack(p, mid, k)[0] == |p.near|
  {
    var w := Pack(p, mid, k);
    PackReads(p, mid, k);
    forall g | 0 <= g < |p.near|
      ensures Pointer(w, PtrAt(k) + 2 * g) == p.near[g].ptr
    {
      NearPointer(p, mid, k, g);
    }
  }

  lemma FarSays(p: Plan, mid: nat, k: nat)
    requires |p.near| <= k && |p.far| <= k && |p.dst| == k && Addressable(p.far) && forall n :: 0 <= n < k ==> p.dst[n] < k
    ensures Says(Pack(p, mid, k), Start2At(k), PtrAt(k) + 2 * k, k, p.far, p.dst, k) && Pack(p, mid, k)[2] == |p.far|
  {
    var w := Pack(p, mid, k);
    PackReads(p, mid, k);
    forall g | 0 <= g < |p.far|
      ensures Pointer(w, PtrAt(k) + 2 * k + 2 * g) == p.far[g].ptr
    {
      FarPointer(p, mid, k, g);
    }
  }

  /** These are the words of the plan. */
  ghost predicate PlanWords(words: seq<int>, ids: seq<nat>, x: Experts, p: Plan, mid: nat)
    requires ExpertsOk(x) && Routed(ids, x)
  {
    && PlanOk(ids, x, p, mid)
    && Says(words, START, PtrAt(|ids|), |ids|, p.near, p.dst, mid) && words[0] == |p.near|
    && Says(words, Start2At(|ids|), PtrAt(|ids|) + 2 * |ids|, |ids|, p.far, p.dst, |ids|) && words[2] == |p.far|
  }

  lemma PackIsPlan(ids: seq<nat>, x: Experts, p: Plan, mid: nat)
    requires ExpertsOk(x) && Routed(ids, x) && PlanOk(ids, x, p, mid) && Addressable(p.near) && Addressable(p.far)
    ensures PlanWords(Pack(p, mid, |ids|), ids, x, p, mid)
  {
    GroupCount(ids, x, p, mid);
    forall n | 0 <= n < |p.dst|
      ensures p.dst[n] < |ids|
    {
      assert p.dst[n] in p.dst;
    }
    NearSays(p, mid, |ids|);
    FarSays(p, mid, |ids|);
  }

  /** One thread: it copies byte `off` for entry `pos`. */
  method EchoThread(words: seq<int>, k: nat, blob: nat, mem: (int, nat) -> int, pos: nat, off: nat, out: array<int>,
                    ghost ids: seq<nat>, ghost x: Experts, ghost p: Plan, ghost mid: nat)
    requires ExpertsOk(x) && Routed(ids, x) && PlanWords(words, ids, x, p, mid)
    requires k == |ids| && pos < k && off < blob && out.Length == Grid.Area(blob, k)
    modifies out
    ensures p.dst[pos] < k
    ensures forall c {:trigger out[c]} :: 0 <= c < out.Length ==>
              out[c] == if c == Grid.Cell(blob, p.dst[pos], off, k) then mem(BlobOf(x, ids[p.dst[pos]]), off) else old(out[c])
  {
    WordsSay(words, START, PtrAt(k), k, ids, x, true, p.near, p.dst, 0, mid, pos);
    WordsSay(words, Start2At(k), PtrAt(k) + 2 * k, k, ids, x, false, p.far, p.dst, mid, k, pos);
    EchoEntry(words, k, blob, mem, pos, off, out, p.near, p.far, mid, p.dst[pos], BlobOf(x, ids[p.dst[pos]]));
  }

  /** The two loops of a thread, over the groups in device memory and over the others. */
  method EchoEntry(words: seq<int>, k: nat, blob: nat, mem: (int, nat) -> int, pos: nat, off: nat, out: array<int>,
                   ghost near: seq<Group>, ghost far: seq<Group>, ghost mid: nat, ghost place: nat, ghost ptr: int)
    requires mid <= k && pos < k && off < blob && place < k && out.Length == Grid.Area(blob, k)
    requires |words| == Words(k) && words[DstAt(k) + pos] == place && words[0] == |near| && words[2] == |far|
    requires TierSays(words, START, PtrAt(k), near, 0, mid, pos, ptr)
    requires TierSays(words, Start2At(k), PtrAt(k) + 2 * k, far, mid, k, pos, ptr)
    modifies out
    ensures forall c {:trigger out[c]} :: 0 <= c < out.Length ==>
              out[c] == if c == Grid.Cell(blob, place, off, k) then mem(ptr, off) else old(out[c])
  {
    EchoTier(words, START, PtrAt(k), words[0], k, blob, mem, pos, off, out, near, 0, mid, place, ptr);
    EchoTier(words, Start2At(k), PtrAt(k) + 2 * k, words[2], k, blob, mem, pos, off, out, far, mid, k, place, ptr);
  }

  /** Threads of the device, each once, in any order. */
  ghost predicate Schedule(order: seq<nat>, n: nat) {
    forall t: nat :: t in order <==> t < n
  }

  /** A position has the blob of its own expert. */
  ghost predicate Delivered(ids: seq<nat>, x: Experts, blob: nat, mem: (int, nat) -> int, out: seq<int>, i: nat, off: nat)
    requires ExpertsOk(x) && Routed(ids, x) && i < |ids| && off < blob && |out| == Grid.Area(blob, |ids|)
  {
    out[Grid.Cell(blob, i, off, |ids|)] == mem(BlobOf(x, ids[i]), off)
  }

  /** After all threads every position has the blob of its own expert. */
  method Echo(words: seq<int>, k: nat, blob: nat, mem: (int, nat) -> int, order: seq<nat>, out: array<int>,
              ghost ids: seq<nat>, ghost x: Experts, ghost p: Plan, ghost mid: nat)
    requires ExpertsOk(x) && Routed(ids, x) && PlanWords(words, ids, x, p, mid)
    requires k == |ids| && blob > 0 && out.Length == Grid.Area(blob, k) && Schedule(order, out.Length)
    modifies out
    ensures forall i: nat, off: nat :: i < k && off < blob ==> Delivered(ids, x, blob, mem, out[..], i, off)
  {
    for t := 0 to |order|
      invariant AllDone(ids, x, p, mid, blob, mem, out[..], order, t)
    {
      assert order[t] in order;
      Grid.RowInside(blob, order[t], k);
      ghost var was := out[..];
      EchoThread(words, k, blob, mem, Grid.Row(blob, order[t]), Grid.Col(blob, order[t]), out, ids, x, p, mid);
      AllStay(ids, x, p, mid, blob, mem, was, out[..], order, t);
    }
    AllDelivered(ids, x, p, mid, blob, mem, out[..], order);
  }

  /** The first `n` threads have done what they do. */
  ghost predicate AllDone(ids: seq<nat>, x: Experts, p: Plan, mid: nat, blob: nat, mem: (int, nat) -> int, out: seq<int>, order: seq<nat>, n: nat)
    requires ExpertsOk(x) && Routed(ids, x) && PlanOk(ids, x, p, mid) && blob > 0 && |out| == Grid.Area(blob, |ids|) && n <= |order|
  {
    forall u {:trigger order[u]} :: 0 <= u < n ==> Done(ids, x, p, mid, blob, mem, out, order[u])
  }

  lemma AllStay(ids: seq<nat>, x: Experts, p: Plan, mid: nat, blob: nat, mem: (int, nat) -> int, was: seq<int>, now: seq<int>, order: seq<nat>, t: nat)
    requires ExpertsOk(x) && Routed(ids, x) && PlanOk(ids, x, p, mid) && blob > 0 && |was| == |now| == Grid.Area(blob, |ids|)
    requires t < |order| && AllDone(ids, x, p, mid, blob, mem, was, order, t)
    requires Grid.Row(blob, order[t]) < |ids| && p.dst[Grid.Row(blob, order[t])] < |ids|
    requires var i, off := p.dst[Grid.Row(blob, order[t])], Grid.Col(blob, order[t]);
      forall c {:trigger now[c]} :: 0 <= c < |now| ==>
        now[c] == if c == Grid.Cell(blob, i, off, |ids|) then mem(BlobOf(x, ids[i]), off) else was[c]
    ensures AllDone(ids, x, p, mid, blob, mem, now, order, t + 1)
  {
    forall u {:trigger order[u]} | 0 <= u <= t
      ensures Done(ids, x, p, mid, blob, mem, now, order[u])
    {
      DoneStays(ids, x, p, mid, blob, mem, was, now, order[t], order[u]);
    }
  }

  /** When all threads are done every position has its blob. */
  lemma AllDelivered(ids: seq<nat>, x: Experts, p: Plan, mid: nat, blob: nat, mem: (int, nat) -> int, out: seq<int>, order: seq<nat>)
    requires ExpertsOk(x) && Routed(ids, x) && PlanOk(ids, x, p, mid) && blob > 0 && |out| == Grid.Area(blob, |ids|)
    requires Schedule(order, |out|) && AllDone(ids, x, p, mid, blob, mem, out, order, |order|)
    ensures forall i: nat, off: nat :: i < |ids| && off < blob ==> Delivered(ids, x, blob, mem, out, i, off)
  {
    forall i: nat, off: nat | i < |ids| && off < blob
      ensures Delivered(ids, x, blob, mem, out, i, off)
    {
      assert i in p.dst;
      var u := ThreadFor(p.dst, blob, order, i, off);
    }
  }

  lemma Turn(order: seq<nat>, n: nat, thread: nat) returns (u: nat)
    requires Schedule(order, n) && thread < n
    ensures u < |order| && order[u] == thread
  {
    assert thread in order;
    u :| 0 <= u < |order| && order[u] == thread;
  }

  /** The thread that serves a byte of a position. */
  lemma ThreadFor(dst: seq<nat>, blob: nat, order: seq<nat>, i: nat, off: nat) returns (u: nat)
    requires i in dst && off < blob && Schedule(order, Grid.Area(blob, |dst|))
    ensures u < |order| && Grid.Row(blob, order[u]) < |dst| && dst[Grid.Row(blob, order[u])] == i && Grid.Col(blob, order[u]) == off
  {
    var n :| 0 <= n < |dst| && dst[n] == i;
    Grid.RowOfCell(blob, n, off);
    u := Turn(order, Grid.Area(blob, |dst|), Grid.Cell(blob, n, off, |dst|));
  }

  /** What a thread has done is there. */
  ghost predicate Done(ids: seq<nat>, x: Experts, p: Plan, mid: nat, blob: nat, mem: (int, nat) -> int, out: seq<int>, thread: nat)
    requires ExpertsOk(x) && Routed(ids, x) && PlanOk(ids, x, p, mid) && blob > 0 && |out| == Grid.Area(blob, |ids|)
  {
    Grid.Row(blob, thread) < |ids| && p.dst[Grid.Row(blob, thread)] < |ids|
    && Delivered(ids, x, blob, mem, out, p.dst[Grid.Row(blob, thread)], Grid.Col(blob, thread))
  }

  /** No thread undoes what another has done: they write different bytes, or the same byte alike. */
  lemma DoneStays(ids: seq<nat>, x: Experts, p: Plan, mid: nat, blob: nat, mem: (int, nat) -> int, was: seq<int>, now: seq<int>, thread: nat, other: nat)
    requires ExpertsOk(x) && Routed(ids, x) && PlanOk(ids, x, p, mid) && blob > 0 && |was| == |now| == Grid.Area(blob, |ids|)
    requires Grid.Row(blob, thread) < |ids| && p.dst[Grid.Row(blob, thread)] < |ids|
    requires other == thread || Done(ids, x, p, mid, blob, mem, was, other)
    requires var i, off := p.dst[Grid.Row(blob, thread)], Grid.Col(blob, thread);
      forall c {:trigger now[c]} :: 0 <= c < |now| ==>
        now[c] == if c == Grid.Cell(blob, i, off, |ids|) then mem(BlobOf(x, ids[i]), off) else was[c]
    ensures Done(ids, x, p, mid, blob, mem, now, other)
  {
    if other != thread {
      var i, off := p.dst[Grid.Row(blob, thread)], Grid.Col(blob, thread);
      var i', off' := p.dst[Grid.Row(blob, other)], Grid.Col(blob, other);
      if Grid.Cell(blob, i, off, |ids|) == Grid.Cell(blob, i', off', |ids|) {
        Grid.CellUnique(blob, i, off, i', off');
      }
    }
  }

  /** Plan, words and threads together: either some expert has no blob, or every position gets the blob
      of its own expert. */
  method Run(ids: seq<nat>, x: Experts, blob: nat, mem: (int, nat) -> int, order: seq<nat>, out: array<int>) returns (ok: bool)
    requires ExpertsOk(x) && Routed(ids, x) && blob > 0 && out.Length == Grid.Area(blob, |ids|) && Schedule(order, out.Length)
    requires forall e :: 0 <= e < |x.res| ==> BlobOf(x, e) < 0x1_0000_0000_0000_0000
    modifies out
    ensures ok <==> forall i {:trigger ids[i]} :: 0 <= i < |ids| ==> Resident(x, ids[i]) || x.mirrors[ids[i]] != 0
    ensures !ok ==> out[..] == old(out[..])
    ensures ok ==> forall i: nat, off: nat :: i < |ids| && off < blob ==> Delivered(ids, x, blob, mem, out[..], i, off)
  {
    var p, mid := MakePlan(ids, x);
    if p == None {
      return false;
    }
    PackIsPlan(ids, x, p.value, mid);
    Echo(Pack(p.value, mid, |ids|), |ids|, blob, mem, order, out, ids, x, p.value, mid);
    ok := true;
  }
}
