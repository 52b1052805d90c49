/** The slot pools of a hybrid model: request slots, mamba state slots, and the ping-pong slots in
    which a request keeps its tracked states, some of which it donates to a prefix cache.

    A ledger says who owns every slot; the pool's own fields and the requests' fields are kept equal
    to it, so that no slot is ever free twice, owned twice, or lost. */
module SlotPools {
  import opened Collections
  import opened Options

  /** What the pools keep on a request. */
  class Req {
    var reqIdx: Option<nat>
    var mambaIdx: Option<int>
    var track: Option<seq<int>>
    var nextTrack: Option<nat>
    var inflight: nat
    var committed: nat

    constructor ()
      ensures Claims() == NO_CLAIM
    {
      reqIdx, mambaIdx, track, nextTrack, inflight, committed := None, None, None, None, 0, 0;
    }

    function Claims(): Claim
      reads this
    {
      Claim(reqIdx, mambaIdx, track, nextTrack)
    }
  }

  /** The slots a request holds. */
  datatype Claim = Claim(reqIdx: Option<nat>, mambaIdx: Option<int>, track: Option<seq<int>>, nextTrack: Option<nat>)

  const NO_CLAIM := Claim(None, None, None, None)

  /** Who a mamba slot belongs to; a slot outside is in the hands of the cache or of the caller. */
  datatype Owner = Idle | Active(r: Req) | Track(r: Req, i: nat) | Outside

  /** The owner of every mamba slot and of every request slot, and the claims of every request. */
  datatype Ledger = Ledger(
    free: set<int>,
    owner: map<int, Owner>,
    slots: map<nat, Option<Req>>,
    claims: map<Req, Claim>)

  // ---------------------------------------------------------------------------------------------
  // One owner for every slot
  // ---------------------------------------------------------------------------------------------

  /** What an owner claims is what the request or the free set says. */
  predicate Backed(l: Ledger, s: int)
    requires s in l.owner
  {
    match l.owner[s]
    case Idle => s in l.free
    case Active(r) => r in l.claims && l.claims[r].mambaIdx == Some(s)
    case Track(r, i) => r in l.claims && l.claims[r].track.Some? && i < |l.claims[r].track.value| && l.claims[r].track.value[i] == s
    case Outside => s !in l.free
  }

  /** The claims of a request are those of the owner. */
  predicate Honoured(l: Ledger, r: Req)
    requires r in l.claims
  {
    var c := l.claims[r];
    && (c.mambaIdx.Some? ==> c.mambaIdx.value in l.owner && l.owner[c.mambaIdx.value] == Active(r))
    && (c.track.Some? ==>
          (forall i :: 0 <= i < |c.track.value| && c.track.value[i] != -1 ==>
             c.track.value[i] in l.owner && l.owner[c.track.value[i]] == Track(r, i)))
  }

  predicate MambaOwned(l: Ledger) {
    && -1 !in l.owner
    && (forall s {:trigger Backed(l, s)} :: s in l.owner ==> Backed(l, s))
    && (forall s :: s in l.free ==> s in l.owner && l.owner[s] == Idle)
    && (forall r {:trigger Honoured(l, r)} :: r in l.claims ==> Honoured(l, r))
  }

  /** The owners after some slots have been given away. */
  function Given(owner: map<int, Owner>, slots: seq<int>, o: Owner): map<int, Owner> {
    map s | s in owner :: if s in slots then o else owner[s]
  }

  /** Free slots handed out, or slots from outside taken back. */
  function HandOut(l: Ledger, slots: seq<int>): Ledger {
    l.(free := l.free - (set s | s in slots), owner := Given(l.owner, slots, Outside))
  }

  function TakeBack(l: Ledger, slots: seq<int>): Ledger {
    l.(free := l.free + (set s | s in slots), owner := Given(l.owner, slots, Idle))
  }

  /** A slot from outside becomes the active state of a request, or the other way around. */
  function Activate(l: Ledger, r: Req, s: int): Ledger
    requires r in l.claims
  {
    l.(owner := l.owner[s := Active(r)], claims := l.claims[r := l.claims[r].(mambaIdx := Some(s))])
  }

  function Deactivate(l: Ledger, r: Req): Ledger
    requires r in l.claims && l.claims[r].mambaIdx.Some?
  {
    l.(owner := l.owner[l.claims[r].mambaIdx.value := Outside], claims := l.claims[r := l.claims[r].(mambaIdx := None)])
  }

  /** A request gets a fresh ping-pong buffer, or loses the one it has. */
  function Attach(l: Ledger, r: Req, buf: seq<int>): Ledger
    requires r in l.claims
  {
    l.(owner := map s | s in l.owner :: if s in buf then Track(r, IndexOf(buf, s)) else l.owner[s],
       claims := l.claims[r := l.claims[r].(track := Some(buf), nextTrack := Some(0))])
  }

  function IndexOf(buf: seq<int>, s: int): (i: nat)
    requires s in buf
    ensures i < |buf| && buf[i] == s
  {
    if buf[0] == s then 0 else IndexOf(buf[1..], s) + 1
  }

  function Detach(l: Ledger, r: Req): Ledger
    requires r in l.claims && l.claims[r].track.Some?
  {
    l.(owner := Given(l.owner, l.claims[r].track.value, Outside),
       claims := l.claims[r := l.claims[r].(track := None, nextTrack := None)])
  }

  /** A place of the buffer changes hands; the slot that was there goes outside. */
  function Swap(l: Ledger, r: Req, i: nat, v: int): Ledger
    requires r in l.claims && l.claims[r].track.Some? && i < |l.claims[r].track.value|
  {
    var buf := l.claims[r].track.value;
    l.(owner := map s | s in l.owner :: if s == v then Track(r, i) else if s == buf[i] then Outside else l.owner[s],
       claims := l.claims[r := l.claims[r].(track := Some(buf[i := v]))])
  }

  predicate AreOutside(l: Ledger, slots: seq<int>) {
    forall s :: s in slots ==> s in l.owner && l.owner[s] == Outside
  }

  lemma HandOutKeeps(l: Ledger, slots: seq<int>)
    requires MambaOwned(l) && forall s :: s in slots ==> s in l.free
    ensures MambaOwned(HandOut(l, slots)) && AreOutside(HandOut(l, slots), slots)
    ensures HandOut(l, slots).owner.Keys == l.owner.Keys
  {
    var m := HandOut(l, slots);
    forall s | s in m.owner
      ensures Backed(m, s)
    {
      assert Backed(l, s);
    }
    forall q | q in m.claims
      ensures Honoured(m, q)
    {
      assert Honoured(l, q);
      if l.claims[q].mambaIdx.Some? {
        var s := l.claims[q].mambaIdx.value;
        assert s !in slots;
      }
    }
  }

  lemma TakeBackKeeps(l: Ledger, slots: seq<int>)
    requires MambaOwned(l) && AreOutside(l, slots)
    ensures MambaOwned(TakeBack(l, slots)) && TakeBack(l, slots).owner.Keys == l.owner.Keys
  {
    var m := TakeBack(l, slots);
    forall s | s in m.owner
      ensures Backed(m, s)
    {
      assert Backed(l, s);
    }
    forall q | q in m.claims
      ensures Honoured(m, q)
    {
      assert Honoured(l, q);
      if l.claims[q].mambaIdx.Some? {
        var s := l.claims[q].mambaIdx.value;
        assert s !in slots;
      }
    }
  }

  lemma ActivateKeeps(l: Ledger, r: Req, s: int)
    requires MambaOwned(l) && r in l.claims && l.claims[r].mambaIdx == None && AreOutside(l, [s])
    ensures MambaOwned(Activate(l, r, s)) && Activate(l, r, s).owner.Keys == l.owner.Keys
  {
    var m := Activate(l, r, s);
    assert s in [s] && Honoured(l, r);
    forall t | t in m.owner
      ensures Backed(m, t)
    {
      assert Backed(l, t);
    }
    forall q | q in m.claims
      ensures Honoured(m, q)
    {
      assert Honoured(l, q);
    }
  }

  lemma DeactivateKeeps(l: Ledger, r: Req)
    requires MambaOwned(l) && r in l.claims && l.claims[r].mambaIdx.Some?
    ensures MambaOwned(Deactivate(l, r)) && Deactivate(l, r).owner.Keys == l.owner.Keys
    ensures AreOutside(Deactivate(l, r), [l.claims[r].mambaIdx.value])
  {
    var m := Deactivate(l, r);
    assert Honoured(l, r);
    forall s | s in m.owner
      ensures Backed(m, s)
    {
      assert Backed(l, s);
    }
    forall q | q in m.claims
      ensures Honoured(m, q)
    {
      assert Honoured(l, q);
    }
  }

  /** Slots of a buffer are from outside and distinct, or -1 for none. */
  predicate FreshBuffer(l: Ledger, buf: seq<int>) {
    && (forall i :: 0 <= i < |buf| && buf[i] != -1 ==> buf[i] in l.owner && l.owner[buf[i]] == Outside)
    && (forall i, j :: 0 <= i < j < |buf| && buf[i] == buf[j] ==> buf[i] == -1)
  }

  lemma AttachKeeps(l: Ledger, r: Req, buf: seq<int>)
    requires MambaOwned(l) && r in l.claims && l.claims[r].track == None && FreshBuffer(l, buf)
    ensures MambaOwned(Attach(l, r, buf)) && Attach(l, r, buf).owner.Keys == l.owner.Keys
  {
    var m := Attach(l, r, buf);
    assert Honoured(l, r);
    forall s | s in m.owner
      ensures Backed(m, s)
    {
      assert Backed(l, s);
    }
    forall q | q in m.claims
      ensures Honoured(m, q)
    {
      assert Honoured(l, q);
    }
  }

  lemma DetachKeeps(l: Ledger, r: Req)
    requires MambaOwned(l) && r in l.claims && l.claims[r].track.Some?
    ensures MambaOwned(Detach(l, r)) && Detach(l, r).owner.Keys == l.owner.Keys
    ensures forall s :: s in l.claims[r].track.value && s != -1 ==> s in l.owner && Detach(l, r).owner[s] == Outside
  {
    var m := Detach(l, r);
    assert Honoured(l, r);
    forall s | s in m.owner
      ensures Backed(m, s)
    {
      assert Backed(l, s);
    }
    forall q | q in m.claims
      ensures Honoured(m, q)
    {
      assert Honoured(l, q);
    }
  }

  lemma SwapKeeps(l: Ledger, r: Req, i: nat, v: int)
    requires MambaOwned(l) && r in l.claims && l.claims[r].track.Some? && i < |l.claims[r].track.value|
    requires v == -1 || AreOutside(l, [v])
    ensures MambaOwned(Swap(l, r, i, v)) && Swap(l, r, i, v).owner.Keys == l.owner.Keys
    ensures l.claims[r].track.value[i] != -1 ==> AreOutside(Swap(l, r, i, v), [l.claims[r].track.value[i]])
  {
    var m := Swap(l, r, i, v);
    assert Honoured(l, r) && (v != -1 ==> v in [v]);
    forall s | s in m.owner
      ensures Backed(m, s)
    {
      assert Backed(l, s);
    }
    forall q | q in m.claims
      ensures Honoured(m, q)
    {
      assert Honoured(l, q);
    }
  }

  /** The place of a claim where a slot may be: the active one, or a place of the buffer. */
  datatype Place = ActivePlace | TrackPlace(i: nat)

  predicate Holds(c: Claim, p: Place, s: int) {
    match p
    case ActivePlace => c.mambaIdx == Some(s)
    case TrackPlace(i) => s != -1 && c.track.Some? && i < |c.track.value| && c.track.value[i] == s
  }

  /** No slot has two holders: not two requests, not two places of one request, not a request and
      the free set. */
  lemma NoDoubleOwner(l: Ledger, r: Req, p: Place, q: Req, o: Place, s: int)
    requires MambaOwned(l) && r in l.claims && q in l.claims
    requires Holds(l.claims[r], p, s)
    ensures s in l.owner && s !in l.free
    ensures Holds(l.claims[q], o, s) ==> r == q && p == o
  {
    assert Honoured(l, r) && Honoured(l, q);
  }

  function Held(l: Ledger): set<int> {
    set s | s in l.owner && (l.owner[s].Active? || l.owner[s].Track?)
  }

  function Lent(l: Ledger): set<int> {
    set s | s in l.owner && l.owner[s].Outside?
  }

  /** Free slots, slots held by requests, and slots outside make up the pool, whatever happens. */
  lemma MambaConserved(l: Ledger)
    requires MambaOwned(l)
    ensures |l.free| + |Held(l)| + |Lent(l)| == |l.owner.Keys|
  {
    forall s | s in l.owner
      ensures s in l.free <==> l.owner[s].Idle?
    {
      assert Backed(l, s);
    }
    var taken := Held(l) + Lent(l);
    assert |taken| == |Held(l)| + |Lent(l)|;
    forall s
      ensures s in l.owner.Keys <==> s in l.free + taken
      ensures s !in l.free || s !in taken
    {
    }
    assert l.owner.Keys == l.free + taken;
    assert |l.free + taken| == |l.free| + |taken|;
  }

  // ---------------------------------------------------------------------------------------------
  // Request slots
  // ---------------------------------------------------------------------------------------------

  /** The request that holds a slot says so, and the other way around. */
  predicate SlotBacked(l: Ledger, s: nat)
    requires s in l.slots
  {
    l.slots[s].Some? ==> l.slots[s].value in l.claims && l.claims[l.slots[s].value].reqIdx == Some(s)
  }

  predicate SlotHonoured(l: Ledger, r: Req)
    requires r in l.claims
  {
    l.claims[r].reqIdx.Some? ==> l.claims[r].reqIdx.value in l.slots && l.slots[l.claims[r].reqIdx.value] == Some(r)
  }

  /** Request slots 1..size are each free, once, or held by one request; slot 0 is never used. */
  ghost predicate SlotsOwned(l: Ledger, size: nat, freeSlots: seq<nat>) {
    && (forall s :: s in l.slots <==> 1 <= s <= size)
    && Distinct(freeSlots)
    && (forall s :: s in freeSlots <==> s in l.slots && l.slots[s] == None)
    && (forall s {:trigger SlotBacked(l, s)} :: s in l.slots ==> SlotBacked(l, s))
    && (forall r {:trigger SlotHonoured(l, r)} :: r in l.claims ==> SlotHonoured(l, r))
  }

  /** The slots 1..size in order. */
  function AllSlots(size: nat): (s: seq<nat>)
    ensures |s| == size
  {
    if size == 0 then [] else AllSlots(size - 1) + [size]
  }

  lemma {:induction false} AllSlotsAt(size: nat, i: nat)
    requires i < size
    ensures AllSlots(size)[i] == i + 1
  {
    if i < size - 1 {
      AllSlotsAt(size - 1, i);
    }
  }

  lemma {:induction false} AllSlotsAre(size: nat)
    ensures Distinct(AllSlots(size)) && forall x :: x in AllSlots(size) <==> 1 <= x <= size
  {
    if size > 0 {
      var init := AllSlots(size - 1);
      AllSlotsAre(size - 1);
      forall x
        ensures x in init + [size] <==> x in init || x == size
      {
      }
      assert forall i :: 0 <= i < |init| ==> init[i] in init;
    }
  }

  function Taken(l: Ledger): set<nat> {
    set s | s in l.slots && l.slots[s].Some?
  }

  /** Free request slots and held ones make up 1..size. */
  lemma SlotsConserved(l: Ledger, size: nat, freeSlots: seq<nat>)
    requires SlotsOwned(l, size, freeSlots)
    ensures |freeSlots| + |Taken(l)| == size
  {
    AllSlotsAre(size);
    SetOfDistinct(freeSlots);
    SetOfDistinct(AllSlots(size));
    forall s
      ensures s in Members(AllSlots(size)) <==> s in Members(freeSlots) + Taken(l)
      ensures s !in Members(freeSlots) || s !in Taken(l)
    {
    }
    assert Members(AllSlots(size)) == Members(freeSlots) + Taken(l);
    assert |Members(freeSlots) + Taken(l)| == |freeSlots| + |Taken(l)|;
  }

  /** A held request slot is neither 0 nor free, and no other request holds it. */
  lemma NoSharedSlot(l: Ledger, size: nat, freeSlots: seq<nat>, r: Req, q: Req)
    requires SlotsOwned(l, size, freeSlots) && r in l.claims && q in l.claims && l.claims[r].reqIdx.Some?
    ensures 1 <= l.claims[r].reqIdx.value <= size && l.claims[r].reqIdx.value !in freeSlots
    ensures l.claims[q].reqIdx == l.claims[r].reqIdx ==> r == q
  {
    assert SlotHonoured(l, r) && SlotHonoured(l, q);
  }

  /** The first free slot goes to a request, or its slot comes back at the end. */
  function TakeSlot(l: Ledger, r: Req, s: nat): Ledger
    requires r in l.claims
  {
    l.(slots := l.slots[s := Some(r)], claims := l.claims[r := l.claims[r].(reqIdx := Some(s))])
  }

  function ReturnSlot(l: Ledger, r: Req): Ledger
    requires r in l.claims && l.claims[r].reqIdx.Some?
  {
    l.(slots := l.slots[l.claims[r].reqIdx.value := None], claims := l.claims[r := l.claims[r].(reqIdx := None)])
  }

  lemma TakeSlotKeeps(l: Ledger, size: nat, freeSlots: seq<nat>, r: Req)
    requires SlotsOwned(l, size, freeSlots) && r in l.claims && l.claims[r].reqIdx == None && freeSlots != []
    ensures SlotsOwned(TakeSlot(l, r, freeSlots[0]), size, freeSlots[1..])
    ensures 1 <= freeSlots[0] <= size
  {
    var m := TakeSlot(l, r, freeSlots[0]);
    assert freeSlots[0] in freeSlots && freeSlots == [freeSlots[0]] + freeSlots[1..];
    forall s | s in m.slots
      ensures SlotBacked(m, s)
    {
      assert SlotBacked(l, s);
    }
    forall q | q in m.claims
      ensures SlotHonoured(m, q)
    {
      assert SlotHonoured(l, q);
    }
  }

  lemma ReturnSlotKeeps(l: Ledger, size: nat, freeSlots: seq<nat>, r: Req)
    requires SlotsOwned(l, size, freeSlots) && r in l.claims && l.claims[r].reqIdx.Some?
    ensures SlotsOwned(ReturnSlot(l, r), size, freeSlots + [l.claims[r].reqIdx.value])
  {
    var m := ReturnSlot(l, r);
    assert SlotHonoured(l, r);
    forall s | s in m.slots
      ensures SlotBacked(m, s)
    {
      assert SlotBacked(l, s);
    }
    forall q | q in m.claims
      ensures SlotHonoured(m, q)
    {
      assert SlotHonoured(l, q);
    }
  }

  /** The buffer of a request has the pool's size, and the next place to track is one of its places. */
  predicate WellTracked(c: Claim, trackSize: nat) {
    c.track.Some? ==> |c.track.value| == trackSize && c.nextTrack.Some? && c.nextTrack.value < trackSize
  }

  /** What never changes: the request slots are 1..size, the mamba slots are those of `mamba`. */
  datatype Shape = Shape(size: nat, mamba: set<int>, extraBuffer: bool, lazy: bool, trackSize: nat)

  /** The ledger of a pool of a given shape, with its list of free request slots. */
  ghost predicate LedgerOk(l: Ledger, sh: Shape, freeSlots: seq<nat>) {
    && (sh.trackSize == 1 || sh.trackSize == 2)
    && l.owner.Keys == sh.mamba && MambaOwned(l) && SlotsOwned(l, sh.size, freeSlots)
    && (forall r :: r in l.claims ==> WellTracked(l.claims[r], sh.trackSize))
    && (forall r :: r in l.claims && l.claims[r].track.Some? ==> sh.extraBuffer)
  }

  /** A pool in which nobody holds anything. */
  function EmptyLedger(sh: Shape, claims: map<Req, Claim>): Ledger {
    Ledger(sh.mamba, map s | s in sh.mamba :: Idle, map s | s in AllSlots(sh.size) :: None, claims)
  }

  /** The mapping rows of a request that holds slots are its own. */
  predicate Mapped(c: Claim, extraBuffer: bool, mambaRow: seq<int>, trackRow: seq<seq<int>>) {
    c.reqIdx.Some? && c.mambaIdx.Some? ==>
      && c.reqIdx.value < |mambaRow| && c.reqIdx.value < |trackRow|
      && mambaRow[c.reqIdx.value] == c.mambaIdx.value
      && (extraBuffer ==> c.track.Some? && trackRow[c.reqIdx.value] == c.track.value)
  }

  ghost predicate RowsOk(l: Ledger, extraBuffer: bool, mambaRow: seq<int>, trackRow: seq<seq<int>>) {
    forall r :: r in l.claims ==> Mapped(l.claims[r], extraBuffer, mambaRow, trackRow)
  }

  lemma EmptyOk(sh: Shape, claims: map<Req, Claim>, mambaRow: seq<int>, trackRow: seq<seq<int>>)
    requires -1 !in sh.mamba && (sh.trackSize == 1 || sh.trackSize == 2)
    ensures (forall r :: r in claims ==> claims[r] == NO_CLAIM) ==>
              LedgerOk(EmptyLedger(sh, claims), sh, AllSlots(sh.size)) && RowsOk(EmptyLedger(sh, claims), sh.extraBuffer, mambaRow, trackRow)
  {
    AllSlotsAre(sh.size);
  }

  /** Two ledgers that differ in request slots only. */
  lemma MambaFrame(l: Ledger, m: Ledger)
    requires MambaOwned(l) && m.free == l.free && m.owner == l.owner && m.claims.Keys == l.claims.Keys
    requires forall r :: r in l.claims ==>
               m.claims[r].mambaIdx == l.claims[r].mambaIdx && m.claims[r].track == l.claims[r].track
    ensures MambaOwned(m)
  {
    forall r | r in m.claims
      ensures Honoured(m, r)
    {
      assert Honoured(l, r);
    }
    forall s | s in m.owner
      ensures Backed(m, s)
    {
      assert Backed(l, s);
    }
  }

  /** What holds after a request has given its slot back. */
  lemma ReturnOk(l: Ledger, sh: Shape, freeSlots: seq<nat>, r: Req, mambaRow: seq<int>, trackRow: seq<seq<int>>)
    requires LedgerOk(l, sh, freeSlots) && RowsOk(l, sh.extraBuffer, mambaRow, trackRow)
    requires r in l.claims && l.claims[r].reqIdx.Some?
    ensures LedgerOk(ReturnSlot(l, r), sh, freeSlots + [l.claims[r].reqIdx.value])
    ensures RowsOk(ReturnSlot(l, r), sh.extraBuffer, mambaRow, trackRow)
  {
    ReturnSlotKeeps(l, sh.size, freeSlots, r);
    RowsFrame(l, ReturnSlot(l, r), sh.extraBuffer, mambaRow, trackRow);
    MambaFrame(l, ReturnSlot(l, r));
  }

  lemma TakeSlotOk(l: Ledger, sh: Shape, freeSlots: seq<nat>, r: Req)
    requires LedgerOk(l, sh, freeSlots) && r in l.claims && l.claims[r].reqIdx == None && freeSlots != []
    ensures LedgerOk(TakeSlot(l, r, freeSlots[0]), sh, freeSlots[1..])
    ensures 1 <= freeSlots[0] <= sh.size
  {
    TakeSlotKeeps(l, sh.size, freeSlots, r);
    MambaFrame(l, TakeSlot(l, r, freeSlots[0]));
  }

  /** A buffer of newly allocated slots, padded with -1. */
  lemma NewBuffer(l: Ledger, slots: seq<int>, padding: nat)
    requires AreOutside(l, slots) && Distinct(slots) && -1 !in l.owner
    ensures FreshBuffer(l, slots + seq(padding, _ => -1))
  {
    var buf := slots + seq(padding, _ => -1);
    forall i | 0 <= i < |buf| && buf[i] != -1
      ensures buf[i] in l.owner && l.owner[buf[i]] == Outside
    {
      assert buf[i] in slots;
    }
  }

  lemma EnrolOk(l: Ledger, sh: Shape, freeSlots: seq<nat>, r: Req, mambaRow: seq<int>, trackRow: seq<seq<int>>)
    requires LedgerOk(l, sh, freeSlots) && RowsOk(l, sh.extraBuffer, mambaRow, trackRow) && r !in l.claims
    ensures var m := l.(claims := l.claims[r := NO_CLAIM]);
      LedgerOk(m, sh, freeSlots) && RowsOk(m, sh.extraBuffer, mambaRow, trackRow)
  {
    var m := l.(claims := l.claims[r := NO_CLAIM]);
    forall q | q in m.claims
      ensures Honoured(m, q)
    {
      assert q != r ==> Honoured(l, q);
    }
    forall s | s in m.slots
      ensures SlotBacked(m, s)
    {
      assert SlotBacked(l, s);
    }
    forall q | q in m.claims
      ensures SlotHonoured(m, q)
    {
      assert q != r ==> SlotHonoured(l, q);
    }
    forall s | s in m.owner
      ensures Backed(m, s)
    {
      assert Backed(l, s);
    }
  }

  lemma AdvanceOk(l: Ledger, sh: Shape, freeSlots: seq<nat>, r: Req, next: nat, mambaRow: seq<int>, trackRow: seq<seq<int>>)
    requires LedgerOk(l, sh, freeSlots) && RowsOk(l, sh.extraBuffer, mambaRow, trackRow)
    requires r in l.claims && l.claims[r].track.Some? && next < sh.trackSize
    ensures var m := l.(claims := l.claims[r := l.claims[r].(nextTrack := Some(next))]);
      LedgerOk(m, sh, freeSlots) && RowsOk(m, sh.extraBuffer, mambaRow, trackRow)
  {
    var m := l.(claims := l.claims[r := l.claims[r].(nextTrack := Some(next))]);
    MambaFrame(l, m);
    SlotsFrame(l, m, sh.size, freeSlots);
    assert WellTracked(l.claims[r], sh.trackSize) && Mapped(l.claims[r], sh.extraBuffer, mambaRow, trackRow);
    forall q | q in m.claims
      ensures WellTracked(m.claims[q], sh.trackSize) && Mapped(m.claims[q], sh.extraBuffer, mambaRow, trackRow)
    {
      assert WellTracked(l.claims[q], sh.trackSize) && Mapped(l.claims[q], sh.extraBuffer, mambaRow, trackRow);
    }
  }

  /** The active slot of a request becomes free. */
  function Vacate(l: Ledger, r: Req): Ledger
    requires r in l.claims && l.claims[r].mambaIdx.Some?
  {
    TakeBack(Deactivate(l, r), [l.claims[r].mambaIdx.value])
  }

  /** The listed places of a request's buffer become free, the others stay outside, with the cache. */
  function Drop(l: Ledger, r: Req, toFree: seq<int>): Ledger
    requires r in l.claims && l.claims[r].track.Some?
  {
    TakeBack(Detach(l, r), toFree)
  }

  lemma VacateOk(l: Ledger, sh: Shape, freeSlots: seq<nat>, r: Req, mambaRow: seq<int>, trackRow: seq<seq<int>>)
    requires LedgerOk(l, sh, freeSlots) && RowsOk(l, sh.extraBuffer, mambaRow, trackRow)
    requires r in l.claims && l.claims[r].mambaIdx.Some?
    ensures LedgerOk(Vacate(l, r), sh, freeSlots) && RowsOk(Vacate(l, r), sh.extraBuffer, mambaRow, trackRow)
    ensures Vacate(l, r).free == l.free + {l.claims[r].mambaIdx.value}
    ensures Vacate(l, r).claims == l.claims[r := l.claims[r].(mambaIdx := None)]
  {
    DeactivateOk(l, sh, freeSlots, r);
    TakeBackOk(Deactivate(l, r), sh, freeSlots, [l.claims[r].mambaIdx.value]);
    RowsFrame(l, Vacate(l, r), sh.extraBuffer, mambaRow, trackRow);
  }

  lemma DropOk(l: Ledger, sh: Shape, freeSlots: seq<nat>, r: Req, toFree: seq<int>, mambaRow: seq<int>, trackRow: seq<seq<int>>)
    requires LedgerOk(l, sh, freeSlots) && RowsOk(l, sh.extraBuffer, mambaRow, trackRow)
    requires r in l.claims && l.claims[r].mambaIdx == None && l.claims[r].track.Some?
    requires forall s :: s in toFree ==> s in l.claims[r].track.value && s != -1
    ensures LedgerOk(Drop(l, r, toFree), sh, freeSlots) && RowsOk(Drop(l, r, toFree), sh.extraBuffer, mambaRow, trackRow)
    ensures Drop(l, r, toFree).free == l.free + (set s | s in toFree)
    ensures Drop(l, r, toFree).claims == l.claims[r := l.claims[r].(track := None, nextTrack := None)]
    ensures forall s :: s in l.claims[r].track.value && s != -1 ==>
              s in l.owner && Drop(l, r, toFree).owner[s] == if s in toFree then Idle else Outside
  {
    DetachOk(l, sh, freeSlots, r);
    TakeBackOk(Detach(l, r), sh, freeSlots, toFree);
    RowsFrame(l, Drop(l, r, toFree), sh.extraBuffer, mambaRow, trackRow);
  }

  /** Requests whose claims change may only be ones without a full set of slots. */
  lemma RowsFrame(l: Ledger, m: Ledger, extraBuffer: bool, mambaRow: seq<int>, trackRow: seq<seq<int>>)
    requires RowsOk(l, extraBuffer, mambaRow, trackRow) && m.claims.Keys == l.claims.Keys
    requires forall r :: r in m.claims ==>
               m.claims[r] == l.claims[r] || m.claims[r].reqIdx == None || m.claims[r].mambaIdx == None
    ensures RowsOk(m, extraBuffer, mambaRow, trackRow)
  {
  }

  lemma SwapRows(l: Ledger, sh: Shape, freeSlots: seq<nat>, r: Req, i: nat, v: int, mambaRow: seq<int>, trackRow: seq<seq<int>>)
    requires SlotsOwned(l, sh.size, freeSlots) && RowsOk(l, sh.extraBuffer, mambaRow, trackRow)
    requires r in l.claims && l.claims[r].track.Some? && i < |l.claims[r].track.value|
    requires l.claims[r].reqIdx.Some? && |mambaRow| == |trackRow| == sh.size + 1
    ensures l.claims[r].reqIdx.value <= sh.size
    ensures RowsOk(Swap(l, r, i, v), sh.extraBuffer, mambaRow,
                   trackRow[l.claims[r].reqIdx.value := l.claims[r].track.value[i := v]])
  {
    assert SlotHonoured(l, r) && Mapped(l.claims[r], sh.extraBuffer, mambaRow, trackRow);
    var rows := trackRow[l.claims[r].reqIdx.value := l.claims[r].track.value[i := v]];
    forall q | q in l.claims && q != r
      ensures Mapped(l.claims[q], sh.extraBuffer, mambaRow, rows)
    {
      assert SlotHonoured(l, q);
      assert Mapped(l.claims[q], sh.extraBuffer, mambaRow, trackRow);
    }
  }

  /** Two ledgers that differ in mamba slots only. */
  ghost predicate SameSlots(l: Ledger, m: Ledger) {
    && m.slots == l.slots && m.claims.Keys == l.claims.Keys
    && forall r :: r in l.claims ==> m.claims[r].reqIdx == l.claims[r].reqIdx
  }

  lemma SlotsFrame(l: Ledger, m: Ledger, size: nat, freeSlots: seq<nat>)
    requires SlotsOwned(l, size, freeSlots) && SameSlots(l, m)
    ensures SlotsOwned(m, size, freeSlots)
  {
    forall s | s in m.slots
      ensures SlotBacked(m, s)
    {
      assert SlotBacked(l, s);
    }
    forall q | q in m.claims
      ensures SlotHonoured(m, q)
    {
      assert SlotHonoured(l, q);
    }
  }

  lemma HandOutOk(l: Ledger, sh: Shape, freeSlots: seq<nat>, slots: seq<int>)
    requires LedgerOk(l, sh, freeSlots) && forall s :: s in slots ==> s in l.free
    ensures LedgerOk(HandOut(l, slots), sh, freeSlots) && AreOutside(HandOut(l, slots), slots)
  {
    HandOutKeeps(l, slots);
    SlotsFrame(l, HandOut(l, slots), sh.size, freeSlots);
  }

  lemma TakeBackOk(l: Ledger, sh: Shape, freeSlots: seq<nat>, slots: seq<int>)
    requires LedgerOk(l, sh, freeSlots) && AreOutside(l, slots)
    ensures LedgerOk(TakeBack(l, slots), sh, freeSlots)
  {
    TakeBackKeeps(l, slots);
    SlotsFrame(l, TakeBack(l, slots), sh.size, freeSlots);
  }

  lemma ActivateOk(l: Ledger, sh: Shape, freeSlots: seq<nat>, r: Req, s: int)
    requires LedgerOk(l, sh, freeSlots) && r in l.claims && l.claims[r].mambaIdx == None && AreOutside(l, [s])
    ensures LedgerOk(Activate(l, r, s), sh, freeSlots)
  {
    ActivateKeeps(l, r, s);
    SlotsFrame(l, Activate(l, r, s), sh.size, freeSlots);
  }

  lemma DeactivateOk(l: Ledger, sh: Shape, freeSlots: seq<nat>, r: Req)
    requires LedgerOk(l, sh, freeSlots) && r in l.claims && l.claims[r].mambaIdx.Some?
    ensures LedgerOk(Deactivate(l, r), sh, freeSlots) && AreOutside(Deactivate(l, r), [l.claims[r].mambaIdx.value])
  {
    DeactivateKeeps(l, r);
    SlotsFrame(l, Deactivate(l, r), sh.size, freeSlots);
  }

  lemma AttachOk(l: Ledger, sh: Shape, freeSlots: seq<nat>, r: Req, buf: seq<int>)
    requires LedgerOk(l, sh, freeSlots) && r in l.claims && l.claims[r].track == None && FreshBuffer(l, buf)
    requires sh.extraBuffer && |buf| == sh.trackSize
    ensures LedgerOk(Attach(l, r, buf), sh, freeSlots)
  {
    AttachKeeps(l, r, buf);
    SlotsFrame(l, Attach(l, r, buf), sh.size, freeSlots);
  }

  lemma DetachOk(l: Ledger, sh: Shape, freeSlots: seq<nat>, r: Req)
    requires LedgerOk(l, sh, freeSlots) && r in l.claims && l.claims[r].track.Some?
    ensures LedgerOk(Detach(l, r), sh, freeSlots)
    ensures forall s :: s in l.claims[r].track.value && s != -1 ==> s in l.owner && Detach(l, r).owner[s] == Outside
  {
    DetachKeeps(l, r);
    SlotsFrame(l, Detach(l, r), sh.size, freeSlots);
  }

  lemma SwapOk(l: Ledger, sh: Shape, freeSlots: seq<nat>, r: Req, i: nat, v: int)
    requires LedgerOk(l, sh, freeSlots) && r in l.claims && l.claims[r].track.Some? && i < sh.trackSize
    requires v == -1 || AreOutside(l, [v])
    ensures i < |l.claims[r].track.value|
    ensures LedgerOk(Swap(l, r, i, v), sh, freeSlots)
    ensures l.claims[r].track.value[i] != -1 ==> AreOutside(Swap(l, r, i, v), [l.claims[r].track.value[i]])
  {
    assert WellTracked(l.claims[r], sh.trackSize);
    SwapKeeps(l, r, i, v);
    SlotsFrame(l, Swap(l, r, i, v), sh.size, freeSlots);
  }

  // ---------------------------------------------------------------------------------------------
  // The places of a buffer that are freed
  // ---------------------------------------------------------------------------------------------

  /** The places that hold a slot. */
  function Real(row: seq<int>): (slots: seq<int>)
    ensures forall s :: s in slots <==> s in row && s != -1
  {
    if row == [] then [] else (if row[0] == -1 then [] else [row[0]]) + Real(row[1..])
  }

  /** The places of a buffer row to free when place `keep` stays with the cache; a place that does not
      exist fails the assertion. */
  function ToFree(row: seq<int>, keep: Option<int>): Option<seq<int>>
    requires |row| == 1 || |row| == 2
  {
    if keep == None then Some(row)
    else if keep.value != 0 && keep.value != 1 then None
    else if |row| == 2 then Some([row[1 - keep.value]])
    else if keep.value != 0 then None
    else Some([])
  }

  /** The slots that become free: those of the row but the place to keep, in the lazy mode without
      empty places. */
  function Freed(row: seq<int>, keep: Option<int>, lazy: bool): (slots: seq<int>)
    ensures forall s :: s in slots ==> s in row
  {
    var rest := if keep.Some? && 0 <= keep.value < |row| then row[..keep.value] + row[keep.value + 1..] else row;
    if lazy then Real(rest) else rest
  }

  lemma ToFreeIs(row: seq<int>, keep: Option<int>)
    requires |row| == 1 || |row| == 2
    ensures ToFree(row, keep).Some? <==> keep == None || keep.value == 0 || (keep.value == 1 && |row| == 2)
    ensures ToFree(row, keep).Some? ==>
              Freed(row, keep, false) == ToFree(row, keep).value && Freed(row, keep, true) == Real(ToFree(row, keep).value)
  {
    if ToFree(row, keep).Some? && keep.Some? {
      assert row[..keep.value] + row[keep.value + 1..] == ToFree(row, keep).value;
    }
  }

  /** What is free when a request has left with its buffer: what was, the active slot, and every place but
      the one to keep, which is outside; in the lazy mode empty places are passed over. */
  lemma LeavesFree(l: Ledger, r: Req, keep: Option<int>, lazy: bool)
    requires MambaOwned(l) && r in l.claims && l.claims[r].mambaIdx.Some? && l.claims[r].track.Some?
    requires keep.Some? ==> 0 <= keep.value < |l.claims[r].track.value|
    ensures var track, m := l.claims[r].track.value, Drop(Vacate(l, r), r, Freed(l.claims[r].track.value, keep, lazy));
      && (forall s :: s in m.free <==>
            || s in l.free || s == l.claims[r].mambaIdx.value
            || exists i {:trigger track[i]} :: 0 <= i < |track| && keep != Some(i) && track[i] == s && !(lazy && s == -1))
      && (keep.Some? && track[keep.value] != -1 ==> AreOutside(m, [track[keep.value]]))
      && m.claims == l.claims[r := l.claims[r].(mambaIdx := None, track := None, nextTrack := None)]
  {
    var track := l.claims[r].track.value;
    forall s
      ensures s in Freed(track, keep, lazy) <==> exists i {:trigger track[i]} :: 0 <= i < |track| && keep != Some(i) && track[i] == s && !(lazy && s == -1)
    {
      FreedHas(track, keep, lazy, s);
    }
    assert Honoured(l, r);
  }

  lemma FreedHas(track: seq<int>, keep: Option<int>, lazy: bool, s: int)
    requires keep.Some? ==> 0 <= keep.value < |track|
    ensures s in Freed(track, keep, lazy) <==> exists i {:trigger track[i]} :: 0 <= i < |track| && keep != Some(i) && track[i] == s && !(lazy && s == -1)
  {
    var rest := if keep.Some? then track[..keep.value] + track[keep.value + 1..] else track;
    if i :| 0 <= i < |track| && keep != Some(i) && track[i] == s {
      assert rest[if keep.Some? && i > keep.value then i - 1 else i] == s;
    }
    if s in rest {
      var j :| 0 <= j < |rest| && rest[j] == s;
      assert track[if keep.Some? && j >= keep.value then j + 1 else j] == s;
    }
  }

  // ---------------------------------------------------------------------------------------------
  // The pool
  // ---------------------------------------------------------------------------------------------

  method Pick(slots: set<int>) returns (s: int)
    requires |slots| > 0
    ensures s in slots
  {
    assert (forall x :: x !in slots) ==> slots == {};
    s :| s in slots;
  }

  predicate Known(l: Ledger, batch: seq<Req>) {
    forall i :: 0 <= i < |batch| ==> batch[i] in l.claims
  }

  /** Requests of a batch from the `i`th on that have no slot yet. */
  function Needed(l: Ledger, batch: seq<Req>, i: nat): nat
    requires i <= |batch| && Known(l, batch)
    decreases |batch| - i
  {
    if i == |batch| then 0 else (if l.claims[batch[i]].reqIdx == None then 1 else 0) + Needed(l, batch, i + 1)
  }

  lemma {:induction false} NeededStays(l: Ledger, m: Ledger, batch: seq<Req>, i: nat)
    requires i <= |batch| && Known(l, batch) && Known(m, batch)
    requires forall j :: i <= j < |batch| ==> l.claims[batch[j]].reqIdx == m.claims[batch[j]].reqIdx
    ensures Needed(l, batch, i) == Needed(m, batch, i)
    decreases |batch| - i
  {
    if i < |batch| {
      NeededStays(l, m, batch, i + 1);
    }
  }

  /** The ledger after the requests of a batch from the `i`th on have their slots, each the first one
      left of the free list. */
  function Grants(l: Ledger, free: seq<nat>, batch: seq<Req>, i: nat): Ledger
    requires i <= |batch| && Known(l, batch)
    decreases |batch| - i
  {
    if i == |batch| then l
    else if l.claims[batch[i]].reqIdx.Some? || free == [] then Grants(l, free, batch, i + 1)
    else Grants(TakeSlot(l, batch[i], free[0]), free[1..], batch, i + 1)
  }

  /** Only the request slots of the requests from the `i`th on change. */
  lemma {:induction false} GrantsFrame(l: Ledger, free: seq<nat>, batch: seq<Req>, i: nat, r: Req)
    requires i <= |batch| && Known(l, batch) && r in l.claims
    ensures r in Grants(l, free, batch, i).claims
    ensures Grants(l, free, batch, i).claims[r].(reqIdx := None) == l.claims[r].(reqIdx := None)
    ensures l.claims[r].reqIdx.Some? || (forall j :: i <= j < |batch| ==> batch[j] != r) ==>
              Grants(l, free, batch, i).claims[r] == l.claims[r]
    decreases |batch| - i
  {
    if i == |batch| {
    } else if l.claims[batch[i]].reqIdx.Some? || free == [] {
      GrantsFrame(l, free, batch, i + 1, r);
    } else {
      GrantsFrame(TakeSlot(l, batch[i], free[0]), free[1..], batch, i + 1, r);
    }
  }

  lemma {:induction false} NeededFits(l: Ledger, batch: seq<Req>, i: nat, j: nat)
    requires i <= j < |batch| && Known(l, batch)
    ensures Needed(l, batch, j) <= Needed(l, batch, i)
    ensures l.claims[batch[j]].reqIdx == None ==> Needed(l, batch, j) > 0
    decreases j - i
  {
    if i < j {
      NeededFits(l, batch, i + 1, j);
    }
  }

  /** The requests without a slot get the first slots of the free list in the order of the batch. */
  lemma {:induction false} GrantsInOrder(l: Ledger, free: seq<nat>, batch: seq<Req>, i: nat, j: nat)
    requires i <= j < |batch| && Known(l, batch) && Distinct(batch)
    requires Needed(l, batch, i) <= |free| && l.claims[batch[j]].reqIdx == None
    ensures 0 <= Needed(l, batch, i) - Needed(l, batch, j) < |free|
    ensures batch[j] in Grants(l, free, batch, i).claims
    ensures Grants(l, free, batch, i).claims[batch[j]].reqIdx == Some(free[Needed(l, batch, i) - Needed(l, batch, j)])
    decreases |batch| - i
  {
    NeededFits(l, batch, i, j);
    if l.claims[batch[i]].reqIdx.Some? {
      GrantsInOrder(l, free, batch, i + 1, j);
    } else {
      var m := TakeSlot(l, batch[i], free[0]);
      NeededStays(l, m, batch, i + 1);
      GrantsFrame(m, free[1..], batch, i + 1, batch[i]);
      if i < j {
        NeededStays(l, m, batch, j);
        GrantsInOrder(m, free[1..], batch, i + 1, j);
      }
    }
  }

  /** Mamba slots that a request still lacks. */
  function Lacks(c: Claim, sh: Shape): nat {
    (if c.mambaIdx == None then 1 else 0) + if sh.extraBuffer && c.track == None then (if sh.lazy then 1 else sh.trackSize) else 0
  }

  function LacksAll(l: Ledger, sh: Shape, batch: seq<Req>, i: nat): nat
    requires i <= |batch| && Known(l, batch)
    decreases |batch| - i
  {
    if i == |batch| then 0 else Lacks(l.claims[batch[i]], sh) + LacksAll(l, sh, batch, i + 1)
  }

  predicate Equipped(c: Claim, extraBuffer: bool) {
    c.mambaIdx.Some? && (extraBuffer ==> c.track.Some?)
  }

  /** Slots that a request had before, it has still. */
  predicate Kept(c: Claim, d: Claim) {
    && d.reqIdx == c.reqIdx && (c.mambaIdx.Some? ==> d.mambaIdx == c.mambaIdx)
    && (c.track.Some? ==> d.track == c.track && d.nextTrack == c.nextTrack)
  }

  /** A new buffer: different slots that were free in all places, or in the lazy mode in the first, and -1
      in the others. */
  predicate NewTrack(track: seq<int>, sh: Shape, free: set<int>) {
    && |track| == sh.trackSize
    && (forall i :: 0 <= i < |track| ==> if i == 0 || !sh.lazy then track[i] in free else track[i] == -1)
    && (forall i, j :: 0 <= i < j < |track| && !sh.lazy ==> track[i] != track[j])
  }

  /** What a request has gained was free. */
  predicate Newly(c: Claim, d: Claim, sh: Shape, free: set<int>) {
    && (c.mambaIdx == None && d.mambaIdx.Some? ==> d.mambaIdx.value in free)
    && (c.track == None && d.track.Some? ==> NewTrack(d.track.value, sh, free) && d.nextTrack == Some(0))
  }

  /** No slot has been lost to the outside, or come from there; slots have only left the free set. */
  ghost predicate SameLent(l: Ledger, m: Ledger) {
    && m.owner.Keys == l.owner.Keys && m.free <= l.free
    && forall s :: s in l.owner ==> (m.owner[s] == Outside <==> l.owner[s] == Outside)
  }

  /** One request may have gained mamba slots. */
  ghost predicate Gains(l: Ledger, m: Ledger, r: Req, sh: Shape)
    requires r in l.claims
  {
    && m.slots == l.slots && m.claims.Keys == l.claims.Keys
    && Kept(l.claims[r], m.claims[r]) && Newly(l.claims[r], m.claims[r], sh, l.free) && SameLent(l, m)
    && forall q :: q in l.claims && q != r ==> m.claims[q] == l.claims[q]
  }

  lemma GainsTwice(l: Ledger, m: Ledger, n: Ledger, r: Req, sh: Shape)
    requires r in l.claims && Gains(l, m, r, sh) && Gains(m, n, r, sh)
    ensures Gains(l, n, r, sh)
  {
  }

  /** Free slots that go into the active place or into a new buffer are gained by the request. */
  lemma ActivateGains(l: Ledger, r: Req, s: int, sh: Shape)
    requires MambaOwned(l) && r in l.claims && l.claims[r].mambaIdx == None && s in l.free
    ensures Gains(l, Activate(HandOut(l, [s]), r, s), r, sh)
  {
    assert s in [s];
  }

  lemma AttachGains(l: Ledger, r: Req, slots: seq<int>, buf: seq<int>, sh: Shape)
    requires MambaOwned(l) && r in l.claims && l.claims[r].track == None
    requires Distinct(slots) && forall s :: s in slots ==> s in l.free
    requires |slots| == (if sh.lazy then 1 else sh.trackSize) <= sh.trackSize && buf == slots + seq(sh.trackSize - |slots|, _ => -1)
    ensures NewTrack(buf, sh, l.free) && l.free - (set s | s in buf) == l.free - (set s | s in slots)
    ensures Gains(l, Attach(HandOut(l, slots), r, buf), r, sh)
  {
    var m := Attach(HandOut(l, slots), r, buf);
    assert forall i :: 0 <= i < |slots| ==> buf[i] == slots[i] && slots[i] in slots;
    forall s | s in l.owner
      ensures m.owner[s] == Outside <==> l.owner[s] == Outside
    {
      if s in buf {
        assert s in slots || s == -1;
      }
    }
    FreeBut(l.free, slots, sh.trackSize - |slots|, buf);
  }

  lemma FreeBut(free: set<int>, slots: seq<int>, padding: nat, buf: seq<int>)
    requires -1 !in free && buf == slots + seq(padding, _ => -1)
    ensures free - (set s | s in buf) == free - (set s | s in slots)
  {
  }

  /** A slot that has left the free set is held by a request of the batch. */
  ghost predicate HeldIn(l: Ledger, batch: seq<Req>, s: int) {
    exists i, p {:trigger Holds(l.claims[batch[i]], p, s)} :: 0 <= i < |batch| && batch[i] in l.claims && Holds(l.claims[batch[i]], p, s)
  }

  lemma LeftAreHeld(l: Ledger, m: Ledger, batch: seq<Req>, s: int)
    requires MambaOwned(l) && MambaOwned(m) && SameLent(l, m) && m.claims.Keys == l.claims.Keys
    requires forall q :: q in l.claims && q !in batch ==> m.claims[q] == l.claims[q].(reqIdx := m.claims[q].reqIdx)
    requires s in l.free && s !in m.free
    ensures HeldIn(m, batch, s)
  {
    assert Backed(m, s) && l.owner[s] == Idle;
    var (r, p) := if m.owner[s].Active? then (m.owner[s].r, ActivePlace) else (m.owner[s].r, TrackPlace(m.owner[s].i));
    assert Holds(m.claims[r], p, s);
    assert Honoured(l, r);
    assert r in batch;
    var i :| 0 <= i < |batch| && batch[i] == r;
    assert Holds(m.claims[batch[i]], p, s);
  }

  /** The first `i` requests of a batch have all the mamba slots they need. */
  ghost predicate EquippedAll(l: Ledger, m: Ledger, batch: seq<Req>, i: nat, sh: Shape)
    requires i <= |batch|
  {
    && m.slots == l.slots && m.claims.Keys == l.claims.Keys && Known(l, batch) && SameLent(l, m)
    && (forall q :: q in l.claims ==> Kept(l.claims[q], m.claims[q]) && Newly(l.claims[q], m.claims[q], sh, l.free))
    && (forall q :: q in l.claims && q !in batch[..i] ==> m.claims[q] == l.claims[q])
    && (forall j :: 0 <= j < i ==> Equipped(m.claims[batch[j]], sh.extraBuffer))
  }

  /** What a request has that could not get all it lacks, when `left` slots were free: the active one, if
      there was one for it, and no buffer. */
  predicate StoppedAt(c: Claim, d: Claim, left: nat) {
    d.(mambaIdx := None) == c.(mambaIdx := None) && (d.mambaIdx.Some? <==> c.mambaIdx.Some? || left > 0)
  }

  /** Mamba slots are out at request `i` of a batch: the requests before it have all they need, those
      behind it what they had. Of `had` free slots fewer were left than the request lacks. */
  ghost predicate Stopped(l: Ledger, m: Ledger, sh: Shape, batch: seq<Req>, i: nat, had: nat)
    requires i < |batch| && Known(l, batch)
  {
    && m.slots == l.slots && m.claims.Keys == l.claims.Keys && SameLent(l, m)
    && (forall q :: q in l.claims ==> Kept(l.claims[q], m.claims[q]) && Newly(l.claims[q], m.claims[q], sh, l.free))
    && (forall q :: q in l.claims && q !in batch[..i + 1] ==> m.claims[q] == l.claims[q])
    && (forall j :: 0 <= j < i ==> Equipped(m.claims[batch[j]], sh.extraBuffer))
    && var left := had - (LacksAll(l, sh, batch, 0) - LacksAll(l, sh, batch, i));
    0 <= left < Lacks(l.claims[batch[i]], sh) && StoppedAt(l.claims[batch[i]], m.claims[batch[i]], left)
  }

  lemma StoppedHere(l: Ledger, m: Ledger, n: Ledger, sh: Shape, batch: seq<Req>, i: nat, had: nat, left: nat)
    requires i < |batch| && Known(l, batch) && Distinct(batch)
    requires EquippedAll(l, m, batch, i, sh) && Gains(m, n, batch[i], sh)
    requires left == had - (LacksAll(l, sh, batch, 0) - LacksAll(l, sh, batch, i)) < Lacks(m.claims[batch[i]], sh)
    requires StoppedAt(m.claims[batch[i]], n.claims[batch[i]], left)
    ensures Stopped(l, n, sh, batch, i, had)
  {
    assert batch[..i + 1] == batch[..i] + [batch[i]];
  }

  lemma EquippedNext(l: Ledger, m: Ledger, n: Ledger, batch: seq<Req>, i: nat, sh: Shape)
    requires i < |batch| && Known(l, batch) && Distinct(batch)
    requires EquippedAll(l, m, batch, i, sh) && Gains(m, n, batch[i], sh)
    ensures m.claims[batch[i]] == l.claims[batch[i]]
    ensures Equipped(n.claims[batch[i]], sh.extraBuffer) ==> EquippedAll(l, n, batch, i + 1, sh)
  {
    assert batch[..i + 1] == batch[..i] + [batch[i]];
  }

  /** The rows are right but for the requests of a batch from the `i`th on. */
  ghost predicate RowsBut(l: Ledger, extraBuffer: bool, mambaRow: seq<int>, trackRow: seq<seq<int>>, batch: seq<Req>, i: nat)
    requires i <= |batch|
  {
    forall r :: r in l.claims && r !in batch[i..] ==> Mapped(l.claims[r], extraBuffer, mambaRow, trackRow)
  }

  /** Writing the rows of the next request. */
  lemma RowsNext(l: Ledger, sh: Shape, freeSlots: seq<nat>, mambaRow: seq<int>, trackRow: seq<seq<int>>, batch: seq<Req>, i: nat, rows: seq<seq<int>>)
    requires SlotsOwned(l, sh.size, freeSlots) && i < |batch| && Known(l, batch)
    requires RowsBut(l, sh.extraBuffer, mambaRow, trackRow, batch, i) && |mambaRow| == |trackRow| == |rows| == sh.size + 1
    requires var c := l.claims[batch[i]]; c.reqIdx.Some? && Equipped(c, sh.extraBuffer)
    requires var c := l.claims[batch[i]]; sh.extraBuffer && c.reqIdx.value <= sh.size ==> rows == trackRow[c.reqIdx.value := c.track.value]
    ensures l.claims[batch[i]].reqIdx.value <= sh.size
    ensures RowsBut(l, sh.extraBuffer, mambaRow[l.claims[batch[i]].reqIdx.value := l.claims[batch[i]].mambaIdx.value], rows, batch, i + 1)
  {
    var c := l.claims[batch[i]];
    assert SlotHonoured(l, batch[i]);
    var row := mambaRow[c.reqIdx.value := c.mambaIdx.value];
    assert batch[i..] == [batch[i]] + batch[i + 1..];
    forall r | r in l.claims && r !in batch[i + 1..]
      ensures Mapped(l.claims[r], sh.extraBuffer, row, rows)
    {
      assert SlotHonoured(l, r);
      if r != batch[i] {
        assert Mapped(l.claims[r], sh.extraBuffer, mambaRow, trackRow);
      }
    }
  }

  lemma {:induction false} GrantsKeys(l: Ledger, free: seq<nat>, batch: seq<Req>, i: nat)
    requires i <= |batch| && Known(l, batch)
    ensures Grants(l, free, batch, i).claims.Keys == l.claims.Keys
    ensures Grants(l, free, batch, i).free == l.free && Grants(l, free, batch, i).owner == l.owner
    decreases |batch| - i
  {
    if i == |batch| {
    } else if l.claims[batch[i]].reqIdx.Some? || free == [] {
      GrantsKeys(l, free, batch, i + 1);
    } else {
      GrantsKeys(TakeSlot(l, batch[i], free[0]), free[1..], batch, i + 1);
    }
  }

  lemma LacksAllStays(l: Ledger, m: Ledger, sh: Shape, batch: seq<Req>, i: nat)
    requires i <= |batch| && Known(l, batch) && Known(m, batch)
    requires forall j :: i <= j < |batch| ==> l.claims[batch[j]].(reqIdx := None) == m.claims[batch[j]].(reqIdx := None)
    ensures LacksAll(l, sh, batch, i) == LacksAll(m, sh, batch, i)
    decreases |batch| - i
  {
    if i < |batch| {
      assert l.claims[batch[i]].(reqIdx := None) == m.claims[batch[i]].(reqIdx := None);
      LacksAllStays(l, m, sh, batch, i + 1);
    }
  }

  /** Granting request slots leaves no request of the batch without one and touches no mamba slot. */
  lemma GrantsAll(l: Ledger, free: seq<nat>, sh: Shape, batch: seq<Req>)
    requires Known(l, batch) && Distinct(batch) && Needed(l, batch, 0) <= |free|
    ensures Known(Grants(l, free, batch, 0), batch)
    ensures LacksAll(Grants(l, free, batch, 0), sh, batch, 0) == LacksAll(l, sh, batch, 0)
    ensures forall j :: 0 <= j < |batch| ==> Grants(l, free, batch, 0).claims[batch[j]].reqIdx.Some?
  {
    var m := Grants(l, free, batch, 0);
    GrantsKeys(l, free, batch, 0);
    forall j | 0 <= j < |batch|
      ensures l.claims[batch[j]].(reqIdx := None) == m.claims[batch[j]].(reqIdx := None) && m.claims[batch[j]].reqIdx.Some?
    {
      GrantsFrame(l, free, batch, 0, batch[j]);
      if l.claims[batch[j]].reqIdx == None {
        GrantsInOrder(l, free, batch, 0, j);
      }
    }
    LacksAllStays(l, m, sh, batch, 0);
  }

  /** Until the rows are written, those of other requests stay right. */
  lemma RowsAfterGrants(l: Ledger, free: seq<nat>, extraBuffer: bool, mambaRow: seq<int>, trackRow: seq<seq<int>>, batch: seq<Req>)
    requires Known(l, batch) && RowsOk(l, extraBuffer, mambaRow, trackRow)
    ensures RowsBut(Grants(l, free, batch, 0), extraBuffer, mambaRow, trackRow, batch, 0)
  {
    var m := Grants(l, free, batch, 0);
    assert batch[0..] == batch;
    forall r | r in m.claims && r !in batch
      ensures Mapped(m.claims[r], extraBuffer, mambaRow, trackRow)
    {
      GrantsKeys(l, free, batch, 0);
      GrantsFrame(l, free, batch, 0, r);
    }
  }

  lemma RowsAfterEquip(l: Ledger, m: Ledger, sh: Shape, mambaRow: seq<int>, trackRow: seq<seq<int>>, batch: seq<Req>)
    requires Known(l, batch) && RowsBut(l, sh.extraBuffer, mambaRow, trackRow, batch, 0)
    requires EquippedAll(l, m, batch, |batch|, sh)
    ensures RowsBut(m, sh.extraBuffer, mambaRow, trackRow, batch, 0)
  {
    assert batch[0..] == batch[..|batch|] == batch;
  }

  /** What the requests of a batch have gained was free, and what has left the free set they hold. */
  ghost predicate FromFree(l: Ledger, m: Ledger, sh: Shape, batch: seq<Req>) {
    && (forall i :: 0 <= i < |batch| && batch[i] in l.claims && batch[i] in m.claims ==>
          Newly(l.claims[batch[i]], m.claims[batch[i]], sh, l.free))
    && (forall s {:trigger s in m.free} :: s in l.free && s !in m.free ==> HeldIn(m, batch, s))
    && m.free <= l.free
  }

  lemma AllFromFree(l: Ledger, free: seq<nat>, m: Ledger, sh: Shape, batch: seq<Req>)
    requires Known(l, batch) && MambaOwned(l) && MambaOwned(m) && SameLent(Grants(l, free, batch, 0), m)
    requires var g := Grants(l, free, batch, 0);
      && m.claims.Keys == g.claims.Keys
      && (forall q :: q in g.claims ==> Newly(g.claims[q], m.claims[q], sh, g.free))
      && (forall q :: q in g.claims && q !in batch ==> m.claims[q] == g.claims[q])
    ensures FromFree(l, m, sh, batch)
  {
    GrantsKeys(l, free, batch, 0);
    var g := Grants(l, free, batch, 0);
    forall q | q in l.claims
      ensures g.claims[q].(reqIdx := None) == l.claims[q].(reqIdx := None)
    {
      GrantsFrame(l, free, batch, 0, q);
    }
    forall s | s in l.free && s !in m.free
      ensures HeldIn(m, batch, s)
    {
      LeftAreHeld(l, m, batch, s);
    }
  }

  lemma NothingGained(l: Ledger, sh: Shape, batch: seq<Req>, mambaRow: seq<int>, trackRow: seq<seq<int>>)
    requires RowsOk(l, sh.extraBuffer, mambaRow, trackRow)
    ensures FromFree(l, l, sh, batch) && RowsOfUnchanged(l, l, sh.extraBuffer, mambaRow, trackRow)
    ensures GainedMapped(l, l, sh.extraBuffer, mambaRow, trackRow, batch)
  {
  }

  lemma EquippedFromFree(l: Ledger, free: seq<nat>, m: Ledger, sh: Shape, batch: seq<Req>)
    requires Known(l, batch) && MambaOwned(l) && MambaOwned(m) && EquippedAll(Grants(l, free, batch, 0), m, batch, |batch|, sh)
    ensures FromFree(l, m, sh, batch)
  {
    assert batch[..|batch|] == batch;
    AllFromFree(l, free, m, sh, batch);
  }

  lemma StoppedFromFree(l: Ledger, free: seq<nat>, m: Ledger, sh: Shape, batch: seq<Req>, i: nat, had: nat)
    requires Known(l, batch) && MambaOwned(l) && MambaOwned(m) && i < |batch| && Known(Grants(l, free, batch, 0), batch)
    requires Stopped(Grants(l, free, batch, 0), m, sh, batch, i, had)
    ensures FromFree(l, m, sh, batch)
  {
    AllFromFree(l, free, m, sh, batch);
  }

  /** The rows of requests whose claims have not changed stay right while no row is written. */
  ghost predicate RowsOfUnchanged(l: Ledger, m: Ledger, extraBuffer: bool, mambaRow: seq<int>, trackRow: seq<seq<int>>) {
    forall r :: r in l.claims && r in m.claims && m.claims[r] == l.claims[r] ==> Mapped(m.claims[r], extraBuffer, mambaRow, trackRow)
  }

  /** A call that has given out slots and written no row leaves the pool valid exactly if the rows that were
      there happen to be right for the requests of the batch that have gained something. */
  lemma RowsAfterStop(l: Ledger, free: seq<nat>, m: Ledger, sh: Shape, batch: seq<Req>, i: nat, had: nat, mambaRow: seq<int>, trackRow: seq<seq<int>>)
    requires Known(l, batch) && RowsOk(l, sh.extraBuffer, mambaRow, trackRow) && i < |batch|
    requires Known(Grants(l, free, batch, 0), batch) && Stopped(Grants(l, free, batch, 0), m, sh, batch, i, had)
    ensures m.claims.Keys == l.claims.Keys && RowsOfUnchanged(l, m, sh.extraBuffer, mambaRow, trackRow)
    ensures forall r :: r in l.claims && r !in batch ==> m.claims[r] == l.claims[r]
    ensures RowsOk(m, sh.extraBuffer, mambaRow, trackRow) <==> GainedMapped(l, m, sh.extraBuffer, mambaRow, trackRow, batch)
  {
    GrantsKeys(l, free, batch, 0);
    forall r | r in l.claims && r !in batch
      ensures m.claims[r] == l.claims[r]
    {
      GrantsFrame(l, free, batch, 0, r);
    }
    if GainedMapped(l, m, sh.extraBuffer, mambaRow, trackRow, batch) {
      forall r | r in m.claims
        ensures Mapped(m.claims[r], sh.extraBuffer, mambaRow, trackRow)
      {
        if m.claims[r] != l.claims[r] {
          var j :| 0 <= j < |batch| && batch[j] == r;
        }
      }
    }
  }

  ghost predicate GainedMapped(l: Ledger, m: Ledger, extraBuffer: bool, mambaRow: seq<int>, trackRow: seq<seq<int>>, batch: seq<Req>) {
    forall i :: 0 <= i < |batch| && batch[i] in l.claims && batch[i] in m.claims && m.claims[batch[i]] != l.claims[batch[i]] ==>
      Mapped(m.claims[batch[i]], extraBuffer, mambaRow, trackRow)
  }

  /** Any `n` slots of a set, each once. */
  method Take(free: set<int>, n: nat) returns (taken: seq<int>)
    requires n <= |free|
    ensures |taken| == n && Distinct(taken) && forall s :: s in taken ==> s in free
    ensures |free - (set s | s in taken)| == |free| - n
  {
    taken := [];
    var rest := free;
    while |taken| < n
      invariant |taken| <= n && |rest| == |free| - |taken|
      invariant rest == set s | s in free && s !in taken
      invariant Distinct(taken) && forall s :: s in taken ==> s in free
    {
      var s := Pick(rest);
      taken := taken + [s];
      rest := rest - {s};
    }
    assert free - (set s | s in taken) == rest;
  }

  /** The ways a call can end: with a result, with `None`, or with a failed assertion. */
  datatype Outcome<+T> = Done(result: T) | NoSpace | Failed

  /** Every request slot has a row of zeros, as wide as a buffer if there are buffers. */
  predicate Zeroed(trackRow: seq<seq<int>>, sh: Shape) {
    && |trackRow| == sh.size + 1
    && forall i :: 0 <= i < |trackRow| ==>
         |trackRow[i]| == (if sh.extraBuffer then sh.trackSize else 0) && forall k :: 0 <= k < |trackRow[i]| ==> trackRow[i][k] == 0
  }

  /** A request that comes back with a slot is a chunked one or has committed tokens. */
  predicate Reusable(batch: seq<Req>)
    reads batch
  {
    forall i :: 0 <= i < |batch| && batch[i].reqIdx.Some? ==> batch[i].inflight > 0 || batch[i].committed > 0
  }

  class HybridPool {
    const shape: Shape

    var freeSlots: seq<nat>
    var mambaFree: set<int>
    var mambaRow: seq<int>
    var trackRow: seq<seq<int>>

    ghost var ledger: Ledger

    ghost function Requests(): set<Req>
      reads this
    {
      ledger.claims.Keys
    }

    /** Every request's fields are what the ledger says. */
    ghost predicate Synced()
      reads this, Requests()
    {
      mambaFree == ledger.free && forall r :: r in ledger.claims ==> r.Claims() == ledger.claims[r]
    }

    /** Ownership of all slots; it survives a failed assertion. */
    ghost predicate Owned()
      reads this, Requests()
    {
      |mambaRow| == |trackRow| == shape.size + 1 && LedgerOk(ledger, shape, freeSlots) && Synced()
    }

    ghost predicate Valid()
      reads this, Requests()
    {
      Owned() && RowsOk(ledger, shape.extraBuffer, mambaRow, trackRow)
    }

    /** An empty pool over the given mamba slots. */
    constructor (size: nat, mambaSlots: set<int>, extraBuffer: bool, lazy: bool, overlap: bool)
      requires -1 !in mambaSlots
      ensures Valid() && ledger.claims == map[] && mambaFree == mambaSlots
      ensures shape == Shape(size, mambaSlots, extraBuffer, lazy, if overlap then 2 else 1)
      ensures freeSlots == AllSlots(size) && mambaRow == seq(size + 1, _ => 0) && Zeroed(trackRow, shape)
    {
      shape := Shape(size, mambaSlots, extraBuffer, lazy, if overlap then 2 else 1);
      freeSlots := AllSlots(size);
      mambaFree := mambaSlots;
      mambaRow := seq(size + 1, _ => 0);
      trackRow := seq(size + 1, _ => seq(if !extraBuffer then 0 else if overlap then 2 else 1, _ => 0));
      ledger := EmptyLedger(Shape(size, mambaSlots, extraBuffer, lazy, if overlap then 2 else 1), map[]);
      new;
      EmptyOk(shape, map[], mambaRow, trackRow);
    }

    /** `n` free mamba slots for the caller, or nothing when there are fewer. */
    method AllocMamba(n: nat) returns (slots: Option<seq<int>>)
      requires Owned()
      modifies this`mambaFree, this`ledger
      ensures Owned()
      ensures slots.None? <==> n > |old(mambaFree)|
      ensures slots.None? ==> ledger == old(ledger) && mambaFree == old(mambaFree)
      ensures slots.Some? ==>
                && |slots.value| == n && Distinct(slots.value)
                && (forall s :: s in slots.value ==> s in old(mambaFree))
                && ledger == HandOut(old(ledger), slots.value) && AreOutside(ledger, slots.value)
                && |mambaFree| == |old(mambaFree)| - n
    {
      if n > |mambaFree| {
        return None;
      }
      var taken := Take(mambaFree, n);
      HandOutOk(ledger, shape, freeSlots, taken);
      mambaFree := mambaFree - (set s | s in taken);
      ledger := HandOut(ledger, taken);
      slots := Some(taken);
    }

    /** Slots from outside go back to the free ones. */
    method FreeMamba(slots: seq<int>)
      requires Owned() && AreOutside(ledger, slots)
      modifies this`mambaFree, this`ledger
      ensures Owned() && ledger == TakeBack(old(ledger), slots)
    {
      TakeBackOk(ledger, shape, freeSlots, slots);
      mambaFree := mambaFree + (set s | s in slots);
      ledger := TakeBack(ledger, slots);
    }

    // -----------------------------------------------------------------------------------------
    // Ping-pong buffers
    // -----------------------------------------------------------------------------------------

    function OtherIdx(i: nat): nat {
      if shape.trackSize == 2 then (if i == 0 then 1 else 0) else i
    }

    /** The place that holds the most recent tracked state. */
    function KeepIdx(i: nat): nat {
      if shape.lazy then i else OtherIdx(i)
    }

    /** A slot from outside, say that of a cached prefix, becomes the active state of a request. */
    method Adopt(r: Req, s: int)
      requires Owned() && r in ledger.claims && r.mambaIdx == None && AreOutside(ledger, [s])
      modifies this`ledger, r`mambaIdx
      ensures Owned() && ledger == Activate(old(ledger), r, s) && r.mambaIdx == Some(s)
      ensures old(Valid()) && r.reqIdx == None ==> Valid()
    {
      ActivateOk(ledger, shape, freeSlots, r, s);
      if RowsOk(ledger, shape.extraBuffer, mambaRow, trackRow) && r.reqIdx == None {
        RowsFrame(ledger, Activate(ledger, r, s), shape.extraBuffer, mambaRow, trackRow);
      }
      r.mambaIdx := Some(s);
      ledger := Activate(ledger, r, s);
    }

    /** After a state has been tracked in the next place, the request goes on with the other one: what
        has just been tracked is now what would be kept. In the lazy mode the place stays. */
    method Advance(r: Req)
      requires Valid() && r in ledger.claims && r.track.Some?
      modifies this`ledger, r`nextTrack
      ensures Valid() && old(r.nextTrack).Some? && r.nextTrack.Some?
      ensures ledger == old(ledger).(claims := old(ledger).claims[r := old(ledger).claims[r].(nextTrack := r.nextTrack)])
      ensures old(r.nextTrack).value < shape.trackSize
      ensures r.nextTrack == Some(if shape.trackSize == 2 then 1 - old(r.nextTrack).value else old(r.nextTrack).value)
      ensures KeepIdx(r.nextTrack.value) == if shape.lazy then r.nextTrack.value else old(r.nextTrack).value
    {
      assert WellTracked(ledger.claims[r], shape.trackSize);
      var next := OtherIdx(r.nextTrack.value);
      AdvanceOk(ledger, shape, freeSlots, r, next, mambaRow, trackRow);
      r.nextTrack := Some(next);
      ledger := ledger.(claims := ledger.claims[r := ledger.claims[r].(nextTrack := Some(next))]);
    }

    /** A request without a buffer gets one: all places filled, or in the lazy mode only the first. */
    method AllocTrack(r: Req) returns (ok: bool)
      requires Owned() && shape.extraBuffer && r in ledger.claims && ledger.claims[r].track == None
      modifies this`mambaFree, this`ledger, r`track, r`nextTrack
      ensures Owned() && Gains(old(ledger), ledger, r, shape)
      ensures !ok ==> ledger == old(ledger)
      ensures ok <==> (if shape.lazy then 1 else shape.trackSize) <= |old(mambaFree)|
      ensures ok ==> ledger.claims[r] == old(ledger.claims[r]).(track := r.track, nextTrack := Some(0)) && r.track.Some?
      ensures ok ==> |mambaFree| == |old(mambaFree)| - (if shape.lazy then 1 else shape.trackSize)
      ensures ok ==> NewTrack(r.track.value, shape, old(mambaFree))
      ensures ok ==> mambaFree == old(mambaFree) - (set s | s in r.track.value)
    {
      var n := if shape.lazy then 1 else shape.trackSize;
      var slots := AllocMamba(n);
      if slots == None {
        return false;
      }
      TrackSlots(r, slots.value, old(ledger));
      ok := true;
    }

    /** The new buffer of slots that have just left the free set of the ledger `l`. */
    method TrackSlots(r: Req, slots: seq<int>, ghost l: Ledger)
      requires Owned() && shape.extraBuffer && r in ledger.claims && ledger.claims[r].track == None && MambaOwned(l)
      requires Distinct(slots) && (forall s :: s in slots ==> s in l.free) && |slots| == (if shape.lazy then 1 else shape.trackSize)
      requires ledger == HandOut(l, slots) && AreOutside(ledger, slots)
      modifies this`ledger, r`track, r`nextTrack
      ensures Owned() && Gains(l, ledger, r, shape) && r.track.Some? && NewTrack(r.track.value, shape, l.free)
      ensures ledger.claims[r] == old(ledger.claims[r]).(track := r.track, nextTrack := Some(0))
      ensures ledger.free == l.free - (set s | s in r.track.value)
    {
      var buf := slots + seq(shape.trackSize - |slots|, _ => -1);
      AttachGains(l, r, slots, buf, shape);
      NewBuffer(ledger, slots, shape.trackSize - |slots|);
      PutTrack(r, buf);
    }

    method PutTrack(r: Req, buf: seq<int>)
      requires Owned() && shape.extraBuffer && r in ledger.claims && ledger.claims[r].track == None
      requires |buf| == shape.trackSize && FreshBuffer(ledger, buf)
      modifies this`ledger, r`track, r`nextTrack
      ensures Owned() && ledger == Attach(old(ledger), r, buf)
      ensures r.track == Some(buf) && r.nextTrack == Some(0)
    {
      AttachOk(ledger, shape, freeSlots, r, buf);
      r.track, r.nextTrack := Some(buf), Some(0);
      ledger := Attach(ledger, r, buf);
    }

    /** Puts a slot of the caller, or -1, into a place of the buffer and keeps the row in step; the
        slot that was there is in the caller's hands. */
    method SetTrackSlot(r: Req, i: nat, v: int)
      requires Valid() && r in ledger.claims && r.reqIdx.Some? && r.track.Some? && i < shape.trackSize
      requires v == -1 || AreOutside(ledger, [v])
      modifies this`trackRow, this`ledger, r`track
      ensures Valid() && ledger == Swap(old(ledger), r, i, v)
      ensures r.track == Some(old(r.track.value)[i := v])
      ensures r.reqIdx.value < |old(trackRow)| && trackRow == old(trackRow)[r.reqIdx.value := r.track.value]
      ensures old(r.track.value)[i] != -1 ==> AreOutside(ledger, [old(r.track.value)[i]])
    {
      SwapRows(ledger, shape, freeSlots, r, i, v, mambaRow, trackRow);
      SwapTrack(r, i, v);
      trackRow := trackRow[r.reqIdx.value := r.track.value];
    }

    /** The same without the row. */
    method SwapTrack(r: Req, i: nat, v: int)
      requires Owned() && r in ledger.claims && r.track.Some? && i < shape.trackSize
      requires v == -1 || AreOutside(ledger, [v])
      modifies this`ledger, r`track
      ensures Owned() && ledger == Swap(old(ledger), r, i, v)
      ensures r.track == Some(old(r.track.value)[i := v])
      ensures old(r.track.value)[i] != -1 ==> AreOutside(ledger, [old(r.track.value)[i]])
    {
      SwapOk(ledger, shape, freeSlots, r, i, v);
      r.track := Some(r.track.value[i := v]);
      ledger := Swap(ledger, r, i, v);
    }

    /** Hands the slot of the most recent tracked state to the cache and puts a new slot in its
        place; a place without a slot fails the assertion and changes nothing. */
    method DonateTrackSlot(r: Req, newSlot: int) returns (o: Outcome<int>)
      requires Valid() && r in ledger.claims && r.reqIdx.Some? && r.track.Some?
      requires AreOutside(ledger, [newSlot])
      modifies this`trackRow, this`ledger, r`track
      ensures Valid()
      ensures r.nextTrack.Some? && r.nextTrack.value < shape.trackSize
      ensures var i := if shape.lazy || shape.trackSize == 1 then r.nextTrack.value else 1 - r.nextTrack.value;
        && 0 <= i < shape.trackSize == |old(r.track.value)|
        && (o.Failed? <==> old(r.track.value)[i] == -1)
        && (o.Failed? ==> ledger == old(ledger) && r.track == old(r.track))
        && (!o.Failed? ==>
              && o == Done(old(r.track.value)[i]) && ledger == Swap(old(ledger), r, i, newSlot)
              && r.track == Some(old(r.track.value)[i := newSlot])
              && AreOutside(ledger, [o.result]))
    {
      assert WellTracked(ledger.claims[r], shape.trackSize);
      assert newSlot in [newSlot];
      var i := KeepIdx(r.nextTrack.value);
      var donated := r.track.value[i];
      if donated == -1 {
        return Failed;
      }
      SetTrackSlot(r, i, newSlot);
      o := Done(donated);
    }

    // -----------------------------------------------------------------------------------------
    // Freeing
    // -----------------------------------------------------------------------------------------

    /** The request slot comes back to the end of the list. */
    method Free(r: Req)
      requires Valid() && r in ledger.claims && r.reqIdx.Some?
      modifies this`freeSlots, this`ledger, r`reqIdx
      ensures Valid() && ledger == ReturnSlot(old(ledger), r)
      ensures freeSlots == old(freeSlots) + [old(r.reqIdx).value] && r.reqIdx == None
    {
      ReturnOk(ledger, shape, freeSlots, r, mambaRow, trackRow);
      freeSlots := freeSlots + [r.reqIdx.value];
      r.reqIdx := None;
      ledger := ReturnSlot(ledger, r);
    }

    /** The mamba slots of a leaving request: the active one becomes free, and so do the places of
        its buffer but the one to keep, which stays with the cache. False is a failed assertion:
        nothing to free, or a bad place to keep, in which case the active slot is free already. A
        place without a slot is passed over in the lazy mode only; in the eager mode it would get
        -1 into the free slots. */
    method FreeMambaCache(r: Req, keep: Option<int>) returns (ok: bool)
      requires Valid() && r in ledger.claims
      requires shape.extraBuffer && r.mambaIdx.Some? ==> r.reqIdx.Some?
      modifies this`mambaFree, this`ledger, r`mambaIdx, r`track, r`nextTrack
      ensures ok <==>
                && old(r.mambaIdx).Some?
                && (shape.extraBuffer ==> keep == None || keep.value == 0 || (keep.value == 1 && shape.trackSize == 2))
      ensures Synced() && ledger.claims.Keys == old(ledger.claims.Keys)
      ensures old(r.mambaIdx) == None ==> ledger == old(ledger)
      ensures old(r.mambaIdx).Some? && !(ok && shape.extraBuffer) ==> ledger == Vacate(old(ledger), r)
      ensures ok && shape.extraBuffer ==>
                && old(r.track).Some? && |old(r.track).value| == shape.trackSize
                && ledger == Drop(Vacate(old(ledger), r), r, Freed(old(r.track).value, keep, shape.lazy))
      ensures ok ==> r.mambaIdx == None && (shape.extraBuffer ==> r.track == None)
      ensures Valid() <==> !(ok && shape.extraBuffer && -1 in Freed(old(r.track).value, keep, shape.lazy))
    {
      if r.mambaIdx == None {
        return false;
      }
      assert Mapped(ledger.claims[r], shape.extraBuffer, mambaRow, trackRow);
      assert WellTracked(ledger.claims[r], shape.trackSize);
      FreeActive(r);
      ok := true;
      if shape.extraBuffer {
        ok := FreeTrack(r, keep);
      }
    }

    /** The places of the buffer, as its row has them. */
    method FreeTrack(r: Req, keep: Option<int>) returns (ok: bool)
      requires Valid() && r in ledger.claims && r.mambaIdx == None && r.track.Some?
      requires r.reqIdx.Some? && r.reqIdx.value < |trackRow| && trackRow[r.reqIdx.value] == r.track.value
      requires |r.track.value| == shape.trackSize
      modifies this`mambaFree, this`ledger, r`track, r`nextTrack
      ensures ok <==> keep == None || keep.value == 0 || (keep.value == 1 && shape.trackSize == 2)
      ensures Synced() && (!ok ==> ledger == old(ledger) && Valid())
      ensures ok ==> ledger == Drop(old(ledger), r, Freed(old(r.track).value, keep, shape.lazy)) && r.track == None
      ensures ok ==> (Valid() <==> -1 !in Freed(old(r.track).value, keep, shape.lazy))
    {
      ghost var row := r.track.value;
      ToFreeIs(row, keep);
      var toFree := ToFree(trackRow[r.reqIdx.value], keep);
      if toFree == None {
        return false;
      }
      if shape.lazy {
        toFree := Some(Real(toFree.value));
      }
      assert toFree.value == Freed(row, keep, shape.lazy);
      DropBuffer(r, toFree.value);
      ok := true;
    }

    method FreeActive(r: Req)
      requires Valid() && r in ledger.claims && r.mambaIdx.Some?
      modifies this`mambaFree, this`ledger, r`mambaIdx
      ensures Valid() && ledger == Vacate(old(ledger), r) && r.mambaIdx == None
    {
      VacateOk(ledger, shape, freeSlots, r, mambaRow, trackRow);
      mambaFree := mambaFree + {r.mambaIdx.value};
      ledger := Vacate(ledger, r);
      r.mambaIdx := None;
    }

    method DropBuffer(r: Req, toFree: seq<int>)
      requires Valid() && r in ledger.claims && r.mambaIdx == None && r.track.Some?
      requires forall s :: s in toFree ==> s in r.track.value
      modifies this`mambaFree, this`ledger, r`track, r`nextTrack
      ensures ledger == Drop(old(ledger), r, toFree) && r.track == None
      ensures Synced() && (Valid() <==> -1 !in toFree)
    {
      if -1 !in toFree {
        DropOk(ledger, shape, freeSlots, r, toFree, mambaRow, trackRow);
      }
      mambaFree := mambaFree + (set t | t in toFree);
      ledger := Drop(ledger, r, toFree);
      r.track, r.nextTrack := None, None;
    }

    // -----------------------------------------------------------------------------------------
    // Allocation
    // -----------------------------------------------------------------------------------------

    /** A request that holds no slots yet becomes known to the pool. */
    ghost method Enrol(r: Req)
      requires Valid() && r !in ledger.claims && r.Claims() == NO_CLAIM
      modifies this`ledger
      ensures Valid() && ledger == old(ledger).(claims := old(ledger).claims[r := NO_CLAIM])
    {
      EnrolOk(ledger, shape, freeSlots, r, mambaRow, trackRow);
      ledger := ledger.(claims := ledger.claims[r := NO_CLAIM]);
    }

    /** A request without a slot takes the first free one. */
    method GrantSlot(r: Req)
      requires Owned() && r in ledger.claims && (r.reqIdx == None ==> freeSlots != [])
      modifies this`freeSlots, this`ledger, r`reqIdx
      ensures Owned() && r.reqIdx.Some?
      ensures old(r.reqIdx).Some? ==> ledger == old(ledger) && freeSlots == old(freeSlots) && r.reqIdx == old(r.reqIdx)
      ensures old(r.reqIdx) == None ==>
                && old(freeSlots) != [] && r.reqIdx == Some(old(freeSlots)[0])
                && ledger == TakeSlot(old(ledger), r, old(freeSlots)[0]) && freeSlots == old(freeSlots)[1..]
    {
      if r.reqIdx == None {
        TakeSlotOk(ledger, shape, freeSlots, r);
        r.reqIdx := Some(freeSlots[0]);
        ledger := TakeSlot(ledger, r, freeSlots[0]);
        freeSlots := freeSlots[1..];
      }
    }

    /** A request without an active mamba slot gets one. */
    method GrantMamba(r: Req) returns (ok: bool)
      requires Owned() && r in ledger.claims
      modifies this`mambaFree, this`ledger, r`mambaIdx
      ensures Owned() && Gains(old(ledger), ledger, r, shape) && (ok <==> old(r.mambaIdx).Some? || old(mambaFree) != {})
      ensures ok ==> r.mambaIdx.Some?
      ensures old(r.mambaIdx).Some? || !ok ==> ledger == old(ledger)
      ensures |mambaFree| == |old(mambaFree)| - (if ok && old(r.mambaIdx) == None then 1 else 0)
      ensures ok && old(r.mambaIdx) == None ==>
                && r.mambaIdx.value in old(mambaFree)
                && ledger == Activate(HandOut(old(ledger), [r.mambaIdx.value]), r, r.mambaIdx.value)
    {
      if r.mambaIdx.Some? {
        return true;
      }
      var mid := AllocMamba(1);
      if mid == None {
        assert |old(mambaFree)| == 0;
        return false;
      }
      assert mid.value == [mid.value[0]];
      ActivateGains(old(ledger), r, mid.value[0], shape);
      Adopt(r, mid.value[0]);
      ok := true;
    }

    /** Request slots for a whole batch, in order, from the front of the free list. */
    method GrantSlots(batch: seq<Req>)
      requires Owned() && Distinct(batch) && Known(ledger, batch)
      requires Needed(ledger, batch, 0) <= |freeSlots|
      modifies this`freeSlots, this`ledger, batch`reqIdx
      ensures Owned() && ledger == Grants(old(ledger), old(freeSlots), batch, 0)
      ensures freeSlots == old(freeSlots)[Needed(old(ledger), batch, 0)..]
    {
      ghost var before, orig := ledger, freeSlots;
      ghost var used := 0;
      for i := 0 to |batch|
        invariant Owned() && Known(ledger, batch)
        invariant used + Needed(ledger, batch, i) == Needed(before, batch, 0) <= |orig| && freeSlots == orig[used..]
        invariant Grants(ledger, freeSlots, batch, i) == Grants(before, orig, batch, 0)
      {
        ghost var l := ledger;
        GrantSlot(batch[i]);
        NeededStays(l, ledger, batch, i + 1);
        used := used + if l.claims[batch[i]].reqIdx == None then 1 else 0;
      }
    }

    /** All the mamba slots that a request lacks; on a failure it may have got the active one. */
    method Equip(r: Req) returns (ok: bool)
      requires Owned() && r in ledger.claims
      modifies this`mambaFree, this`ledger, r`mambaIdx, r`track, r`nextTrack
      ensures Owned() && Gains(old(ledger), ledger, r, shape)
      ensures ok <==> Lacks(old(ledger).claims[r], shape) <= |old(mambaFree)|
      ensures ok ==> Equipped(ledger.claims[r], shape.extraBuffer)
      ensures ok ==> |mambaFree| == |old(mambaFree)| - Lacks(old(ledger).claims[r], shape)
      ensures !ok ==> StoppedAt(old(ledger).claims[r], ledger.claims[r], |old(mambaFree)|)
    {
      ok := GrantMamba(r);
      if ok && shape.extraBuffer && r.track == None {
        ghost var mid := ledger;
        ok := AllocTrack(r);
        GainsTwice(old(ledger), mid, ledger, r, shape);
      }
    }

    /** The same for a whole batch, in order; a failure is reported at once, and `reached` is the request
        that could not get all it lacks. */
    method EquipAll(batch: seq<Req>) returns (ok: bool, ghost reached: nat)
      requires Owned() && Distinct(batch) && Known(ledger, batch)
      modifies this`mambaFree, this`ledger, batch`mambaIdx, batch`track, batch`nextTrack
      ensures Owned()
      ensures ok <==> LacksAll(old(ledger), shape, batch, 0) <= |old(mambaFree)|
      ensures ok ==> EquippedAll(old(ledger), ledger, batch, |batch|, shape)
      ensures ok ==> |mambaFree| == |old(mambaFree)| - LacksAll(old(ledger), shape, batch, 0)
      ensures !ok ==> reached < |batch| && Stopped(old(ledger), ledger, shape, batch, reached, |old(mambaFree)|)
    {
      ghost var before, had := ledger, |mambaFree|;
      for i := 0 to |batch|
        invariant Owned() && EquippedAll(before, ledger, batch, i, shape)
        invariant had - LacksAll(before, shape, batch, 0) == |mambaFree| - LacksAll(before, shape, batch, i)
      {
        ghost var l, left := ledger, |mambaFree|;
        ok := Equip(batch[i]);
        EquippedNext(before, l, ledger, batch, i, shape);
        if !ok {
          StoppedHere(before, l, ledger, shape, batch, i, had, left);
          reached := i;
          return;
        }
      }
      ok, reached := true, |batch|;
    }

    /** The rows of a batch of requests that hold all their slots. */
    method WriteRows(batch: seq<Req>)
      requires Owned() && Known(ledger, batch) && RowsBut(ledger, shape.extraBuffer, mambaRow, trackRow, batch, 0)
      requires forall i :: 0 <= i < |batch| ==> batch[i].reqIdx.Some? && Equipped(ledger.claims[batch[i]], shape.extraBuffer)
      modifies this`mambaRow, this`trackRow
      ensures Valid()
    {
      for i := 0 to |batch|
        invariant Owned() && RowsBut(ledger, shape.extraBuffer, mambaRow, trackRow, batch, i)
      {
        var r := batch[i];
        ghost var m, t := mambaRow, trackRow;
        assert SlotHonoured(ledger, r);
        mambaRow := mambaRow[r.reqIdx.value := r.mambaIdx.value];
        if shape.extraBuffer {
          trackRow := trackRow[r.reqIdx.value := r.track.value];
        }
        RowsNext(ledger, shape, freeSlots, m, t, batch, i, trackRow);
      }
      assert batch[|batch|..] == [];
    }

    /** Requests of the batch without a slot. */
    method CountNeeded(batch: seq<Req>) returns (need: nat)
      requires Owned() && Known(ledger, batch)
      ensures need == Needed(ledger, batch, 0)
    {
      need := 0;
      for i := 0 to |batch|
        invariant need + Needed(ledger, batch, i) == Needed(ledger, batch, 0)
      {
        if batch[i].reqIdx == None {
          need := need + 1;
        }
      }
    }

    /** Mamba slots and rows for requests that have their request slots. Without a request there is
        nothing to stack, which fails. */
    method Place(batch: seq<Req>) returns (ok: bool, ghost reached: nat)
      requires Owned() && Distinct(batch) && Known(ledger, batch) && RowsBut(ledger, shape.extraBuffer, mambaRow, trackRow, batch, 0)
      requires forall i :: 0 <= i < |batch| ==> ledger.claims[batch[i]].reqIdx.Some?
      modifies this`mambaFree, this`ledger, this`mambaRow, this`trackRow, batch`mambaIdx, batch`track, batch`nextTrack
      ensures Owned() && (ok ==> Valid())
      ensures ok <==> batch != [] && LacksAll(old(ledger), shape, batch, 0) <= |old(mambaFree)|
      ensures ok ==>
                && EquippedAll(old(ledger), ledger, batch, |batch|, shape)
                && |mambaFree| == |old(mambaFree)| - LacksAll(old(ledger), shape, batch, 0)
      ensures !ok ==> mambaRow == old(mambaRow) && trackRow == old(trackRow)
      ensures !ok && batch == [] ==> Valid() && ledger == old(ledger)
      ensures !ok && batch != [] ==>
                reached < |batch| && Stopped(old(ledger), ledger, shape, batch, reached, |old(mambaFree)|)
    {
      if batch == [] {
        return false, 0;
      }
      ok, reached := EquipAll(batch);
      if ok {
        RowsAfterEquip(old(ledger), ledger, shape, mambaRow, trackRow, batch);
        WriteRows(batch);
      }
    }

    /** The same right after the request slots have been granted, in terms of the ledger `l` and the free list
        before that. */
    method PlaceGranted(batch: seq<Req>, ghost l: Ledger, ghost free: seq<nat>) returns (ok: bool, ghost reached: nat)
      requires Owned() && Distinct(batch) && Known(l, batch) && MambaOwned(l) && RowsOk(l, shape.extraBuffer, mambaRow, trackRow)
      requires ledger == Grants(l, free, batch, 0) && Needed(l, batch, 0) <= |free|
      modifies this`mambaFree, this`ledger, this`mambaRow, this`trackRow, batch`mambaIdx, batch`track, batch`nextTrack
      ensures Owned() && (ok ==> Valid()) && ledger.claims.Keys == l.claims.Keys && Known(Grants(l, free, batch, 0), batch)
      ensures FromFree(l, ledger, shape, batch)
      ensures ok <==> batch != [] && LacksAll(l, shape, batch, 0) <= |old(mambaFree)|
      ensures ok ==>
                && EquippedAll(old(ledger), ledger, batch, |batch|, shape)
                && |mambaFree| == |old(mambaFree)| - LacksAll(l, shape, batch, 0)
      ensures forall i :: 0 <= i < |batch| ==> batch[i] in ledger.claims && ledger.claims[batch[i]].reqIdx == old(ledger.claims[batch[i]].reqIdx)
      ensures !ok ==>
                && mambaRow == old(mambaRow) && trackRow == old(trackRow)
                && RowsOfUnchanged(l, ledger, shape.extraBuffer, mambaRow, trackRow)
                && (Valid() <==> GainedMapped(l, ledger, shape.extraBuffer, mambaRow, trackRow, batch))
      ensures !ok && batch == [] ==> ledger == old(ledger)
      ensures !ok && batch != [] ==>
                reached < |batch| && Stopped(old(ledger), ledger, shape, batch, reached, |old(mambaFree)|)
    {
      GrantsKeys(l, free, batch, 0);
      GrantsAll(l, free, shape, batch);
      RowsAfterGrants(l, free, shape.extraBuffer, mambaRow, trackRow, batch);
      ok, reached := Place(batch);
      if ok {
        EquippedFromFree(l, free, ledger, shape, batch);
      } else if batch != [] {
        StoppedFromFree(l, free, ledger, shape, batch, reached, |old(mambaFree)|);
        RowsAfterStop(l, free, ledger, shape, batch, reached, |old(mambaFree)|, mambaRow, trackRow);
      }
    }

    /** Request slots for a batch, and the slot of each request. */
    method AllocSlots(batch: seq<Req>) returns (o: Outcome<seq<nat>>)
      requires Owned() && Distinct(batch) && Known(ledger, batch)
      modifies this`freeSlots, this`ledger, batch`reqIdx
      ensures Owned()
      ensures o.Failed? <==> !old(Reusable(batch))
      ensures o.Failed? <==> exists i :: 0 <= i < |batch| && old(batch[i].reqIdx).Some? && batch[i].inflight == 0 && batch[i].committed == 0
      ensures o.NoSpace? <==> old(Reusable(batch)) && Needed(old(ledger), batch, 0) > |old(freeSlots)|
      ensures !o.Done? ==> ledger == old(ledger) && freeSlots == old(freeSlots)
      ensures o.Done? ==>
                && ledger == Grants(old(ledger), old(freeSlots), batch, 0)
                && freeSlots == old(freeSlots)[Needed(old(ledger), batch, 0)..]
                && |o.result| == |batch| && Known(ledger, batch)
                && forall i :: 0 <= i < |batch| ==> ledger.claims[batch[i]].reqIdx == Some(o.result[i])
    {
      if !Reusable(batch) {
        return Failed;
      }
      var need := CountNeeded(batch);
      if need > |freeSlots| {
        return NoSpace;
      }
      GrantSlots(batch);
      GrantsAll(old(ledger), old(freeSlots), shape, batch);
      o := Done(seq(|batch|, i requires 0 <= i < |batch| && batch[i].reqIdx.Some? reads batch => batch[i].reqIdx.value));
    }

    /** Slots for a batch of requests: request slots for those without one, then mamba slots, then
        the rows. A reused request that is neither chunked nor committed, a shortage of mamba slots
        and an empty batch fail; a shortage of request slots leaves everything as it was. */
    method Alloc(batch: seq<Req>) returns (o: Outcome<seq<nat>>, ghost reached: nat)
      requires Valid() && Distinct(batch) && Known(ledger, batch)
      modifies this, batch`reqIdx, batch`mambaIdx, batch`track, batch`nextTrack
      ensures Owned() && ledger.claims.Keys == old(ledger.claims.Keys)
      ensures o.NoSpace? <==> old(Reusable(batch)) && Needed(old(ledger), batch, 0) > |old(freeSlots)|
      ensures o.Done? <==>
                && old(Reusable(batch)) && Needed(old(ledger), batch, 0) <= |old(freeSlots)|
                && batch != [] && LacksAll(old(ledger), shape, batch, 0) <= |old(mambaFree)|
      ensures o.NoSpace? || !old(Reusable(batch)) || batch == [] ==>
                ledger == old(ledger) && freeSlots == old(freeSlots) && Valid()
      ensures FromFree(old(ledger), ledger, shape, batch)
      ensures !o.Done? ==> mambaRow == old(mambaRow) && trackRow == old(trackRow)
      ensures o.Done? ==>
                && Valid() && EquippedAll(Grants(old(ledger), old(freeSlots), batch, 0), ledger, batch, |batch|, shape)
                && freeSlots == old(freeSlots)[Needed(old(ledger), batch, 0)..]
                && |mambaFree| == |old(mambaFree)| - LacksAll(old(ledger), shape, batch, 0)
                && |o.result| == |batch| && forall i :: 0 <= i < |batch| ==> ledger.claims[batch[i]].reqIdx == Some(o.result[i])
      ensures o.Failed? && old(Reusable(batch)) && batch != [] ==>
                && freeSlots == old(freeSlots)[Needed(old(ledger), batch, 0)..]
                && (forall i :: 0 <= i < |batch| ==> batch[i].reqIdx.Some?)
                && reached < |batch| && Known(Grants(old(ledger), old(freeSlots), batch, 0), batch)
                && Stopped(Grants(old(ledger), old(freeSlots), batch, 0), ledger, shape, batch, reached, |old(mambaFree)|)
      ensures o.Failed? ==>
                (freeSlots == old(freeSlots) <==> !old(Reusable(batch)) || Needed(old(ledger), batch, 0) == 0)
      ensures o.Failed? ==>
                && RowsOfUnchanged(old(ledger), ledger, shape.extraBuffer, mambaRow, trackRow)
                && (Valid() <==> GainedMapped(old(ledger), ledger, shape.extraBuffer, mambaRow, trackRow, batch))
    {
      reached := 0;
      o := AllocSlots(batch);
      if !o.Done? {
        NothingGained(ledger, shape, batch, mambaRow, trackRow);
        return;
      }
      var ok;
      ok, reached := PlaceGranted(batch, old(ledger), old(freeSlots));
      if !ok {
        o := Failed;
      }
    }

    /** Everything is free again. The requests are not told, so the pool is in order afterwards
        when none of them holds anything. */
    method Clear()
      requires Owned()
      modifies this`freeSlots, this`mambaFree, this`mambaRow, this`trackRow, this`ledger
      ensures mambaFree == shape.mamba && freeSlots == AllSlots(shape.size)
      ensures mambaRow == seq(shape.size + 1, _ => 0) && Zeroed(trackRow, shape)
      ensures ledger == EmptyLedger(shape, old(ledger).claims)
      ensures (forall r :: r in ledger.claims ==> ledger.claims[r] == NO_CLAIM) ==> Valid()
    {
      freeSlots := AllSlots(shape.size);
      mambaFree := shape.mamba;
      mambaRow := seq(shape.size + 1, _ => 0);
      trackRow := seq(shape.size + 1, _ => seq(if shape.extraBuffer then shape.trackSize else 0, _ => 0));
      ledger := EmptyLedger(shape, ledger.claims);
      EmptyOk(shape, ledger.claims, mambaRow, trackRow);
    }
  }

  // ---------------------------------------------------------------------------------------------
  // What some calls leave
  // ---------------------------------------------------------------------------------------------

  /** A pool that two new requests know. */
  method TwoRequests(mambaSlots: set<int>, extraBuffer: bool, lazy: bool, overlap: bool) returns (pool: HybridPool, a: Req, b: Req)
    requires -1 !in mambaSlots
    ensures fresh(pool) && fresh(a) && fresh(b) && a != b && pool.Valid() && pool.mambaFree == mambaSlots
    ensures pool.shape == Shape(2, mambaSlots, extraBuffer, lazy, if overlap then 2 else 1)
    ensures pool.freeSlots == [1, 2] && pool.mambaRow == [0, 0, 0]
    ensures pool.ledger.claims == map[a := NO_CLAIM, b := NO_CLAIM]
  {
    pool := new HybridPool(2, mambaSlots, extraBuffer, lazy, overlap);
    a := new Req();
    b := new Req();
    pool.Enrol(a);
    pool.Enrol(b);
    assert AllSlots(2) == AllSlots(1) + [2] == AllSlots(0) + [1] + [2];
  }

  /** One mamba slot for a batch of two new requests: the call fails, both request slots are gone, and
      the first request holds the mamba slot, which its row has only if it is slot 0 by chance. */
  method ShortageBreaksRows(slot: int) returns (pool: HybridPool, a: Req, b: Req)
    requires slot != -1
    ensures pool.Owned() && (pool.Valid() <==> slot == 0)
    ensures pool.freeSlots == [] && a.reqIdx == Some(1) && b.reqIdx == Some(2)
    ensures a.mambaIdx == Some(slot) && b.mambaIdx == None && pool.mambaRow == [0, 0, 0]
  {
    pool, a, b := TwoRequests({slot}, false, false, false);
    ghost var l := pool.ledger;
    ghost var reached := OneSlotForTwo(pool, a, b, slot, l);
    TwoGrants(l, pool.shape, a, b);
    StoppedAtSecond(Grants(l, [1, 2], [a, b], 0), pool.ledger, pool.shape, pool.freeSlots, a, b, slot, reached);
    assert pool.ledger.claims[a] == a.Claims() && pool.ledger.claims[b] == b.Claims();
    assert Mapped(pool.ledger.claims[a], false, pool.mambaRow, pool.trackRow) <==> slot == 0;
  }

  method OneSlotForTwo(pool: HybridPool, a: Req, b: Req, slot: int, ghost l: Ledger) returns (ghost reached: nat)
    requires a != b && pool.Valid() && pool.mambaFree == {slot} && pool.shape == Shape(2, {slot}, false, false, 1)
    requires pool.freeSlots == [1, 2] && pool.ledger == l && l.claims == map[a := NO_CLAIM, b := NO_CLAIM]
    modifies pool, a, b
    ensures pool.Owned() && pool.ledger.claims.Keys == l.claims.Keys && pool.freeSlots == [] && pool.mambaRow == old(pool.mambaRow)
    ensures Known(Grants(l, [1, 2], [a, b], 0), [a, b])
    ensures reached < 2 && Stopped(Grants(l, [1, 2], [a, b], 0), pool.ledger, pool.shape, [a, b], reached, 1)
  {
    TwoGrants(l, pool.shape, a, b);
    reached := AllocShort(pool, [a, b], l, [1, 2]);
  }

  /** A call that runs out of mamba slots, from the ledger `l` and the free list `free`. */
  method AllocShort(pool: HybridPool, batch: seq<Req>, ghost l: Ledger, ghost free: seq<nat>) returns (ghost reached: nat)
    requires pool.Valid() && Distinct(batch) && Known(l, batch) && Reusable(batch) && batch != []
    requires l == pool.ledger && free == pool.freeSlots
    requires Needed(l, batch, 0) <= |free| && LacksAll(l, pool.shape, batch, 0) > |pool.mambaFree|
    modifies pool, batch`reqIdx, batch`mambaIdx, batch`track, batch`nextTrack
    ensures pool.Owned() && pool.mambaRow == old(pool.mambaRow) && pool.ledger.claims.Keys == l.claims.Keys
    ensures pool.freeSlots == free[Needed(l, batch, 0)..]
    ensures reached < |batch| && Known(Grants(l, free, batch, 0), batch)
    ensures Stopped(Grants(l, free, batch, 0), pool.ledger, pool.shape, batch, reached, |old(pool.mambaFree)|)
  {
    var o;
    o, reached := pool.Alloc(batch);
    assert o.Failed?;
  }

  lemma TwoGrants(l: Ledger, sh: Shape, a: Req, b: Req)
    requires a in l.claims && b in l.claims && a != b && l.claims[a] == l.claims[b] == NO_CLAIM && !sh.extraBuffer
    ensures Needed(l, [a, b], 0) == LacksAll(l, sh, [a, b], 0) == 2
    ensures var m := Grants(l, [1, 2], [a, b], 0);
      && a in m.claims && b in m.claims
      && m.claims[a] == NO_CLAIM.(reqIdx := Some(1)) && m.claims[b] == NO_CLAIM.(reqIdx := Some(2))
  {
    var batch, free: seq<nat> := [a, b], [1, 2];
    assert Needed(l, batch, 2) == LacksAll(l, sh, batch, 2) == 0;
    assert Needed(l, batch, 1) == LacksAll(l, sh, batch, 1) == 1;
    var m := TakeSlot(l, a, 1);
    var n := TakeSlot(m, b, 2);
    assert free[1..] == [2] && [2][1..] == [];
    assert Grants(l, free, batch, 0) == Grants(m, [2], batch, 1) == Grants(n, [], batch, 2) == n;
  }

  lemma StoppedAtSecond(l: Ledger, m: Ledger, sh: Shape, freeSlots: seq<nat>, a: Req, b: Req, slot: int, reached: nat)
    requires a in l.claims && b in l.claims && a != b && LedgerOk(m, sh, freeSlots) && !sh.extraBuffer && sh.mamba == {slot}
    requires l.claims[a] == NO_CLAIM.(reqIdx := Some(1)) && l.claims[b] == NO_CLAIM.(reqIdx := Some(2))
    requires reached < 2 && Stopped(l, m, sh, [a, b], reached, 1)
    ensures m.claims[a].reqIdx == Some(1) && m.claims[a].mambaIdx == Some(slot) && m.claims[b] == l.claims[b]
  {
    var batch := [a, b];
    assert LacksAll(l, sh, batch, 2) == 0;
    assert LacksAll(l, sh, batch, 1) == 1;
    assert LacksAll(l, sh, batch, 0) == 2;
    assert reached == 1;
    assert Equipped(m.claims[batch[0]], false) && StoppedAt(l.claims[batch[1]], m.claims[batch[1]], 0);
    assert Honoured(m, a);
  }

  /** With one place in every buffer, any other place to keep is refused, when the active slot is free
      already. */
  method KeepBeyondBuffer(keep: int) returns (pool: HybridPool, a: Req)
    requires keep != 0
    ensures pool.Valid() && a in pool.ledger.claims && a.mambaIdx == None && a.track.Some? && |pool.mambaFree| == 1
  {
    var b;
    pool, a, b := TwoRequests({5, 6}, true, false, false);
    KeepFails(pool, a, keep);
  }

  method KeepFails(pool: HybridPool, a: Req, keep: int)
    requires pool.Valid() && a in pool.ledger.claims && pool.ledger.claims[a] == NO_CLAIM && keep != 0
    requires pool.shape.extraBuffer && !pool.shape.lazy && pool.shape.trackSize == 1 && pool.freeSlots != [] && |pool.mambaFree| == 2
    modifies pool, a
    ensures pool.Valid() && a in pool.ledger.claims && a.mambaIdx == None && a.track.Some? && |pool.mambaFree| == 1
  {
    AllocOne(pool, a);
    ghost var l, active := pool.ledger, a.mambaIdx.value;
    assert l.free == {} && (set s | s in [active]) == {active};
    var ok := pool.FreeMambaCache(a, Some(keep));
    assert pool.mambaFree == Vacate(l, a).free == {active};
  }

  /** In the eager mode a place set to -1 gets -1 into the free slots when the buffer is freed. */
  method EmptyPlaceIsFreed() returns (pool: HybridPool)
    ensures -1 in pool.mambaFree && !pool.Owned()
  {
    var a, b;
    pool, a, b := TwoRequests({5, 6}, true, false, false);
    AllocOne(pool, a);
    FreeEmptied(pool, a);
  }

  method FreeEmptied(pool: HybridPool, a: Req)
    requires pool.Valid() && a in pool.ledger.claims && a.reqIdx.Some? && a.mambaIdx.Some? && a.track.Some?
    requires pool.shape.extraBuffer && !pool.shape.lazy && pool.shape.trackSize == 1
    modifies pool, a
    ensures -1 in pool.mambaFree && !pool.Owned()
  {
    assert WellTracked(pool.ledger.claims[a], 1);
    pool.SetTrackSlot(a, 0, -1);
    assert a.track.value[0] == -1 && Freed(a.track.value, None, false) == a.track.value;
    var ok := pool.FreeMambaCache(a, None);
  }

  /** A call for one new request. */
  method AllocOne(pool: HybridPool, r: Req)
    requires pool.Valid() && r in pool.ledger.claims && pool.ledger.claims[r] == NO_CLAIM
    requires pool.freeSlots != [] && Lacks(NO_CLAIM, pool.shape) <= |pool.mambaFree|
    modifies pool, r
    ensures pool.Valid() && r in pool.ledger.claims && r.reqIdx.Some? && Equipped(r.Claims(), pool.shape.extraBuffer)
    ensures |pool.mambaFree| == |old(pool.mambaFree)| - Lacks(NO_CLAIM, pool.shape)
  {
    ghost var l := pool.ledger;
    assert Needed(l, [r], 1) == LacksAll(l, pool.shape, [r], 1) == 0;
    var o, _ := pool.Alloc([r]);
    assert [r][0] == r && o.Done?;
  }
}
