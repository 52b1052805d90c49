/** The two-rank push all-reduce: two host processes, two asynchronous device queues, which the source
    requires to be in order, one sense-reversing barrier in shared memory and a ring of scratch slots.

    Every host statement that touches shared memory is its own step, and every device operation
    runs word by word in any order, so that a torn push or a half finished kernel is a state. */
module PushAllReduce {
  import Grid
  import opened Collections
  import opened Slots

  /** What a run is about. `slots` is the number of scratch slots that alternate (2 in the source),
      `waitPush` says whether the host waits for its push before the barrier (true in the source), and
      `inOrder` whether a queue runs its operations in the order of submission (true in the source, which
      refuses any other queue). `norm` is what the kernel makes of the sums of one row: of its rank, its
      call, the number of the row, these sums, and a column; residual and weights are part of it. */
  datatype Config = Config(
    slots: nat,
    waitPush: bool,
    inOrder: bool,
    calls: nat,
    rowWords: nat,
    words: nat -> nat,
    payload: (nat, nat, nat) -> int,
    add: (int, int) -> int,
    norm: (nat, nat, nat, seq<int>, nat) -> int)

  predicate ValidConfig(c: Config) {
    c.rowWords > 0 && c.slots > 0
  }

  /** Rounding a sum of two values does not depend on their order. */
  ghost predicate Commutative(c: Config) {
    forall a, b :: c.add(a, b) == c.add(b, a)
  }

  /** The configurations the source relies on. */
  ghost predicate SafeConfig(c: Config) {
    ValidConfig(c) && c.slots >= 2 && c.waitPush && c.inOrder && Commutative(c)
  }

  // ---------------------------------------------------------------------------------------------
  // States
  // ---------------------------------------------------------------------------------------------

  /** The statement a host is about to execute. */
  datatype Pc = Ready | AwaitPush | Arriving | Resetting | Releasing | Spinning | Leaving | Launching

  datatype Host = Host(pc: Pc, call: nat, localSense: bool)

  /** The shared words of the barrier; `rounds` counts its releases and no step reads it. */
  datatype Bar = Bar(count: nat, sense: bool, rounds: nat)

  /** A fill is the upstream work that leaves the payload in `x`. */
  datatype Op = Fill(call: nat) | Push(call: nat) | Kernel(call: nat)

  /** A queue (a log and the position of the running operation, with the words that operation has
      processed) and the memory of its device. */
  datatype Device = Device(
    log: seq<Op>,
    head: nat,
    touched: set<nat>,
    got: map<nat, int>,
    wrote: set<nat>,
    x: map<nat, int>,
    scratch: map<(nat, nat), int>,
    out: map<nat, map<nat, int>>)
  {
    predicate Busy() {
      head < |log|
    }

    function Running(): Op
      requires Busy()
    {
      log[head]
    }

    /** Nothing of the next operation has happened yet. */
    predicate Idle() {
      touched == {} && got == map[] && wrote == {}
    }

    predicate Pending(op: Op) {
      exists i :: head <= i < |log| && log[i] == op
    }
  }

  datatype Rank = Rank(host: Host, dev: Device)

  /** A state as one of the two ranks sees it. */
  datatype View = View(me: Rank, peer: Rank, bar: Bar) {
    function Swap(): View {
      View(peer, me, bar)
    }
  }

  const START_RANK := Rank(Host(Ready, 0, false), Device([], 0, {}, map[], {}, map[], map[], map[]))

  const START := View(START_RANK, START_RANK, Bar(0, false, 0))

  // ---------------------------------------------------------------------------------------------
  // Steps
  // ---------------------------------------------------------------------------------------------

  /** `Pick` makes another pending operation the next one, on a queue that is not in order. */
  datatype Act = HostStep | Touch(w: nat) | Store(w: nat) | Retire | Pick(i: nat)

  /** An act of rank 0 or of rank 1. */
  datatype Action = Action(second: bool, act: Act)

  predicate HostEnabled(c: Config, h: Host, d: Device, b: Bar) {
    match h.pc
    case Ready => h.call < c.calls
    case AwaitPush => c.waitPush ==> !d.Pending(Push(h.call))
    case Spinning => b.sense == !h.localSense
    case _ => true
  }

  function HostNext(h: Host, b: Bar): (Host, Bar) {
    match h.pc
    case Ready => (h.(pc := AwaitPush), b)
    case AwaitPush => (h.(pc := Arriving), b)
    case Arriving => (h.(pc := if b.count + 1 == 2 then Resetting else Spinning), b.(count := b.count + 1))
    case Resetting => (h.(pc := Releasing), b.(count := 0))
    case Releasing => (h.(pc := Leaving), b.(sense := !h.localSense, rounds := b.rounds + 1))
    case Spinning => (h.(pc := Leaving), b)
    case Leaving => (h.(pc := Launching, localSense := !h.localSense), b)
    case Launching => (h.(pc := Ready, call := h.call + 1), b)
  }

  /** The operations a host statement submits to its queue. */
  function Submitted(h: Host): seq<Op> {
    if h.pc.Ready? then [Fill(h.call), Push(h.call)] else if h.pc.Launching? then [Kernel(h.call)] else []
  }

  predicate RowRead(c: Config, d: Device, n: nat, w: nat)
    requires c.rowWords > 0
  {
    forall v: nat :: v < c.words(n) && v / c.rowWords == w / c.rowWords ==> v in d.got
  }

  predicate DeviceEnabled(c: Config, d: Device, act: Act)
    requires ValidConfig(c)
  {
    && d.Busy()
    && var n := d.Running().call;
    match act
    case HostStep => false
    case Touch(w) => w < c.words(n) && (if d.Running().Kernel? then w !in d.got else w !in d.touched)
    case Store(w) => d.Running().Kernel? && w < c.words(n) && w !in d.wrote && RowRead(c, d, n, w)
    case Retire =>
      if d.Running().Kernel? then Covers(d.got.Keys, c.words(n)) && Covers(d.wrote, c.words(n))
      else Covers(d.touched, c.words(n))
    case Pick(i) => !c.inOrder && d.Idle() && d.head < i < |d.log|
  }

  function Read<K>(m: map<K, int>, key: K): int {
    if key in m then m[key] else 0
  }

  /** The words of a row, by columns. */
  function RowOf(c: Config, m: map<nat, int>, row: nat): (words: seq<int>)
    ensures |words| == c.rowWords && forall col :: 0 <= col < c.rowWords ==> words[col] == Read(m, c.rowWords * row + col)
  {
    seq(c.rowWords, col requires 0 <= col < c.rowWords => Read(m, c.rowWords * row + col))
  }

  /** The result that belongs at word `w`, made of the sums of its row. */
  function Normed(c: Config, r: nat, n: nat, sums: map<nat, int>, w: nat): int
    requires c.rowWords > 0
  {
    c.norm(r, n, w / c.rowWords, RowOf(c, sums, w / c.rowWords), w % c.rowWords)
  }

  /** What an act of the device of rank `r` does to its own memory. */
  function DeviceNext(c: Config, r: nat, d: Device, act: Act): Device
    requires ValidConfig(c) && DeviceEnabled(c, d, act)
  {
    var n := d.Running().call;
    match act
    case Touch(w) =>
      (match d.Running()
       case Fill(_) => d.(x := d.x[w := c.payload(r, n, w)], touched := d.touched + {w})
       case Push(_) => d.(touched := d.touched + {w})
       case Kernel(_) => d.(got := d.got[w := c.add(Read(d.x, w), Read(d.scratch, (n % c.slots, w)))]))
    case Store(w) => d.(wrote := d.wrote + {w}, x := d.x[w := Normed(c, r, n, d.got, w)])
    case Retire =>
      d.(head := d.head + 1, touched := {}, got := map[], wrote := {},
         out := if d.Running().Kernel? then d.out[n := d.got] else d.out)
    case Pick(i) => d.(log := d.log[..d.head] + [d.log[i]] + d.log[d.head..i] + d.log[i + 1..])
  }

  /** What it does to the memory of the peer: a push writes the peer's scratch. */
  function PeerNext(c: Config, d: Device, act: Act, p: Device): Device
    requires ValidConfig(c) && DeviceEnabled(c, d, act)
  {
    if act.Touch? && d.Running().Push? then
      p.(scratch := p.scratch[(d.Running().call % c.slots, act.w) := Read(d.x, act.w)])
    else p
  }

  predicate ViewEnabled(c: Config, v: View, act: Act)
    requires ValidConfig(c)
  {
    if act.HostStep? then HostEnabled(c, v.me.host, v.me.dev, v.bar) else DeviceEnabled(c, v.me.dev, act)
  }

  /** The rank `r`, whose view this is, acts. */
  function ViewNext(c: Config, r: nat, v: View, act: Act): View
    requires ValidConfig(c) && ViewEnabled(c, v, act)
  {
    var h, d := v.me.host, v.me.dev;
    if act.HostStep? then
      var (h', b') := HostNext(h, v.bar);
      View(Rank(h', d.(log := d.log + Submitted(h))), v.peer, b')
    else
      View(Rank(h, DeviceNext(c, r, d, act)), v.peer.(dev := PeerNext(c, d, act, v.peer.dev)), v.bar)
  }

  predicate Enabled(c: Config, s: View, a: Action)
    requires ValidConfig(c)
  {
    ViewEnabled(c, if a.second then s.Swap() else s, a.act)
  }

  function Next(c: Config, s: View, a: Action): View
    requires ValidConfig(c) && Enabled(c, s, a)
  {
    if a.second then ViewNext(c, 1, s.Swap(), a.act).Swap() else ViewNext(c, 0, s, a.act)
  }

  /** `t` is what the run `acts` makes of `s`, every step enabled when it is taken. */
  ghost predicate Runs(c: Config, s: View, acts: seq<Action>, t: View)
    requires ValidConfig(c)
    decreases |acts|
  {
    if acts == [] then s == t
    else Enabled(c, s, acts[0]) && Runs(c, Next(c, s, acts[0]), acts[1..], t)
  }

  /** A state, in the view of rank 0, that some run from the start leads to. */
  ghost predicate Reachable(c: Config, s: View)
    requires ValidConfig(c)
  {
    exists acts :: Runs(c, START, acts, s)
  }

  // ---------------------------------------------------------------------------------------------
  // The barrier
  // ---------------------------------------------------------------------------------------------

  predicate Odd(n: nat) {
    n % 2 == 1
  }

  /** The rank has added itself to `count` in the round that is still open. */
  predicate Waiting(b: Bar, h: Host) {
    h.pc.Resetting? || h.pc.Releasing? || (h.pc.Spinning? && b.rounds == h.call)
  }

  predicate InRound(b: Bar, h: Host) {
    && h.localSense == Odd(if h.pc.Launching? then h.call + 1 else h.call)
    && match h.pc
       case Spinning => h.call <= b.rounds <= h.call + 1
       case Leaving => b.rounds == h.call + 1
       case Launching => b.rounds == h.call + 1
       case _ => b.rounds == h.call
  }

  /** The last to arrive has a peer that waits in the same round. */
  predicate PeerWaits(h: Host, p: Host) {
    h.pc.Resetting? || h.pc.Releasing? ==> p.pc.Spinning? && p.call == h.call
  }

  predicate BarrierInv(b: Bar, h: Host, p: Host) {
    && InRound(b, h) && InRound(b, p)
    && b.sense == Odd(b.rounds)
    && PeerWaits(h, p) && PeerWaits(p, h)
    && !(h.pc.Spinning? && p.pc.Spinning? && Waiting(b, h) && Waiting(b, p))
    && b.count == (if h.pc.Releasing? || p.pc.Releasing? then 0
                   else (if Waiting(b, h) then 1 else 0) + (if Waiting(b, p) then 1 else 0))
  }

  lemma BarrierStep(c: Config, b: Bar, h: Host, p: Host, d: Device)
    requires BarrierInv(b, h, p) && HostEnabled(c, h, d, b)
    ensures BarrierInv(HostNext(h, b).1, HostNext(h, b).0, p)
  {
  }

  // ---------------------------------------------------------------------------------------------
  // The queue
  // ---------------------------------------------------------------------------------------------

  /** Where an operation stands in the log of its queue. */
  function Pos(op: Op): nat {
    match op
    case Fill(n) => 3 * n
    case Push(n) => 3 * n + 1
    case Kernel(n) => 3 * n + 2
  }

  predicate LogInv(d: Device) {
    forall i :: 0 <= i < |d.log| ==> Pos(d.log[i]) == i
  }

  /** How far the queue is, given where its host stands. */
  predicate QueueInv(c: Config, h: Host, d: Device) {
    && |d.log| == 3 * h.call + (if h.pc.Ready? then 0 else 2)
    && d.head <= |d.log|
    && 3 * h.call <= d.head + 1
    && (!h.pc.Ready? && !h.pc.AwaitPush? ==> !d.Busy())
    && h.call <= c.calls && (h.call == c.calls ==> h.pc.Ready?)
  }

  /** The words the running operation has processed are words of its payload. */
  ghost predicate ProgressInv(c: Config, d: Device) {
    && (!d.Busy() || d.Running().Kernel? ==> d.touched == {})
    && (!d.Busy() || !d.Running().Kernel? ==> d.got == map[] && d.wrote == {})
    && d.wrote <= d.got.Keys
    && (d.Busy() ==> forall w :: w in d.touched || w in d.got ==> w < c.words(d.Running().call))
  }

  lemma HostQueue(c: Config, h: Host, d: Device, b: Bar)
    requires c.waitPush && HostEnabled(c, h, d, b) && LogInv(d) && QueueInv(c, h, d) && ProgressInv(c, d)
    ensures var d' := d.(log := d.log + Submitted(h));
      LogInv(d') && QueueInv(c, HostNext(h, b).0, d') && ProgressInv(c, d')
  {
    if h.pc.AwaitPush? {
      assert Pos(d.log[|d.log| - 1]) == Pos(Push(h.call));
    }
  }

  lemma DeviceQueue(c: Config, r: nat, h: Host, d: Device, act: Act)
    requires ValidConfig(c) && c.inOrder && DeviceEnabled(c, d, act)
    requires LogInv(d) && QueueInv(c, h, d) && ProgressInv(c, d)
    ensures var d' := DeviceNext(c, r, d, act);
      LogInv(d') && QueueInv(c, h, d') && ProgressInv(c, d')
  {
    if act.Store? {
      assert act.w in d.got;
    }
  }

  // ---------------------------------------------------------------------------------------------
  // The memory
  // ---------------------------------------------------------------------------------------------

  /** The push of call `n` by device `d` has written word `w` into the peer. */
  predicate Written(d: Device, n: nat, w: nat) {
    d.head > 3 * n + 1 || (d.head == 3 * n + 1 && w in d.touched)
  }

  /** The kernel of call `n` has not finished on `d`. */
  predicate Unread(d: Device, n: nat) {
    d.head <= 3 * n + 2
  }

  /** `x` must hold the payload of call `n` at word `w`. */
  predicate Holds(d: Device, n: nat, w: nat) {
    || (d.head == 3 * n && w in d.touched)
    || d.head == 3 * n + 1
    || (d.head == 3 * n + 2 && w !in d.wrote)
  }

  function Sums(c: Config, r: nat, n: nat): map<nat, int>
    requires r < 2
  {
    map w: nat | w < c.words(n) :: c.add(c.payload(r, n, w), c.payload(1 - r, n, w))
  }

  /** Until its kernel has finished, a pushed word stays in the slot of the peer `p`. */
  ghost predicate SlotInv(c: Config, r: nat, d: Device, p: Device)
    requires ValidConfig(c)
  {
    forall n: nat, w: nat :: Written(d, n, w) && w < c.words(n) && Unread(p, n)
      ==> Read(p.scratch, (n % c.slots, w)) == c.payload(r, n, w)
  }

  ghost predicate MemoryInv(c: Config, r: nat, d: Device)
    requires r < 2
  {
    && (forall n: nat, w: nat :: Holds(d, n, w) && w < c.words(n) ==> Read(d.x, w) == c.payload(r, n, w))
    && (forall n: nat, w: nat :: d.head == 3 * n + 2 && w in d.got
          ==> w < c.words(n) && d.got[w] == c.add(c.payload(r, n, w), c.payload(1 - r, n, w)))
    && (forall n: nat :: n in d.out <==> 3 * n + 2 < d.head)
    && (forall n: nat :: n in d.out ==> d.out[n] == Sums(c, r, n))
  }

  /** What the kernel has written into `x` stays until the next fill. */
  ghost predicate ResultInv(c: Config, r: nat, d: Device)
    requires ValidConfig(c) && r < 2
  {
    && (forall n: nat, w: nat :: d.head == 3 * n + 2 && w in d.wrote ==> Read(d.x, w) == Normed(c, r, n, Sums(c, r, n), w))
    && (forall n: nat, w: nat :: d.head == 3 * n + 3 && w !in d.touched && w < c.words(n) ==>
          Read(d.x, w) == Normed(c, r, n, Sums(c, r, n), w))
  }

  /** Everything, as rank `r` sees it. */
  ghost predicate Inv(c: Config, r: nat, v: View)
    requires ValidConfig(c) && r < 2
  {
    && BarrierInv(v.bar, v.me.host, v.peer.host)
    && QueuesInv(c, v)
    && DataInv(c, r, v.me.dev, v.peer.dev)
    && ResultInv(c, r, v.me.dev) && ResultInv(c, 1 - r, v.peer.dev)
  }

  ghost predicate QueuesInv(c: Config, v: View) {
    && LogInv(v.me.dev) && QueueInv(c, v.me.host, v.me.dev) && ProgressInv(c, v.me.dev)
    && LogInv(v.peer.dev) && QueueInv(c, v.peer.host, v.peer.dev) && ProgressInv(c, v.peer.dev)
  }

  ghost predicate DataInv(c: Config, r: nat, d: Device, p: Device)
    requires ValidConfig(c) && r < 2
  {
    && SlotInv(c, r, d, p) && SlotInv(c, 1 - r, p, d)
    && MemoryInv(c, r, d) && MemoryInv(c, 1 - r, p)
  }

  lemma Symmetric(c: Config, r: nat, v: View)
    requires ValidConfig(c) && r < 2 && Inv(c, r, v)
    ensures Inv(c, 1 - r, v.Swap())
  {
  }

  lemma StartInv(c: Config)
    requires ValidConfig(c)
    ensures Inv(c, 0, START)
  {
  }

  /** A kernel at the front of its queue finds the peer's push of the same call finished. */
  lemma PushComplete(c: Config, v: View)
    requires BarrierInv(v.bar, v.me.host, v.peer.host) && QueuesInv(c, v)
    requires v.me.dev.Busy() && v.me.dev.Running().Kernel?
    ensures v.peer.dev.head > 3 * v.me.dev.Running().call + 1
    ensures v.me.dev.head == 3 * v.me.dev.Running().call + 2
  {
    assert Pos(v.me.dev.Running()) == v.me.dev.head;
  }

  /** While a push of call `m` runs, the peer has finished every kernel up to call `m - 2`. */
  lemma SlotFree(c: Config, v: View)
    requires BarrierInv(v.bar, v.me.host, v.peer.host) && QueuesInv(c, v)
    requires v.me.dev.Busy() && v.me.dev.Running().Push?
    ensures v.me.host.call == v.me.dev.Running().call && v.me.dev.head == 3 * v.me.dev.Running().call + 1
    ensures v.peer.dev.head + 1 >= 3 * v.me.dev.Running().call
    ensures v.peer.host.call <= v.me.host.call
  {
    assert Pos(v.me.dev.Running()) == v.me.dev.head;
  }

  /** What a kernel reads at one word: its own payload and the peer's, of its own call. */
  lemma KernelReads(c: Config, r: nat, v: View, w: nat)
    requires SafeConfig(c) && r < 2 && Inv(c, r, v) && DeviceEnabled(c, v.me.dev, Touch(w))
    requires v.me.dev.Running().Kernel?
    ensures var d, n := v.me.dev, v.me.dev.Running().call;
      Read(d.x, w) == c.payload(r, n, w) && Read(d.scratch, (n % c.slots, w)) == c.payload(1 - r, n, w)
  {
    var d, n := v.me.dev, v.me.dev.Running().call;
    PushComplete(c, v);
    assert Written(v.peer.dev, n, w) && Unread(d, n);
    assert Holds(d, n, w);
  }

  lemma KernelStep(c: Config, r: nat, d: Device, p: Device, n: nat, w: nat)
    requires ValidConfig(c) && r < 2 && DataInv(c, r, d, p) && d.head == 3 * n + 2 && w < c.words(n)
    ensures DataInv(c, r, d.(got := d.got[w := c.add(c.payload(r, n, w), c.payload(1 - r, n, w))]), p)
  {
  }

  lemma FillStep(c: Config, r: nat, d: Device, p: Device, n: nat, w: nat)
    requires ValidConfig(c) && r < 2 && DataInv(c, r, d, p) && d.head == 3 * n && w < c.words(n)
    ensures DataInv(c, r, d.(x := d.x[w := c.payload(r, n, w)], touched := d.touched + {w}), p)
  {
    var x, touched := d.x[w := c.payload(r, n, w)], d.touched + {w};
    FillMemory(c, r, d, n, w);
    FillSlots(c, r, d, p, n, x, touched);
  }

  lemma FillMemory(c: Config, r: nat, d: Device, n: nat, w: nat)
    requires r < 2 && MemoryInv(c, r, d) && d.head == 3 * n
    ensures MemoryInv(c, r, d.(x := d.x[w := c.payload(r, n, w)], touched := d.touched + {w}))
  {
  }

  /** A fill touches no slot. */
  lemma FillSlots(c: Config, r: nat, d: Device, p: Device, n: nat, x: map<nat, int>, touched: set<nat>)
    requires ValidConfig(c) && r < 2 && SlotInv(c, r, d, p) && SlotInv(c, 1 - r, p, d) && d.head == 3 * n
    ensures SlotInv(c, r, d.(x := x, touched := touched), p) && SlotInv(c, 1 - r, p, d.(x := x, touched := touched))
  {
  }

  lemma StoreStep(c: Config, r: nat, d: Device, p: Device, n: nat, w: nat, value: int)
    requires ValidConfig(c) && r < 2 && DataInv(c, r, d, p) && d.head == 3 * n + 2
    ensures DataInv(c, r, d.(wrote := d.wrote + {w}, x := d.x[w := value]), p)
  {
  }

  /** A word of a push lands in a slot that no unfinished kernel of the peer still needs. */
  lemma PushSlot(c: Config, r: nat, d: Device, p: Device, m: nat, w: nat, value: int)
    requires ValidConfig(c) && c.slots >= 2 && SlotInv(c, r, d, p) && d.head == 3 * m + 1 && p.head + 1 >= 3 * m
    requires value == c.payload(r, m, w)
    ensures SlotInv(c, r, d.(touched := d.touched + {w}), p.(scratch := p.scratch[(m % c.slots, w) := value]))
  {
    var d' := d.(touched := d.touched + {w});
    var p' := p.(scratch := p.scratch[(m % c.slots, w) := value]);
    forall n: nat, u: nat | Written(d', n, u) && u < c.words(n) && Unread(p', n)
      ensures Read(p'.scratch, (n % c.slots, u)) == c.payload(r, n, u)
    {
      if n != m || u != w {
        assert Written(d, n, u) && Unread(p, n);
        if n < m && n % c.slots == m % c.slots {
          SameSlot(n, m, c.slots);
          assert false;
        }
      }
    }
  }

  lemma PushStep(c: Config, r: nat, d: Device, p: Device, m: nat, w: nat)
    requires ValidConfig(c) && c.slots >= 2 && r < 2 && DataInv(c, r, d, p) && d.head == 3 * m + 1 && w < c.words(m)
    requires p.head + 1 >= 3 * m
    ensures DataInv(c, r, d.(touched := d.touched + {w}), p.(scratch := p.scratch[(m % c.slots, w) := Read(d.x, w)]))
  {
    assert Holds(d, m, w);
    PushSlot(c, r, d, p, m, w, Read(d.x, w));
    PushSender(c, r, d, p, m, w, p.scratch[(m % c.slots, w) := Read(d.x, w)]);
    ScratchOnly(c, 1 - r, p, p.scratch[(m % c.slots, w) := Read(d.x, w)]);
  }

  /** For the sender only the touched words change. */
  lemma PushSender(c: Config, r: nat, d: Device, p: Device, m: nat, w: nat, scratch: map<(nat, nat), int>)
    requires ValidConfig(c) && r < 2 && SlotInv(c, 1 - r, p, d) && MemoryInv(c, r, d) && d.head == 3 * m + 1
    ensures SlotInv(c, 1 - r, p.(scratch := scratch), d.(touched := d.touched + {w}))
    ensures MemoryInv(c, r, d.(touched := d.touched + {w}))
  {
  }

  lemma ScratchOnly(c: Config, r: nat, d: Device, scratch: map<(nat, nat), int>)
    requires r < 2 && MemoryInv(c, r, d)
    ensures MemoryInv(c, r, d.(scratch := scratch))
  {
  }

  lemma RetireStep(c: Config, r: nat, d: Device, p: Device)
    requires ValidConfig(c) && r < 2 && DataInv(c, r, d, p) && ProgressInv(c, d)
    requires DeviceEnabled(c, d, Retire) && Pos(d.Running()) == d.head
    ensures DataInv(c, r, DeviceNext(c, r, d, Retire), p)
  {
    RetireMemory(c, r, d);
    RetireSlots(c, r, d, p);
  }

  lemma RetireMemory(c: Config, r: nat, d: Device)
    requires ValidConfig(c) && r < 2 && MemoryInv(c, r, d) && ProgressInv(c, d)
    requires DeviceEnabled(c, d, Retire) && Pos(d.Running()) == d.head
    ensures MemoryInv(c, r, DeviceNext(c, r, d, Retire))
  {
    var n := d.Running().call;
    var d' := DeviceNext(c, r, d, Retire);
    if d.Running().Kernel? {
      assert d.got == Sums(c, r, n);
    }
    forall m: nat, w: nat | Holds(d', m, w) && w < c.words(m)
      ensures Holds(d, m, w)
    {
    }
  }

  /** What is written when an operation finishes was written before, and fewer kernels are unread. */
  lemma RetireSlots(c: Config, r: nat, d: Device, p: Device)
    requires ValidConfig(c) && r < 2 && SlotInv(c, r, d, p) && SlotInv(c, 1 - r, p, d)
    requires DeviceEnabled(c, d, Retire) && Pos(d.Running()) == d.head
    ensures SlotInv(c, r, DeviceNext(c, r, d, Retire), p) && SlotInv(c, 1 - r, p, DeviceNext(c, r, d, Retire))
  {
    var d' := DeviceNext(c, r, d, Retire);
    forall m: nat, w: nat | Written(d', m, w) && w < c.words(m)
      ensures Written(d, m, w)
    {
    }
  }

  lemma DeviceStep(c: Config, r: nat, v: View, act: Act)
    requires SafeConfig(c) && r < 2 && Inv(c, r, v) && DeviceEnabled(c, v.me.dev, act)
    ensures DataInv(c, r, DeviceNext(c, r, v.me.dev, act), PeerNext(c, v.me.dev, act, v.peer.dev))
  {
    var d, p := v.me.dev, v.peer.dev;
    assert Pos(d.Running()) == d.head;
    match act {
      case Pick(_) => assert false;
      case Retire => RetireStep(c, r, d, p);
      case Store(w) => StoreStep(c, r, d, p, d.Running().call, w, Normed(c, r, d.Running().call, d.got, w));
      case Touch(w) =>
        match d.Running() {
          case Fill(n) => FillStep(c, r, d, p, n, w);
          case Push(n) => SlotFree(c, v); PushStep(c, r, d, p, n, w);
          case Kernel(n) => KernelReads(c, r, v, w); KernelStep(c, r, d, p, n, w);
        }
    }
  }

  lemma RowWord(c: Config, r: nat, d: Device, n: nat, v: nat)
    requires r < 2 && MemoryInv(c, r, d) && d.head == 3 * n + 2 && (v < c.words(n) ==> v in d.got)
    ensures Read(d.got, v) == Read(Sums(c, r, n), v)
  {
  }

  /** The row a kernel stores from has all its sums. */
  lemma RowComplete(c: Config, r: nat, d: Device, n: nat, w: nat)
    requires ValidConfig(c) && r < 2 && MemoryInv(c, r, d) && d.head == 3 * n + 2 && RowRead(c, d, n, w)
    ensures Normed(c, r, n, d.got, w) == Normed(c, r, n, Sums(c, r, n), w)
  {
    var row := w / c.rowWords;
    var got, sums := RowOf(c, d.got, row), RowOf(c, Sums(c, r, n), row);
    forall col {:trigger got[col]} | 0 <= col < c.rowWords
      ensures got[col] == sums[col]
    {
      Grid.DivideCell(c.rowWords, row, col);
      RowWord(c, r, d, n, c.rowWords * row + col);
    }
    assert got == sums;
  }

  lemma StoreResult(c: Config, r: nat, d: Device, n: nat, w: nat, value: int)
    requires ValidConfig(c) && r < 2 && ResultInv(c, r, d) && d.head == 3 * n + 2 && value == Normed(c, r, n, Sums(c, r, n), w)
    ensures ResultInv(c, r, d.(wrote := d.wrote + {w}, x := d.x[w := value]))
  {
  }

  lemma TouchResult(c: Config, r: nat, d: Device, n: nat, w: nat, value: int)
    requires ValidConfig(c) && r < 2 && ResultInv(c, r, d) && d.head == 3 * n
    ensures ResultInv(c, r, d.(x := d.x[w := value], touched := d.touched + {w}))
  {
  }

  lemma RetireResult(c: Config, r: nat, d: Device)
    requires ValidConfig(c) && r < 2 && DeviceEnabled(c, d, Retire) && Pos(d.Running()) == d.head && ResultInv(c, r, d)
    ensures ResultInv(c, r, DeviceNext(c, r, d, Retire))
  {
  }

  /** A step of a device keeps its results. */
  lemma ResultStep(c: Config, r: nat, d: Device, act: Act)
    requires SafeConfig(c) && r < 2 && DeviceEnabled(c, d, act) && Pos(d.Running()) == d.head
    requires MemoryInv(c, r, d) && ResultInv(c, r, d)
    ensures ResultInv(c, r, DeviceNext(c, r, d, act))
  {
    var n := d.Running().call;
    match act {
      case Pick(_) => assert false;
      case Retire => RetireResult(c, r, d);
      case Store(w) =>
        RowComplete(c, r, d, n, w);
        StoreResult(c, r, d, n, w, Normed(c, r, n, d.got, w));
      case Touch(w) =>
        if d.Running().Fill? {
          TouchResult(c, r, d, n, w, c.payload(r, n, w));
        }
    }
  }

  lemma ViewStep(c: Config, r: nat, v: View, act: Act)
    requires SafeConfig(c) && r < 2 && Inv(c, r, v) && ViewEnabled(c, v, act)
    ensures Inv(c, r, ViewNext(c, r, v, act))
  {
    var h, d := v.me.host, v.me.dev;
    if act.HostStep? {
      BarrierStep(c, v.bar, h, v.peer.host, d);
      HostQueue(c, h, d, v.bar);
    } else {
      DeviceQueue(c, r, h, d, act);
      DeviceStep(c, r, v, act);
      assert Pos(d.Running()) == d.head;
      ResultStep(c, r, d, act);
    }
  }

  lemma StepInv(c: Config, s: View, a: Action)
    requires SafeConfig(c) && Inv(c, 0, s) && Enabled(c, s, a)
    ensures Inv(c, 0, Next(c, s, a))
  {
    if a.second {
      Symmetric(c, 0, s);
      ViewStep(c, 1, s.Swap(), a.act);
      Symmetric(c, 1, ViewNext(c, 1, s.Swap(), a.act));
    } else {
      ViewStep(c, 0, s, a.act);
    }
  }

  lemma {:induction false} RunInv(c: Config, s: View, acts: seq<Action>, t: View)
    requires SafeConfig(c) && Inv(c, 0, s) && Runs(c, s, acts, t)
    ensures Inv(c, 0, t)
    decreases |acts|
  {
    if acts != [] {
      StepInv(c, s, acts[0]);
      RunInv(c, Next(c, s, acts[0]), acts[1..], t);
    }
  }

  lemma ReachableInv(c: Config, s: View)
    requires SafeConfig(c) && Reachable(c, s)
    ensures Inv(c, 0, s) && Inv(c, 1, s.Swap())
  {
    var acts :| Runs(c, START, acts, s);
    StartInv(c);
    RunInv(c, START, acts, s);
    Symmetric(c, 0, s);
  }

  // ---------------------------------------------------------------------------------------------
  // What every run keeps
  // ---------------------------------------------------------------------------------------------

  /** A state in the view of rank 1 or of rank 0. */
  function Seen(s: View, second: bool): View {
    if second then s.Swap() else s
  }

  function Id(second: bool): nat {
    if second then 1 else 0
  }

  lemma SeenInv(c: Config, s: View, second: bool)
    requires SafeConfig(c) && Reachable(c, s)
    ensures Inv(c, Id(second), Seen(s, second))
  {
    ReachableInv(c, s);
  }

  /** Rounds of the barrier a host has entered, and rounds it has left. */
  function Entered(h: Host): nat {
    h.call + if h.pc.Ready? || h.pc.AwaitPush? || h.pc.Arriving? then 0 else 1
  }

  function Left(h: Host): nat {
    h.call + if h.pc.Launching? then 1 else 0
  }

  /** No rank leaves a round the other has not entered, completed rounds stay within one of each
      other, and a rank that arrives finds `count` reset: it reads 1 just when its peer already
      spins in the very same round. */
  lemma BarrierTogether(c: Config, s: View, second: bool)
    requires SafeConfig(c) && Reachable(c, s)
    ensures var v := Seen(s, second);
      && Left(v.me.host) <= Entered(v.peer.host)
      && -1 <= Left(v.me.host) - Left(v.peer.host) <= 1
      && v.bar.count <= 2
      && (v.me.host.pc.Arriving? ==> v.bar.count == Entered(v.peer.host) - Entered(v.me.host))
      && (v.me.host.pc.Arriving? && v.bar.count == 1 ==>
            v.peer.host.pc.Spinning? && v.peer.host.call == v.me.host.call && v.bar.sense == v.peer.host.localSense)
  {
    ReachableInv(c, s);
  }

  /** A submitted kernel that has not finished reads this slot of the device. */
  ghost predicate SlotInUse(c: Config, p: Device, slot: nat)
    requires ValidConfig(c)
  {
    exists i :: p.head <= i < |p.log| && p.log[i].Kernel? && p.log[i].call % c.slots == slot
  }

  /** While a push runs, no unfinished kernel of the peer reads the slot it writes. */
  lemma NoOverwrite(c: Config, s: View, second: bool, w: nat)
    requires SafeConfig(c) && Reachable(c, s) && Enabled(c, s, Action(second, Touch(w)))
    requires Seen(s, second).me.dev.Running().Push?
    ensures var v := Seen(s, second);
      !SlotInUse(c, v.peer.dev, v.me.dev.Running().call % c.slots)
  {
    ReachableInv(c, s);
    var v := Seen(s, second);
    var p, m := v.peer.dev, v.me.dev.Running().call;
    SlotFree(c, v);
    forall i | p.head <= i < |p.log| && p.log[i].Kernel?
      ensures p.log[i].call % c.slots != m % c.slots
    {
      assert Pos(p.log[i]) == i;
      if p.log[i].call % c.slots == m % c.slots {
        SameSlot(p.log[i].call, m, c.slots);
        assert false;
      }
    }
  }

  /** Every word a kernel reads is its own payload or its peer's payload of its own call. */
  lemma KernelReadsItsCall(c: Config, s: View, second: bool, w: nat)
    requires SafeConfig(c) && Reachable(c, s) && Enabled(c, s, Action(second, Touch(w)))
    requires Seen(s, second).me.dev.Running().Kernel?
    ensures var d := Seen(s, second).me.dev;
      var n := d.Running().call;
      && Read(d.x, w) == c.payload(Id(second), n, w)
      && Read(d.scratch, (n % c.slots, w)) == c.payload(Id(!second), n, w)
  {
    SeenInv(c, s, second);
    KernelReads(c, Id(second), Seen(s, second), w);
  }

  /** The kernel of call `n` is the last operation that has finished, and no later one has touched word `w`. */
  predicate Fresh(d: Device, n: nat, w: nat) {
    0 < d.head <= |d.log| && d.log[d.head - 1] == Kernel(n) && w !in d.touched && w !in d.wrote
  }

  /** What the caller goes on with: word `w` of a call's result, made of the sums of both payloads over the
      whole row of `w`. */
  ghost predicate ResultAt(c: Config, r: nat, n: nat, w: nat, value: int)
    requires c.rowWords > 0 && r < 2
  {
    var row := seq(c.rowWords, col requires 0 <= col < c.rowWords =>
      var v := w / c.rowWords * c.rowWords + col;
      if v < c.words(n) then c.add(c.payload(r, n, v), c.payload(1 - r, n, v)) else 0);
    value == c.norm(r, n, w / c.rowWords, row, w % c.rowWords)
  }

  /** In every state, the finished kernels of both ranks hold the true sums, and what the last one has left in
      `x` is the normalisation of these sums, row by row. */
  ghost predicate Correct(c: Config) {
    && ValidConfig(c)
    && (forall s, second, n :: Reachable(c, s) && n in Seen(s, second).me.dev.out
          ==> Seen(s, second).me.dev.out[n] == Sums(c, Id(second), n))
    && (forall s, second, n: nat, w: nat {:trigger Reachable(c, s), Fresh(Seen(s, second).me.dev, n, w)} ::
          Reachable(c, s) && Fresh(Seen(s, second).me.dev, n, w) && w < c.words(n) ==>
            ResultAt(c, Id(second), n, w, Read(Seen(s, second).me.dev.x, w)))
  }

  lemma NormedIsResult(c: Config, r: nat, n: nat, w: nat)
    requires ValidConfig(c) && r < 2
    ensures ResultAt(c, r, n, w, Normed(c, r, n, Sums(c, r, n), w))
  {
    var row := w / c.rowWords;
    var words := seq(c.rowWords, col requires 0 <= col < c.rowWords =>
      var v := w / c.rowWords * c.rowWords + col;
      if v < c.words(n) then c.add(c.payload(r, n, v), c.payload(1 - r, n, v)) else 0);
    assert row * c.rowWords == c.rowWords * row;
    assert RowOf(c, Sums(c, r, n), row) == words;
  }

  lemma SafeIsCorrect(c: Config)
    requires SafeConfig(c)
    ensures Correct(c)
  {
    forall s, second, n | Reachable(c, s) && n in Seen(s, second).me.dev.out
      ensures Seen(s, second).me.dev.out[n] == Sums(c, Id(second), n)
    {
      ReachableInv(c, s);
      assert MemoryInv(c, Id(second), Seen(s, second).me.dev);
    }
    forall s, second, n: nat, w: nat {:trigger Reachable(c, s), Fresh(Seen(s, second).me.dev, n, w)} |
      Reachable(c, s) && Fresh(Seen(s, second).me.dev, n, w) && w < c.words(n)
      ensures ResultAt(c, Id(second), n, w, Read(Seen(s, second).me.dev.x, w))
    {
      ReachableInv(c, s);
      FreshIsResult(c, Id(second), Seen(s, second).me.dev, n, w);
    }
  }

  lemma FreshIsResult(c: Config, r: nat, d: Device, n: nat, w: nat)
    requires ValidConfig(c) && r < 2 && LogInv(d) && ResultInv(c, r, d) && Fresh(d, n, w) && w < c.words(n)
    ensures ResultAt(c, r, n, w, Read(d.x, w))
  {
    assert Pos(d.log[d.head - 1]) == d.head - 1;
    NormedIsResult(c, r, n, w);
  }

  lemma AddCommutes(c: Config, a: int, b: int)
    requires Commutative(c)
    ensures c.add(a, b) == c.add(b, a)
  {
  }

  /** Both ranks finish a call with the same sums. */
  lemma RanksAgree(c: Config, s: View, n: nat)
    requires SafeConfig(c) && Reachable(c, s)
    requires n in s.me.dev.out && n in s.peer.dev.out
    ensures s.me.dev.out[n] == s.peer.dev.out[n]
  {
    SafeIsCorrect(c);
    assert Seen(s, false).me.dev.out[n] == Sums(c, 0, n) && Seen(s, true).me.dev.out[n] == Sums(c, 1, n);
    forall w: nat | w < c.words(n)
      ensures Sums(c, 0, n)[w] == Sums(c, 1, n)[w]
    {
      AddCommutes(c, c.payload(0, n, w), c.payload(1, n, w));
    }
  }

  // ---------------------------------------------------------------------------------------------
  // Progress
  // ---------------------------------------------------------------------------------------------

  ghost predicate RankFinished(c: Config, k: Rank) {
    k.host.pc.Ready? && k.host.call == c.calls && !k.dev.Busy() && forall n: nat :: n in k.dev.out <==> n < c.calls
  }

  ghost predicate Finished(c: Config, s: View) {
    RankFinished(c, s.me) && RankFinished(c, s.peer)
  }

  ghost predicate CanStep(c: Config, s: View)
    requires ValidConfig(c)
  {
    exists a :: Enabled(c, s, a)
  }

  lemma DeviceCanStep(c: Config, s: View, second: bool)
    requires SafeConfig(c) && Seen(s, second).me.dev.Busy()
    ensures CanStep(c, s)
  {
    var d := Seen(s, second).me.dev;
    var n := d.Running().call;
    if w: nat :| w < c.words(n) && (if d.Running().Kernel? then w !in d.got else w !in d.touched) {
      assert Enabled(c, s, Action(second, Touch(w)));
    } else if w: nat :| d.Running().Kernel? && w < c.words(n) && w !in d.wrote {
      assert RowRead(c, d, n, w);
      assert Enabled(c, s, Action(second, Store(w)));
    } else {
      assert Enabled(c, s, Action(second, Retire));
    }
  }

  /** Some step is enabled until both ranks have finished every call: neither the barrier nor a
      queue can be stuck. */
  lemma NoDeadlock(c: Config, s: View)
    requires SafeConfig(c) && Reachable(c, s)
    ensures CanStep(c, s) || Finished(c, s)
  {
    ReachableInv(c, s);
    if s.me.dev.Busy() {
      DeviceCanStep(c, s, false);
    } else if s.peer.dev.Busy() {
      DeviceCanStep(c, s, true);
    } else if HostEnabled(c, s.me.host, s.me.dev, s.bar) {
      assert Enabled(c, s, Action(false, HostStep));
    } else if HostEnabled(c, s.peer.host, s.peer.dev, s.bar) {
      assert Enabled(c, s, Action(true, HostStep));
    } else {
      assert MemoryInv(c, 0, s.me.dev) && MemoryInv(c, 1, s.peer.dev);
    }
  }

  /** Steps the device spends on the first `h` operations of a log. */
  function DeviceCost(c: Config, h: nat): nat {
    if h == 0 then 0
    else DeviceCost(c, h - 1) + c.words((h - 1) / 3) + (if h % 3 == 0 then c.words((h - 1) / 3) else 0) + 1
  }

  /** A bound on the length of every run. */
  function Bound(c: Config): nat {
    2 * (7 * c.calls + DeviceCost(c, 3 * c.calls))
  }

  function HostSpent(h: Host): nat {
    7 * h.call + match h.pc
                 case Ready => 0
                 case AwaitPush => 1
                 case Arriving => 2
                 case Resetting => 3
                 case Releasing => 4
                 case Spinning => 4
                 case Leaving => 5
                 case Launching => 6
  }

  function DeviceSpent(c: Config, d: Device): nat {
    DeviceCost(c, d.head) + |d.touched| + |d.got| + |d.wrote|
  }

  function RankSpent(c: Config, k: Rank): nat {
    HostSpent(k.host) + DeviceSpent(c, k.dev)
  }

  /** The running operation never processes more words than it costs. */
  lemma OpWithinCost(c: Config, d: Device)
    requires LogInv(d) && ProgressInv(c, d) && d.Busy()
    ensures DeviceSpent(c, d) < DeviceCost(c, d.head + 1)
  {
    var n := d.Running().call;
    assert Pos(d.Running()) == d.head;
    FewBelow(d.touched, c.words(n));
    FewBelow(d.got.Keys, c.words(n));
    FewBelow(d.wrote, c.words(n));
    assert d.head / 3 == n;
  }

  lemma {:induction false} CostGrows(c: Config, h: nat, h': nat)
    requires h <= h'
    ensures DeviceCost(c, h) <= DeviceCost(c, h')
  {
    if h < h' {
      CostGrows(c, h, h' - 1);
    }
  }

  lemma RankWithinBound(c: Config, k: Rank)
    requires LogInv(k.dev) && QueueInv(c, k.host, k.dev) && ProgressInv(c, k.dev)
    ensures RankSpent(c, k) <= 7 * c.calls + DeviceCost(c, 3 * c.calls)
  {
    assert |k.dev.log| <= 3 * c.calls;
    if k.dev.Busy() {
      OpWithinCost(c, k.dev);
      CostGrows(c, k.dev.head + 1, 3 * c.calls);
    } else {
      CostGrows(c, k.dev.head, 3 * c.calls);
    }
  }

  lemma WordSpends(c: Config, d: Device, w: nat, x: map<nat, int>, value: int)
    ensures w !in d.touched ==> DeviceSpent(c, d.(x := x, touched := d.touched + {w})) == DeviceSpent(c, d) + 1
    ensures w !in d.got ==> DeviceSpent(c, d.(got := d.got[w := value])) == DeviceSpent(c, d) + 1
    ensures w !in d.wrote ==> DeviceSpent(c, d.(x := x, wrote := d.wrote + {w})) == DeviceSpent(c, d) + 1
  {
    assert d.got[w := value].Keys == d.got.Keys + {w};
  }

  lemma TouchSpends(c: Config, r: nat, d: Device, w: nat)
    requires ValidConfig(c) && DeviceEnabled(c, d, Touch(w))
    ensures DeviceSpent(c, DeviceNext(c, r, d, Touch(w))) > DeviceSpent(c, d)
  {
    var d' := DeviceNext(c, r, d, Touch(w));
    if d.Running().Kernel? {
      WordSpends(c, d, w, d.x, d'.got[w]);
    } else {
      WordSpends(c, d, w, d'.x, 0);
      assert d' == d.(x := d'.x, touched := d.touched + {w});
    }
  }

  lemma DeviceSpends(c: Config, r: nat, d: Device, act: Act)
    requires ValidConfig(c) && c.inOrder && DeviceEnabled(c, d, act) && LogInv(d) && ProgressInv(c, d)
    ensures DeviceSpent(c, DeviceNext(c, r, d, act)) > DeviceSpent(c, d)
  {
    match act
    case Pick(_) => assert false;
    case Retire => OpWithinCost(c, d);
    case Store(w) => WordSpends(c, d, w, DeviceNext(c, r, d, act).x, 0);
    case Touch(w) => TouchSpends(c, r, d, w);
  }

  lemma ViewSpends(c: Config, r: nat, v: View, act: Act)
    requires SafeConfig(c) && r < 2 && Inv(c, r, v) && ViewEnabled(c, v, act)
    ensures RankSpent(c, ViewNext(c, r, v, act).me) > RankSpent(c, v.me)
    ensures RankSpent(c, ViewNext(c, r, v, act).peer) == RankSpent(c, v.peer)
  {
    if !act.HostStep? {
      DeviceSpends(c, r, v.me.dev, act);
    }
  }

  lemma StepSpends(c: Config, s: View, a: Action)
    requires SafeConfig(c) && Inv(c, 0, s) && Enabled(c, s, a)
    ensures RankSpent(c, Next(c, s, a).me) + RankSpent(c, Next(c, s, a).peer)
         >= RankSpent(c, s.me) + RankSpent(c, s.peer) + 1
  {
    if a.second {
      Symmetric(c, 0, s);
      ViewSpends(c, 1, s.Swap(), a.act);
    } else {
      ViewSpends(c, 0, s, a.act);
    }
  }

  lemma {:induction false} RunSpends(c: Config, s: View, acts: seq<Action>, t: View)
    requires SafeConfig(c) && Inv(c, 0, s) && Runs(c, s, acts, t)
    ensures RankSpent(c, s.me) + RankSpent(c, s.peer) + |acts| <= RankSpent(c, t.me) + RankSpent(c, t.peer)
    decreases |acts|
  {
    if acts != [] {
      StepInv(c, s, acts[0]);
      StepSpends(c, s, acts[0]);
      RunSpends(c, Next(c, s, acts[0]), acts[1..], t);
    }
  }

  /** Without any fairness, no run is longer than `Bound`, and a run that cannot go on has finished
      every call on both ranks. */
  lemma RunsEnd(c: Config, acts: seq<Action>, s: View)
    requires SafeConfig(c) && Runs(c, START, acts, s)
    ensures |acts| <= Bound(c)
    ensures !CanStep(c, s) ==> Finished(c, s)
  {
    StartInv(c);
    RunInv(c, START, acts, s);
    RunSpends(c, START, acts, s);
    RankWithinBound(c, s.me);
    RankWithinBound(c, s.peer);
    NoDeadlock(c, s);
  }

  // ---------------------------------------------------------------------------------------------
  // Two slots, the host wait and the order of the queue are needed
  // ---------------------------------------------------------------------------------------------

  lemma {:induction false} Extend(c: Config, s: View, acts: seq<Action>, t: View, a: Action)
    requires ValidConfig(c) && Runs(c, s, acts, t) && Enabled(c, t, a)
    ensures Runs(c, s, acts + [a], Next(c, t, a))
    decreases |acts|
  {
    if acts == [] {
      assert Runs(c, Next(c, s, a), [], Next(c, t, a));
      assert (acts + [a])[1..] == [];
    } else {
      Extend(c, Next(c, s, acts[0]), acts[1..], t, a);
      assert (acts + [a])[1..] == acts[1..] + [a];
    }
  }

  /** Rank `second` acts, in its own view. */
  lemma Move(c: Config, second: bool, v: View, act: Act) returns (t: View)
    requires ValidConfig(c) && Reachable(c, Seen(v, second)) && ViewEnabled(c, v, act)
    ensures Reachable(c, Seen(t, second)) && t == ViewNext(c, Id(second), v, act)
  {
    var s := Seen(v, second);
    var acts :| Runs(c, START, acts, s);
    var a := Action(second, act);
    assert Seen(s, second) == v;
    Extend(c, START, acts, s, a);
    t := ViewNext(c, Id(second), v, act);
    assert Next(c, s, a) == Seen(t, second);
  }

  /** The operation at the front of the queue, of a call with one word. */
  predicate Front(c: Config, d: Device, op: Op) {
    d.Busy() && d.Running() == op && c.words(op.call) == 1
  }

  lemma FillRuns(c: Config, second: bool, v: View, n: nat) returns (t: View)
    requires ValidConfig(c) && Reachable(c, Seen(v, second)) && Front(c, v.me.dev, Fill(n)) && v.me.dev.Idle()
    ensures Reachable(c, Seen(t, second))
    ensures var d := v.me.dev;
      t == v.(me := v.me.(dev := d.(head := d.head + 1, x := d.x[0 := c.payload(Id(second), n, 0)])))
  {
    t := Move(c, second, v, Touch(0));
    t := Move(c, second, t, Retire);
  }

  lemma PushRuns(c: Config, second: bool, v: View, n: nat) returns (t: View)
    requires ValidConfig(c) && Reachable(c, Seen(v, second)) && Front(c, v.me.dev, Push(n)) && v.me.dev.Idle()
    ensures Reachable(c, Seen(t, second))
    ensures var d, p := v.me.dev, v.peer.dev;
      t == v.(me := v.me.(dev := d.(head := d.head + 1)),
              peer := v.peer.(dev := p.(scratch := p.scratch[(n % c.slots, 0) := Read(d.x, 0)])))
  {
    t := Move(c, second, v, Touch(0));
    t := Move(c, second, t, Retire);
  }

  lemma KernelRuns(c: Config, second: bool, v: View, n: nat) returns (t: View)
    requires ValidConfig(c) && Reachable(c, Seen(v, second)) && Front(c, v.me.dev, Kernel(n)) && v.me.dev.Idle()
    ensures Reachable(c, Seen(t, second))
    ensures var d := v.me.dev;
      t == v.(me := v.me.(dev := d.(head := d.head + 1, x := t.me.dev.x,
              out := d.out[n := map[0 := c.add(Read(d.x, 0), Read(d.scratch, (n % c.slots, 0)))]])))
  {
    t := Move(c, second, v, Touch(0));
    assert RowRead(c, t.me.dev, n, 0);
    t := Move(c, second, t, Store(0));
    t := Move(c, second, t, Retire);
  }

  /** The next call, of one word: the host submits, the device fills and pushes, the host sees it. */
  lemma CallToBarrier(c: Config, second: bool, v: View) returns (t: View)
    requires ValidConfig(c) && Reachable(c, Seen(v, second)) && v.me.dev.Idle() && v.me.dev.head == |v.me.dev.log|
    requires v.me.host.pc.Ready? && v.me.host.call < c.calls && c.words(v.me.host.call) == 1
    ensures Reachable(c, Seen(t, second))
    ensures var h, d, p := v.me.host, v.me.dev, v.peer.dev;
      var own := c.payload(Id(second), h.call, 0);
      t == v.(me := Rank(h.(pc := Arriving),
                         d.(log := d.log + [Fill(h.call), Push(h.call)], head := d.head + 2, x := d.x[0 := own])),
              peer := v.peer.(dev := p.(scratch := p.scratch[(h.call % c.slots, 0) := own])))
  {
    t := Move(c, second, v, HostStep);
    t := FillRuns(c, second, t, v.me.host.call);
    t := PushRuns(c, second, t, v.me.host.call);
    t := Move(c, second, t, HostStep);
  }

  /** A rank after its barrier, with its kernel launched. */
  function Passed(k: Rank): Rank {
    Rank(Host(Ready, k.host.call + 1, !k.host.localSense), k.dev.(log := k.dev.log + [Kernel(k.host.call)]))
  }

  /** The barrier with rank 0 first; both ranks then launch their kernels. */
  lemma BarrierRuns(c: Config, v: View) returns (t: View)
    requires ValidConfig(c) && Reachable(c, v) && v.bar.count == 0
    requires v.me.host.pc.Arriving? && v.peer.host.pc.Arriving?
    requires v.bar.sense == v.me.host.localSense == v.peer.host.localSense
    ensures Reachable(c, t)
    ensures t == View(Passed(v.me), Passed(v.peer), Bar(0, !v.bar.sense, v.bar.rounds + 1))
  {
    assert v.me.dev.log + [] == v.me.dev.log && v.peer.dev.log + [] == v.peer.dev.log;
    t := Move(c, false, v, HostStep);
    t := Move(c, true, t.Swap(), HostStep);
    t := Move(c, true, t, HostStep);
    t := Move(c, true, t, HostStep);
    assert t == View(v.peer.(host := v.peer.host.(pc := Leaving)), v.me.(host := v.me.host.(pc := Spinning)),
                     Bar(0, !v.bar.sense, v.bar.rounds + 1));
    t := Leaves(c, true, t);
    t := Move(c, false, t.Swap(), HostStep);
    t := Leaves(c, false, t);
  }

  lemma Leaves(c: Config, second: bool, v: View) returns (t: View)
    requires ValidConfig(c) && Reachable(c, Seen(v, second)) && v.me.host.pc.Leaving?
    ensures Reachable(c, Seen(t, second)) && t == v.(me := Passed(v.me))
  {
    assert v.me.dev.log + [] == v.me.dev.log;
    t := Move(c, second, v, HostStep);
    t := Move(c, second, t, HostStep);
  }

  /** Rank 1 runs ahead of rank 0, whose kernel then reads the payload of the next call. */
  lemma RunsAhead(c: Config, v: View) returns (t: View)
    requires ValidConfig(c) && c.slots == 1 && Reachable(c, v) && c.calls == 2 && c.words(0) == c.words(1) == 1
    requires v.me.dev.Idle() && v.peer.dev.Idle()
    requires v.peer.host.pc.Ready? && v.peer.host.call == 1
    requires Front(c, v.me.dev, Kernel(0)) && Front(c, v.peer.dev, Kernel(0)) && v.peer.dev.head + 1 == |v.peer.dev.log|
    ensures Reachable(c, t)
    ensures t.me.dev.out == v.me.dev.out[0 := map[0 := c.add(Read(v.me.dev.x, 0), c.payload(1, 1, 0))]]
  {
    t := KernelRuns(c, true, v.Swap(), 0);
    t := CallToBarrier(c, true, t);
    t := KernelRuns(c, false, t.Swap(), 0);
  }

  /** With a single slot, the second push of one rank lands before the other's first kernel reads. */
  lemma OneSlotFails()
    ensures exists c :: ValidConfig(c) && Commutative(c) && c.slots == 1 && c.waitPush && c.inOrder && !Correct(c)
  {
    var c := Config(1, true, true, 2, 1, n => 1, (r, n, w) => n, (a, b) => a + b, (r, n, row, sums, col) => 0);
    assert Runs(c, START, [], START);
    var t := CallToBarrier(c, false, START);
    t := CallToBarrier(c, true, t.Swap());
    t := BarrierRuns(c, t.Swap());
    assert t.me.dev.log == [Fill(0), Push(0), Kernel(0)] && t.peer.dev.log == [Fill(0), Push(0), Kernel(0)];
    t := RunsAhead(c, t);
    assert Seen(t, false).me.dev.out[0][0] == 1;
    assert Sums(c, Id(false), 0)[0] == 0;
  }

  /** Without the host wait, a rank can pass the barrier before its push has run. */
  lemma NoWaitFails(slots: nat, inOrder: bool)
    requires slots > 0
    ensures exists c :: ValidConfig(c) && Commutative(c) && c.slots == slots && !c.waitPush && c.inOrder == inOrder && !Correct(c)
  {
    var c := Config(slots, false, inOrder, 1, 1, n => 1, (r, n, w) => 1, (a, b) => a + b, (r, n, row, sums, col) => 0);
    assert Runs(c, START, [], START);
    var t := Move(c, false, START, HostStep);
    t := Move(c, false, t, HostStep);
    t := CallToBarrier(c, true, t.Swap());
    t := BarrierRuns(c, t.Swap());
    t := KernelRuns(c, true, t.Swap(), 0);
    assert Seen(t.Swap(), true).me.dev.out[0][0] == 1;
    assert Sums(c, Id(true), 0)[0] == 2;
  }

  /** On a queue that is not in order a push can run before its payload is there; the host then sees the
      push done, passes the barrier, and the peer adds what was pushed. */
  lemma NoOrderFails(slots: nat, waitPush: bool)
    requires slots > 0
    ensures exists c :: ValidConfig(c) && Commutative(c) && c.slots == slots && c.waitPush == waitPush && !c.inOrder && !Correct(c)
  {
    var c := Config(slots, waitPush, false, 1, 1, n => 1, (r, n, w) => 1, (a, b) => a + b, (r, n, row, sums, col) => 0);
    assert Runs(c, START, [], START);
    var t := PushFirst(c, START);
    t := CallToBarrier(c, true, t.Swap());
    t := BarrierRuns(c, t.Swap());
    t := KernelRuns(c, true, t.Swap(), 0);
    assert Seen(t.Swap(), true).me.dev.out[0][0] == 1;
    assert Sums(c, Id(true), 0)[0] == 2;
  }

  /** The first push of rank 0 runs before the fill that it should push. */
  lemma PushFirst(c: Config, v: View) returns (t: View)
    requires ValidConfig(c) && !c.inOrder && Reachable(c, v) && v == START && c.calls == 1 && c.words(0) == 1
    ensures Reachable(c, t) && t.peer.host == v.peer.host && t.bar == v.bar
    ensures t.me.host == v.me.host.(pc := Arriving)
    ensures t.peer.dev == v.peer.dev.(scratch := map[(0, 0) := 0])
  {
    t := Move(c, false, v, HostStep);
    t := Move(c, false, t, Pick(1));
    assert t.me.dev.log == [Push(0), Fill(0)];
    t := PushRuns(c, false, t, 0);
    t := Move(c, false, t, HostStep);
  }

  /** Whatever is pushed and however the ranks are scheduled, the sums are right. */
  ghost predicate AlwaysCorrect(slots: nat, waitPush: bool, inOrder: bool) {
    forall c {:trigger Correct(c)} ::
      ValidConfig(c) && Commutative(c) && c.slots == slots && c.waitPush == waitPush && c.inOrder == inOrder ==> Correct(c)
  }

  /** The sums are right in all runs of all configurations exactly when there are two slots or more, the
      host waits for its push, and the queues are in order. */
  lemma SafeExactly(slots: nat, waitPush: bool, inOrder: bool)
    requires slots > 0
    ensures AlwaysCorrect(slots, waitPush, inOrder) <==> slots >= 2 && waitPush && inOrder
  {
    if !inOrder {
      NoOrderFails(slots, waitPush);
    } else if !waitPush {
      NoWaitFails(slots, inOrder);
    } else if slots == 1 {
      OneSlotFails();
    } else {
      forall c | ValidConfig(c) && Commutative(c) && c.slots == slots && c.waitPush == waitPush && c.inOrder == inOrder
        ensures Correct(c)
      {
        SafeIsCorrect(c);
      }
    }
  }
}
