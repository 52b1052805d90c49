/** The two-queue copy ring: a host fills ring slots, a copy queue moves them to the device and
    publishes completion markers, a compute queue consumes them. Host and queues interleave freely;
    fills, copies and consumers work byte by byte in any order. */
module CopyRing {
  import opened Collections
  import opened Slots

  /** `native` selects the marker copied from the `values` cells, otherwise it is a fill. `fence` says
      whether a copy waits for the consumer of its slot, and `poll` whether the host waits for the marker
      of its slot. The source has both, `ring == 2`, `jobs == 32` and `cells == 4 * ring`. */
  datatype Config = Config(
    ring: nat,
    jobs: nat,
    cells: nat,
    native: bool,
    fence: bool,
    poll: bool,
    bytes: nat,
    payload: (nat, nat) -> int,
    scramble: int -> int)

  predicate WellFormed(c: Config) {
    c.ring > 0 && c.cells > 0
  }

  /** The configurations the source relies on. */
  predicate Valid(c: Config) {
    WellFormed(c) && c.ring <= c.cells && c.fence && c.poll
  }

  // ---------------------------------------------------------------------------------------------
  // States
  // ---------------------------------------------------------------------------------------------

  /** The statement of the job loop the host is about to execute; a host that has polled for too long has
      thrown an exception and does nothing any more. */
  datatype Pc = Polling | Filling | Fencing | Copying | Valuing | Marking | Publishing | Awaiting | Consuming | TimedOut

  datatype Host = Host(pc: Pc, job: nat, filled: set<nat>, wanted: map<nat, nat>, used: map<nat, nat>)

  /** Operations of the copy queue; a fence waits for a position of the compute queue. */
  datatype CopyOp = Fence(job: nat, on: nat) | Copy(job: nat) | Mark(job: nat) | Publish(job: nat)

  /** Operations of the compute queue; an await waits for a position of the copy queue. */
  datatype ComputeOp = Await(job: nat, on: nat) | Consume(job: nat)

  datatype Queue<Op> = Queue(log: seq<Op>, head: nat, touched: set<nat>) {
    predicate Busy() {
      head < |log|
    }

    function Running(): Op
      requires Busy()
    {
      log[head]
    }

    function Submit(op: Op): Queue<Op> {
      this.(log := log + [op])
    }

    function Pop(): Queue<Op> {
      this.(head := head + 1, touched := {})
    }
  }

  /** `marks` counts the markers executed; no step reads it. */
  datatype Memory = Memory(
    host: map<(nat, nat), int>,
    dev: map<(nat, nat), int>,
    done: map<nat, nat>,
    values: map<nat, nat>,
    marks: nat,
    errors: nat)

  datatype State = State(h: Host, copy: Queue<CopyOp>, compute: Queue<ComputeOp>, m: Memory)

  const START := State(Host(Polling, 0, {}, map[], map[]), Queue([], 0, {}), Queue([], 0, {}),
                       Memory(map[], map[], map[], map[], 0, 0))

  /** A cell that was never written reads as zero, as the source clears its arrays. */
  function At<K>(m: map<K, nat>, k: K): nat {
    if k in m then m[k] else 0
  }

  function Byte(m: map<(nat, nat), int>, k: (nat, nat)): int {
    if k in m then m[k] else 0
  }

  // ---------------------------------------------------------------------------------------------
  // Steps
  // ---------------------------------------------------------------------------------------------

  /** `Expire` is the clock, which is looked at after the marker: it may run out in any poll, even if the
      marker arrives in between. */
  datatype Act = HostStep | Expire | HostByte(i: nat) | CopyByte(i: nat) | CopyRetire | ComputeByte(i: nat) | ComputeRetire

  /** What the poll looks for: the marker of the host's slot has reached the wanted number. */
  predicate Marked(c: Config, s: State)
    requires WellFormed(c)
  {
    At(s.m.done, Slot(s.h.job, c.ring)) >= At(s.h.wanted, Slot(s.h.job, c.ring))
  }

  predicate Enabled(c: Config, s: State, a: Act)
    requires WellFormed(c)
  {
    var h := s.h;
    match a
    case HostStep =>
      (match h.pc
       case Polling => h.job < c.jobs && (c.poll ==> Marked(c, s))
       case Filling => Covers(h.filled, c.bytes)
       case TimedOut => false
       case _ => true)
    case Expire => c.poll && h.pc.Polling? && h.job < c.jobs
    case HostByte(i) => h.pc.Filling? && i < c.bytes && i !in h.filled
    case CopyByte(i) => s.copy.Busy() && s.copy.Running().Copy? && i < c.bytes && i !in s.copy.touched
    case CopyRetire =>
      s.copy.Busy()
      && (match s.copy.Running()
          case Fence(_, on) => s.compute.head > on
          case Copy(_) => Covers(s.copy.touched, c.bytes)
          case Mark(_) => true
          case Publish(_) => true)
    case ComputeByte(i) => s.compute.Busy() && s.compute.Running().Consume? && i < c.bytes && i !in s.compute.touched
    case ComputeRetire =>
      s.compute.Busy()
      && (match s.compute.Running()
          case Await(_, on) => s.copy.head > on
          case Consume(_) => Covers(s.compute.touched, c.bytes))
  }

  /** The host's own registers after its next statement. */
  function HostNext(c: Config, h: Host, computeLog: nat): Host
    requires WellFormed(c)
  {
    match h.pc
    case Polling => h.(pc := Filling, filled := {})
    case Filling => h.(pc := if h.job >= c.ring && c.fence then Fencing else Copying)
    case Fencing => h.(pc := Copying)
    case Copying => h.(pc := Valuing)
    case Valuing => h.(pc := Marking, wanted := h.wanted[Slot(h.job, c.ring) := h.job + 1])
    case Marking => h.(pc := Publishing)
    case Publishing => h.(pc := Awaiting)
    case Awaiting => h.(pc := Consuming)
    case Consuming => h.(pc := Polling, job := h.job + 1, used := h.used[Slot(h.job, c.ring) := computeLog])
    case TimedOut => h
  }

  /** What a host statement submits to the copy queue. */
  function CopySubmit(c: Config, h: Host, q: Queue<CopyOp>): Queue<CopyOp>
    requires WellFormed(c)
  {
    match h.pc
    case Fencing => q.Submit(Fence(h.job, At(h.used, Slot(h.job, c.ring))))
    case Copying => q.Submit(Copy(h.job))
    case Marking => q.Submit(Mark(h.job))
    case Publishing => q.Submit(Publish(h.job))
    case _ => q
  }

  /** What it submits to the compute queue: the await is on the last operation of the copy queue. */
  function ComputeSubmit(h: Host, q: Queue<ComputeOp>, copyLog: nat): Queue<ComputeOp> {
    match h.pc
    case Awaiting => q.Submit(Await(h.job, if copyLog == 0 then 0 else copyLog - 1))
    case Consuming => q.Submit(Consume(h.job))
    case _ => q
  }

  function HostMemory(c: Config, h: Host, m: Memory): Memory
    requires WellFormed(c)
  {
    if h.pc.Valuing? && c.native then m.(values := m.values[Slot(h.job + 1, c.cells) := h.job + 1]) else m
  }

  function CopyMemory(c: Config, op: CopyOp, m: Memory): Memory
    requires WellFormed(c)
  {
    if op.Mark? then
      m.(marks := m.marks + 1,
         done := m.done[Slot(op.job, c.ring) := if c.native then At(m.values, Slot(op.job + 1, c.cells)) else op.job + 1])
    else m
  }

  function ConsumeByte(c: Config, j: nat, i: nat, m: Memory): Memory
    requires WellFormed(c)
  {
    m.(errors := if Byte(m.dev, (Slot(j, c.ring), i)) == c.payload(j, i) then m.errors else m.errors + 1,
       dev := m.dev[(Slot(j, c.ring), i) := c.scramble(c.payload(j, i))])
  }

  function Next(c: Config, s: State, a: Act): State
    requires WellFormed(c) && Enabled(c, s, a)
  {
    match a
    case HostStep =>
      State(HostNext(c, s.h, |s.compute.log|), CopySubmit(c, s.h, s.copy),
            ComputeSubmit(s.h, s.compute, |s.copy.log|), HostMemory(c, s.h, s.m))
    case Expire => s.(h := s.h.(pc := TimedOut))
    case HostByte(i) =>
      s.(h := s.h.(filled := s.h.filled + {i}),
         m := s.m.(host := s.m.host[(Slot(s.h.job, c.ring), i) := c.payload(s.h.job, i)]))
    case CopyByte(i) =>
      var k := (Slot(s.copy.Running().job, c.ring), i);
      s.(copy := s.copy.(touched := s.copy.touched + {i}), m := s.m.(dev := s.m.dev[k := Byte(s.m.host, k)]))
    case CopyRetire => s.(copy := s.copy.Pop(), m := CopyMemory(c, s.copy.Running(), s.m))
    case ComputeByte(i) =>
      s.(compute := s.compute.(touched := s.compute.touched + {i}),
         m := ConsumeByte(c, s.compute.Running().job, i, s.m))
    case ComputeRetire => s.(compute := s.compute.Pop())
  }

  /** `t` is what the schedule `acts` makes of `s`, every step enabled when it is taken. */
  ghost predicate Runs(c: Config, s: State, acts: seq<Act>, t: State)
    requires WellFormed(c)
    decreases |acts|
  {
    if acts == [] then s == t
    else Enabled(c, s, acts[0]) && Runs(c, Next(c, s, acts[0]), acts[1..], t)
  }

  ghost predicate Reachable(c: Config, s: State)
    requires WellFormed(c)
  {
    exists acts :: Runs(c, START, acts, s)
  }

  // ---------------------------------------------------------------------------------------------
  // Where the queues stand
  // ---------------------------------------------------------------------------------------------

  /** Operations of the copy queue before job `j`: three a job, and a fence from job `ring` on. */
  function CopyBase(c: Config, j: nat): nat {
    3 * j + if j <= c.ring then 0 else j - c.ring
  }

  function CopyPos(c: Config, j: nat): nat {
    CopyBase(c, j) + if j >= c.ring then 1 else 0
  }

  /** The position in the copy log where an operation must stand, and what a fence must wait for. */
  predicate CopyOpAt(c: Config, op: CopyOp, i: nat) {
    match op
    case Fence(j, on) => j >= c.ring && i + 1 == CopyPos(c, j) && on == 2 * (j - c.ring) + 1
    case Copy(j) => i == CopyPos(c, j)
    case Mark(j) => i == CopyPos(c, j) + 1
    case Publish(j) => i == CopyPos(c, j) + 2
  }

  predicate ComputeOpAt(c: Config, op: ComputeOp, i: nat) {
    match op
    case Await(j, on) => i == 2 * j && on == CopyPos(c, j) + 2
    case Consume(j) => i == 2 * j + 1
  }

  function CopyLength(c: Config, h: Host): nat {
    match h.pc
    case Polling => CopyBase(c, h.job)
    case Filling => CopyBase(c, h.job)
    case Fencing => CopyBase(c, h.job)
    case Copying => CopyPos(c, h.job)
    case Valuing => CopyPos(c, h.job) + 1
    case Marking => CopyPos(c, h.job) + 1
    case Publishing => CopyPos(c, h.job) + 2
    case Awaiting => CopyPos(c, h.job) + 3
    case Consuming => CopyPos(c, h.job) + 3
    case TimedOut => CopyBase(c, h.job)
  }

  predicate QueuesInv(c: Config, s: State) {
    && (forall i :: 0 <= i < |s.copy.log| ==> CopyOpAt(c, s.copy.log[i], i))
    && (forall i :: 0 <= i < |s.compute.log| ==> ComputeOpAt(c, s.compute.log[i], i))
    && |s.copy.log| == CopyLength(c, s.h)
    && |s.compute.log| == 2 * s.h.job + (if s.h.pc.Consuming? then 1 else 0)
    && s.copy.head <= |s.copy.log| && s.compute.head <= |s.compute.log|
    && s.h.job <= c.jobs && (s.h.job == c.jobs ==> s.h.pc.Polling?)
    && (s.h.pc.Fencing? ==> s.h.job >= c.ring)
  }

  /** The event of a slot is the consumer that used it last. */
  ghost predicate UsedInv(c: Config, h: Host)
    requires c.ring > 0
  {
    forall j: nat :: j < h.job <= j + c.ring ==> At(h.used, Slot(j, c.ring)) == 2 * j + 1
  }

  lemma HostQueues(c: Config, s: State)
    requires Valid(c) && Enabled(c, s, HostStep) && QueuesInv(c, s) && UsedInv(c, s.h)
    ensures QueuesInv(c, Next(c, s, HostStep))
  {
    if s.h.pc.Fencing? {
      var j := s.h.job - c.ring;
      assert Slot(s.h.job, c.ring) == Slot(j, c.ring);
    }
  }

  lemma HostUsed(c: Config, s: State)
    requires Valid(c) && Enabled(c, s, HostStep) && QueuesInv(c, s) && UsedInv(c, s.h)
    ensures UsedInv(c, Next(c, s, HostStep).h)
  {
    if s.h.pc.Consuming? {
      forall j: nat | j < s.h.job + 1 <= j + c.ring
        ensures At(Next(c, s, HostStep).h.used, Slot(j, c.ring)) == 2 * j + 1
      {
        if j < s.h.job && Slot(j, c.ring) == Slot(s.h.job, c.ring) {
          SlotApart(j, s.h.job, c.ring);
          assert false;
        }
      }
    }
  }

  // ---------------------------------------------------------------------------------------------
  // The markers
  // ---------------------------------------------------------------------------------------------

  /** The announced sequence numbers by slot, after `n` jobs. */
  function Laps(ring: nat, n: nat): map<nat, nat>
    requires ring > 0
  {
    if n == 0 then map[] else Laps(ring, n - 1)[Slot(n - 1, ring) := n]
  }

  lemma {:induction false} LapsBounds(ring: nat, n: nat, s: nat)
    requires ring > 0
    ensures At(Laps(ring, n), s) <= n
    ensures forall j: nat :: j < n && Slot(j, ring) == s ==> At(Laps(ring, n), s) >= j + 1
  {
    if n > 0 {
      LapsBounds(ring, n - 1, s);
    }
  }

  /** Jobs whose sequence number the host has announced. */
  function Announced(h: Host): nat {
    h.job + if h.pc.Marking? || h.pc.Publishing? || h.pc.Awaiting? || h.pc.Consuming? then 1 else 0
  }

  /** The queue has executed the markers of the jobs before `marks`. */
  predicate MarksAt(c: Config, copyHead: nat, marks: nat) {
    && copyHead <= CopyPos(c, marks) + 1
    && (marks > 0 ==> copyHead > CopyPos(c, marks - 1) + 1)
  }

  /** The host has polled the marker of the previous user of its slot. */
  predicate TurnInv(c: Config, h: Host, marks: nat) {
    h.job < marks + c.ring + (if h.pc.Polling? || h.pc.TimedOut? then 1 else 0)
  }

  /** A marker that has not run yet finds its sequence number in its cell. */
  ghost predicate ValuesInv(c: Config, h: Host, m: Memory)
    requires Valid(c)
  {
    c.native ==> forall q: nat :: m.marks < q <= Announced(h) ==> At(m.values, Slot(q, c.cells)) == q
  }

  ghost predicate MarkersInv(c: Config, h: Host, copyHead: nat, m: Memory)
    requires Valid(c)
  {
    && MarksAt(c, copyHead, m.marks)
    && m.done == Laps(c.ring, m.marks)
    && h.wanted == Laps(c.ring, Announced(h))
    && TurnInv(c, h, m.marks)
    && ValuesInv(c, h, m)
  }

  /** The poll that lets job `j` go on has seen the marker of the previous user of its slot. */
  lemma PollSeesMark(c: Config, j: nat, marks: nat)
    requires c.ring > 0 && j >= c.ring
    requires At(Laps(c.ring, marks), Slot(j, c.ring)) >= At(Laps(c.ring, j), Slot(j, c.ring))
    ensures j - c.ring < marks
  {
    LapsBounds(c.ring, j, Slot(j, c.ring));
    LapsBounds(c.ring, marks, Slot(j, c.ring));
    assert Slot(j - c.ring, c.ring) == Slot(j, c.ring);
  }

  /** No marker still to run reads the cell of sequence `q`. */
  lemma CellsApart(c: Config, marks: nat, q: nat, q': nat)
    requires Valid(c) && marks < q < q' <= marks + c.ring
    ensures Slot(q, c.cells) != Slot(q', c.cells)
  {
    if Slot(q, c.cells) == Slot(q', c.cells) {
      SlotApart(q, q', c.cells);
      assert false;
    }
  }

  lemma WriteValue(c: Config, h: Host, m: Memory, computeLog: nat)
    requires Valid(c) && h.pc.Valuing? && TurnInv(c, h, m.marks) && ValuesInv(c, h, m)
    ensures ValuesInv(c, HostNext(c, h, computeLog), HostMemory(c, h, m))
  {
    forall q: nat | m.marks < q <= h.job
      ensures Slot(q, c.cells) != Slot(h.job + 1, c.cells)
    {
      CellsApart(c, m.marks, q, h.job + 1);
    }
  }

  lemma HostMarkers(c: Config, s: State)
    requires Valid(c) && Enabled(c, s, HostStep) && MarkersInv(c, s.h, s.copy.head, s.m)
    ensures MarkersInv(c, HostNext(c, s.h, |s.compute.log|), s.copy.head, HostMemory(c, s.h, s.m))
  {
    if s.h.pc.Polling? {
      if s.h.job >= c.ring {
        PollSeesMark(c, s.h.job, s.m.marks);
      }
    } else if s.h.pc.Valuing? {
      WriteValue(c, s.h, s.m, |s.compute.log|);
    }
  }

  lemma MarkRuns(c: Config, h: Host, copyHead: nat, m: Memory, op: CopyOp)
    requires Valid(c) && op.Mark? && CopyOpAt(c, op, copyHead) && copyHead < CopyLength(c, h) && MarkersInv(c, h, copyHead, m)
    ensures MarkersInv(c, h, copyHead + 1, CopyMemory(c, op, m))
  {
    assert op.job == m.marks < Announced(h);
    assert c.native ==> At(m.values, Slot(m.marks + 1, c.cells)) == m.marks + 1;
  }

  lemma CopyMarkers(c: Config, s: State)
    requires Valid(c) && QueuesInv(c, s) && MarkersInv(c, s.h, s.copy.head, s.m) && Enabled(c, s, CopyRetire)
    ensures MarkersInv(c, s.h, s.copy.head + 1, CopyMemory(c, s.copy.Running(), s.m))
  {
    assert CopyOpAt(c, s.copy.Running(), s.copy.head);
    if s.copy.Running().Mark? {
      MarkRuns(c, s.h, s.copy.head, s.m, s.copy.Running());
    }
  }

  // ---------------------------------------------------------------------------------------------
  // The bytes
  // ---------------------------------------------------------------------------------------------

  /** The host has written byte `i` of job `j`. */
  predicate Filled(h: Host, j: nat, i: nat) {
    j < h.job || (j == h.job && !h.pc.Polling? && !h.pc.TimedOut? && (h.pc.Filling? ==> i in h.filled))
  }

  /** The copy queue has moved byte `i` of job `j`. */
  predicate Moved(c: Config, q: Queue<CopyOp>, j: nat, i: nat) {
    q.head > CopyPos(c, j) || (q.head == CopyPos(c, j) && i in q.touched)
  }

  /** The consumer of job `j` has seen byte `i`. */
  predicate Eaten(q: Queue<ComputeOp>, j: nat, i: nat) {
    q.head > 2 * j + 1 || (q.head == 2 * j + 1 && i in q.touched)
  }

  /** No copy on a slot before the consumer of the previous lap, no consumer before its copy. */
  ghost predicate OrderInv(c: Config, copyHead: nat, computeHead: nat) {
    && (forall j: nat :: j >= c.ring && copyHead >= CopyPos(c, j) ==> computeHead > 2 * (j - c.ring) + 1)
    && (forall j: nat :: computeHead > 2 * j ==> copyHead > CopyPos(c, j) + 2)
  }

  /** Only bytes of the payload are ever processed. */
  ghost predicate TouchedInv(c: Config, s: State) {
    && (forall i :: i in s.h.filled || i in s.copy.touched || i in s.compute.touched ==> i < c.bytes)
    && (!s.copy.Busy() || !s.copy.Running().Copy? ==> s.copy.touched == {})
    && (!s.compute.Busy() || !s.compute.Running().Consume? ==> s.compute.touched == {})
  }

  /** A filled byte stays in its host slot until it has been copied. */
  ghost predicate HostInv(c: Config, h: Host, copyHead: nat, host: map<(nat, nat), int>)
    requires c.ring > 0
  {
    forall j: nat, i: nat :: Filled(h, j, i) && i < c.bytes && copyHead <= CopyPos(c, j)
      ==> Byte(host, (Slot(j, c.ring), i)) == c.payload(j, i)
  }

  /** A copied byte stays in its device slot until it has been consumed. */
  ghost predicate DevInv(c: Config, copy: Queue<CopyOp>, compute: Queue<ComputeOp>, dev: map<(nat, nat), int>)
    requires c.ring > 0
  {
    forall j: nat, i: nat :: Moved(c, copy, j, i) && i < c.bytes && !Eaten(compute, j, i)
      ==> Byte(dev, (Slot(j, c.ring), i)) == c.payload(j, i)
  }

  ghost predicate BytesInv(c: Config, s: State)
    requires c.ring > 0
  {
    && OrderInv(c, s.copy.head, s.compute.head)
    && TouchedInv(c, s)
    && HostInv(c, s.h, s.copy.head, s.m.host)
    && DevInv(c, s.copy, s.compute, s.m.dev)
    && s.m.errors == 0
  }

  ghost predicate Inv(c: Config, s: State)
    requires Valid(c)
  {
    QueuesInv(c, s) && UsedInv(c, s.h) && MarkersInv(c, s.h, s.copy.head, s.m) && BytesInv(c, s)
  }

  lemma StartInv(c: Config)
    requires Valid(c)
    ensures Inv(c, START)
  {
  }

  lemma HostBytes(c: Config, s: State)
    requires Valid(c) && Enabled(c, s, HostStep) && QueuesInv(c, s) && BytesInv(c, s)
    ensures BytesInv(c, Next(c, s, HostStep))
  {
    var t := Next(c, s, HostStep);
    assert HostInv(c, t.h, t.copy.head, t.m.host) by {
      forall j: nat, i: nat | Filled(t.h, j, i) && i < c.bytes
        ensures Filled(s.h, j, i)
      {
      }
    }
    assert t.copy.head == s.copy.head && t.copy.touched == s.copy.touched;
    assert t.compute.head == s.compute.head && t.compute.touched == s.compute.touched;
    assert DevInv(c, t.copy, t.compute, t.m.dev) by {
      forall j: nat, i: nat
        ensures Moved(c, t.copy, j, i) == Moved(c, s.copy, j, i) && Eaten(t.compute, j, i) == Eaten(s.compute, j, i)
      {
      }
    }
  }

  /** The host slot being filled holds nothing a copy still has to read. */
  lemma HostSlotFree(c: Config, h: Host, copyHead: nat, m: Memory, k: nat)
    requires Valid(c) && MarkersInv(c, h, copyHead, m) && h.pc.Filling?
    requires k < h.job && Slot(k, c.ring) == Slot(h.job, c.ring)
    ensures copyHead > CopyPos(c, k) + 1
  {
    SlotApart(k, h.job, c.ring);
  }

  lemma FillByte(c: Config, h: Host, copyHead: nat, m: Memory, i: nat)
    requires Valid(c) && MarkersInv(c, h, copyHead, m) && HostInv(c, h, copyHead, m.host) && h.pc.Filling?
    ensures HostInv(c, h.(filled := h.filled + {i}), copyHead, m.host[(Slot(h.job, c.ring), i) := c.payload(h.job, i)])
  {
    var h' := h.(filled := h.filled + {i});
    forall j: nat, u: nat | Filled(h', j, u) && u < c.bytes && copyHead <= CopyPos(c, j) && (j != h.job || u != i)
      ensures Filled(h, j, u) && (Slot(j, c.ring) != Slot(h.job, c.ring) || u != i)
    {
      if Slot(j, c.ring) == Slot(h.job, c.ring) && j != h.job {
        HostSlotFree(c, h, copyHead, m, j);
        assert false;
      }
    }
  }

  lemma FillFrame(c: Config, s: State, i: nat)
    requires Valid(c) && Enabled(c, s, HostByte(i)) && QueuesInv(c, s) && UsedInv(c, s.h)
    requires MarkersInv(c, s.h, s.copy.head, s.m)
    ensures var t := Next(c, s, HostByte(i));
      QueuesInv(c, t) && UsedInv(c, t.h) && MarkersInv(c, t.h, t.copy.head, t.m)
  {
  }

  lemma FillBytes(c: Config, s: State, i: nat)
    requires Valid(c) && Enabled(c, s, HostByte(i)) && MarkersInv(c, s.h, s.copy.head, s.m) && BytesInv(c, s)
    ensures BytesInv(c, Next(c, s, HostByte(i)))
  {
    FillByte(c, s.h, s.copy.head, s.m, i);
  }

  /** The device slot being copied into holds nothing a consumer still has to read. */
  lemma DevSlotFree(c: Config, copyHead: nat, computeHead: nat, j: nat, k: nat)
    requires c.ring > 0 && OrderInv(c, copyHead, computeHead) && copyHead == CopyPos(c, j)
    requires k < j && Slot(k, c.ring) == Slot(j, c.ring)
    ensures computeHead > 2 * k + 1
  {
    SlotApart(k, j, c.ring);
  }

  lemma MoveByte(c: Config, copy: Queue<CopyOp>, compute: Queue<ComputeOp>, dev: map<(nat, nat), int>, j: nat, i: nat)
    requires Valid(c) && OrderInv(c, copy.head, compute.head) && copy.head == CopyPos(c, j)
    requires DevInv(c, copy, compute, dev)
    ensures DevInv(c, copy.(touched := copy.touched + {i}), compute, dev[(Slot(j, c.ring), i) := c.payload(j, i)])
  {
    var copy' := copy.(touched := copy.touched + {i});
    forall k: nat, u: nat | Moved(c, copy', k, u) && !Eaten(compute, k, u) && (k != j || u != i)
      ensures Moved(c, copy, k, u) && (Slot(k, c.ring) != Slot(j, c.ring) || u != i)
    {
      if Slot(k, c.ring) == Slot(j, c.ring) && u == i {
        DevSlotFree(c, copy.head, compute.head, j, k);
        assert false;
      }
    }
  }

  lemma CopyBytes(c: Config, s: State, i: nat)
    requires Valid(c) && Enabled(c, s, CopyByte(i)) && QueuesInv(c, s) && BytesInv(c, s)
    ensures BytesInv(c, Next(c, s, CopyByte(i)))
  {
    var j := s.copy.Running().job;
    assert CopyOpAt(c, s.copy.Running(), s.copy.head);
    assert Filled(s.h, j, i);
    MoveByte(c, s.copy, s.compute, s.m.dev, j, i);
  }

  /** A consumer finds every byte of its own job. */
  lemma ConsumerSees(c: Config, s: State, i: nat)
    requires Valid(c) && Enabled(c, s, ComputeByte(i)) && QueuesInv(c, s) && BytesInv(c, s)
    ensures var j := s.compute.Running().job; Byte(s.m.dev, (Slot(j, c.ring), i)) == c.payload(j, i)
  {
    var j := s.compute.Running().job;
    assert ComputeOpAt(c, s.compute.Running(), s.compute.head);
    assert Moved(c, s.copy, j, i) && !Eaten(s.compute, j, i);
  }

  lemma ConsumeBytes(c: Config, s: State, i: nat)
    requires Valid(c) && Enabled(c, s, ComputeByte(i)) && Inv(c, s)
    ensures BytesInv(c, Next(c, s, ComputeByte(i)))
  {
    var t := Next(c, s, ComputeByte(i));
    var j := s.compute.Running().job;
    assert ComputeOpAt(c, s.compute.Running(), s.compute.head);
    ConsumerSees(c, s, i);
    forall k: nat, u: nat | Moved(c, t.copy, k, u) && u < c.bytes && !Eaten(t.compute, k, u)
      ensures Byte(t.m.dev, (Slot(k, c.ring), u)) == c.payload(k, u)
    {
      assert !Eaten(s.compute, k, u);
      if Slot(k, c.ring) == Slot(j, c.ring) && k > j {
        SlotApart(j, k, c.ring);
      }
    }
  }

  lemma CopyOrder(c: Config, op: CopyOp, copyHead: nat, computeHead: nat)
    requires c.ring > 0 && CopyOpAt(c, op, copyHead) && OrderInv(c, copyHead, computeHead)
    requires op.Fence? ==> computeHead > op.on
    ensures OrderInv(c, copyHead + 1, computeHead)
  {
    forall j: nat | j >= c.ring && copyHead + 1 >= CopyPos(c, j)
      ensures computeHead > 2 * (j - c.ring) + 1
    {
      if copyHead < CopyPos(c, j) {
        assert op.Fence? && op.job == j;
      }
    }
  }

  lemma CopyMoved(c: Config, q: Queue<CopyOp>, k: nat, i: nat)
    requires q.Busy() && CopyOpAt(c, q.Running(), q.head) && i < c.bytes
    requires q.Running().Copy? ==> Covers(q.touched, c.bytes)
    requires Moved(c, q.Pop(), k, i)
    ensures Moved(c, q, k, i)
  {
  }

  lemma CopyRetires(c: Config, s: State)
    requires Valid(c) && Enabled(c, s, CopyRetire) && QueuesInv(c, s) && BytesInv(c, s)
    ensures BytesInv(c, Next(c, s, CopyRetire))
  {
    var op := s.copy.Running();
    assert CopyOpAt(c, op, s.copy.head);
    CopyOrder(c, op, s.copy.head, s.compute.head);
    assert DevInv(c, s.copy.Pop(), s.compute, s.m.dev) by {
      forall k: nat, i: nat | Moved(c, s.copy.Pop(), k, i) && i < c.bytes
        ensures Moved(c, s.copy, k, i)
      {
        CopyMoved(c, s.copy, k, i);
      }
    }
  }

  lemma ComputeOrder(c: Config, op: ComputeOp, copyHead: nat, computeHead: nat)
    requires c.ring > 0 && ComputeOpAt(c, op, computeHead) && OrderInv(c, copyHead, computeHead)
    requires op.Await? ==> copyHead > op.on
    ensures OrderInv(c, copyHead, computeHead + 1)
  {
  }

  lemma ComputeEaten(c: Config, q: Queue<ComputeOp>, k: nat, i: nat)
    requires q.Busy() && ComputeOpAt(c, q.Running(), q.head)
    requires !q.Running().Consume? ==> q.touched == {}
    requires Eaten(q, k, i)
    ensures Eaten(q.Pop(), k, i)
  {
  }

  lemma ComputeRetires(c: Config, s: State)
    requires Valid(c) && Enabled(c, s, ComputeRetire) && QueuesInv(c, s) && BytesInv(c, s)
    ensures BytesInv(c, Next(c, s, ComputeRetire))
  {
    assert ComputeOpAt(c, s.compute.Running(), s.compute.head);
    ComputeOrder(c, s.compute.Running(), s.copy.head, s.compute.head);
    assert DevInv(c, s.copy, s.compute.Pop(), s.m.dev) by {
      forall k: nat, i: nat | Eaten(s.compute, k, i)
        ensures Eaten(s.compute.Pop(), k, i)
      {
        ComputeEaten(c, s.compute, k, i);
      }
    }
  }

  /** An exception of the host changes nothing that the queues rely on. */
  lemma ExpireInv(c: Config, s: State)
    requires Valid(c) && Enabled(c, s, Expire) && Inv(c, s)
    ensures Inv(c, Next(c, s, Expire))
  {
    var t := Next(c, s, Expire);
    ExpireMarkers(c, s.h, s.copy.head, s.m);
    ExpireBytes(c, s.h, s.copy.head, s.m.host);
    assert DevInv(c, t.copy, t.compute, t.m.dev);
  }

  lemma ExpireMarkers(c: Config, h: Host, copyHead: nat, m: Memory)
    requires Valid(c) && h.pc.Polling? && MarkersInv(c, h, copyHead, m)
    ensures MarkersInv(c, h.(pc := TimedOut), copyHead, m)
  {
    assert ValuesInv(c, h.(pc := TimedOut), m);
  }

  lemma ExpireBytes(c: Config, h: Host, copyHead: nat, host: map<(nat, nat), int>)
    requires Valid(c) && h.pc.Polling? && HostInv(c, h, copyHead, host)
    ensures HostInv(c, h.(pc := TimedOut), copyHead, host)
  {
    forall j: nat, i: nat
      ensures Filled(h.(pc := TimedOut), j, i) == Filled(h, j, i)
    {
    }
  }

  lemma StepInv(c: Config, s: State, a: Act)
    requires Valid(c) && Inv(c, s) && Enabled(c, s, a)
    ensures Inv(c, Next(c, s, a))
  {
    match a
    case HostStep =>
      HostQueues(c, s);
      HostUsed(c, s);
      HostMarkers(c, s);
      HostBytes(c, s);
    case Expire => ExpireInv(c, s);
    case HostByte(i) =>
      FillFrame(c, s, i);
      FillBytes(c, s, i);
    case CopyByte(i) => CopyBytes(c, s, i);
    case CopyRetire =>
      CopyMarkers(c, s);
      CopyRetires(c, s);
    case ComputeByte(i) => ConsumeBytes(c, s, i);
    case ComputeRetire => ComputeRetires(c, s);
  }

  lemma {:induction false} RunInv(c: Config, s: State, acts: seq<Act>, t: State)
    requires Valid(c) && Inv(c, s) && Runs(c, s, acts, t)
    ensures Inv(c, t)
    decreases |acts|
  {
    if acts != [] {
      StepInv(c, s, acts[0]);
      RunInv(c, Next(c, s, acts[0]), acts[1..], t);
    }
  }

  lemma ReachableInv(c: Config, s: State)
    requires Valid(c) && Reachable(c, s)
    ensures Inv(c, s)
  {
    var acts :| Runs(c, START, acts, s);
    StartInv(c);
    RunInv(c, START, acts, s);
  }

  // ---------------------------------------------------------------------------------------------
  // What every schedule keeps
  // ---------------------------------------------------------------------------------------------

  /** The consumer of job `j` sees exactly the bytes of job `j`, and so no error is ever counted. */
  lemma ConsumersSeeTheirJob(c: Config, s: State)
    requires Valid(c) && Reachable(c, s)
    ensures s.m.errors == 0
    ensures forall i :: Enabled(c, s, ComputeByte(i)) ==>
              var j := s.compute.Running().job; Byte(s.m.dev, (Slot(j, c.ring), i)) == c.payload(j, i)
  {
    ReachableInv(c, s);
    forall i | Enabled(c, s, ComputeByte(i))
      ensures var j := s.compute.Running().job; Byte(s.m.dev, (Slot(j, c.ring), i)) == c.payload(j, i)
    {
      ConsumerSees(c, s, i);
    }
  }

  /** While the host fills a slot, no submitted copy still has to read it. */
  lemma HostSlotSafe(c: Config, s: State, i: nat)
    requires Valid(c) && Reachable(c, s) && Enabled(c, s, HostByte(i))
    ensures forall p :: s.copy.head <= p < |s.copy.log| && s.copy.log[p].Copy?
              ==> Slot(s.copy.log[p].job, c.ring) != Slot(s.h.job, c.ring)
  {
    ReachableInv(c, s);
    forall p | s.copy.head <= p < |s.copy.log| && s.copy.log[p].Copy?
      ensures Slot(s.copy.log[p].job, c.ring) != Slot(s.h.job, c.ring)
    {
      assert CopyOpAt(c, s.copy.log[p], p);
      if Slot(s.copy.log[p].job, c.ring) == Slot(s.h.job, c.ring) {
        HostSlotFree(c, s.h, s.copy.head, s.m, s.copy.log[p].job);
        assert false;
      }
    }
  }

  /** While a copy writes a device slot, the only consumer of that slot still to run is its own. */
  lemma DeviceSlotSafe(c: Config, s: State, i: nat)
    requires Valid(c) && Reachable(c, s) && Enabled(c, s, CopyByte(i))
    ensures forall p :: s.compute.head <= p < |s.compute.log| && s.compute.log[p].Consume?
              && Slot(s.compute.log[p].job, c.ring) == Slot(s.copy.Running().job, c.ring)
              ==> s.compute.log[p].job == s.copy.Running().job
  {
    ReachableInv(c, s);
    var j := s.copy.Running().job;
    assert CopyOpAt(c, s.copy.Running(), s.copy.head);
    forall p | s.compute.head <= p < |s.compute.log| && s.compute.log[p].Consume?
      && Slot(s.compute.log[p].job, c.ring) == Slot(j, c.ring)
      ensures s.compute.log[p].job == j
    {
      var k := s.compute.log[p].job;
      assert ComputeOpAt(c, s.compute.log[p], p);
      if k < j {
        DevSlotFree(c, s.copy.head, s.compute.head, j, k);
        assert false;
      } else if k > j {
        SlotApart(j, k, c.ring);
        assert false;
      }
    }
  }

  /** While the host writes a marker source cell, no submitted marker still has to read it. */
  lemma CellSafe(c: Config, s: State)
    requires Valid(c) && Reachable(c, s) && s.h.pc.Valuing?
    ensures forall p :: s.copy.head <= p < |s.copy.log| && s.copy.log[p].Mark?
              ==> Slot(s.copy.log[p].job + 1, c.cells) != Slot(s.h.job + 1, c.cells)
  {
    ReachableInv(c, s);
    forall p | s.copy.head <= p < |s.copy.log| && s.copy.log[p].Mark?
      ensures Slot(s.copy.log[p].job + 1, c.cells) != Slot(s.h.job + 1, c.cells)
    {
      assert CopyOpAt(c, s.copy.log[p], p);
      CellFree(c, s.h, s.copy.head, s.m, s.copy.log[p].job);
    }
  }

  lemma CellFree(c: Config, h: Host, copyHead: nat, m: Memory, k: nat)
    requires Valid(c) && MarkersInv(c, h, copyHead, m) && h.pc.Valuing? && copyHead <= CopyPos(c, k) + 1 && k < h.job
    ensures Slot(k + 1, c.cells) != Slot(h.job + 1, c.cells)
  {
    if Slot(k + 1, c.cells) == Slot(h.job + 1, c.cells) {
      SlotApart(k + 1, h.job + 1, c.cells);
      assert false;
    }
  }

  ghost predicate Finished(c: Config, s: State) {
    s.h.pc.Polling? && s.h.job == c.jobs && !s.copy.Busy() && !s.compute.Busy()
  }

  /** When both queues have drained, every marker equals the last sequence of its slot. */
  lemma FinalMarkers(c: Config, s: State)
    requires Valid(c) && Reachable(c, s) && Finished(c, s)
    ensures s.m.done == s.h.wanted
    ensures forall j: nat :: j < c.jobs <= j + c.ring ==> At(s.m.done, Slot(j, c.ring)) == j + 1
  {
    ReachableInv(c, s);
    forall j: nat | j < c.jobs <= j + c.ring
      ensures At(s.m.done, Slot(j, c.ring)) == j + 1
    {
      LastLap(c.ring, c.jobs, j);
    }
  }

  lemma {:induction false} LastLap(ring: nat, n: nat, j: nat)
    requires ring > 0 && j < n <= j + ring
    ensures At(Laps(ring, n), Slot(j, ring)) == j + 1
  {
    if j + 1 < n {
      LastLap(ring, n - 1, j);
      if Slot(j, ring) == Slot(n - 1, ring) {
        SlotApart(j, n - 1, ring);
      }
    }
  }

  /** The exception has been thrown, and the queues have done what was submitted before. */
  ghost predicate Aborted(s: State) {
    s.h.pc.TimedOut? && !s.copy.Busy() && !s.compute.Busy()
  }

  /** Something can step without the clock. */
  ghost predicate CanStep(c: Config, s: State)
    requires WellFormed(c)
  {
    exists a :: a != Expire && Enabled(c, s, a)
  }

  lemma ComputeCanStep(c: Config, s: State)
    requires Valid(c) && s.compute.Busy()
    requires s.compute.Running().Await? ==> s.copy.head > s.compute.Running().on
    ensures CanStep(c, s)
  {
    if i: nat :| s.compute.Running().Consume? && i < c.bytes && i !in s.compute.touched {
      assert Enabled(c, s, ComputeByte(i));
    } else {
      assert Enabled(c, s, ComputeRetire);
    }
  }

  /** A fence that still waits leaves the compute queue something it can do. */
  lemma FenceCanStep(c: Config, s: State)
    requires Valid(c) && QueuesInv(c, s) && s.copy.Busy()
    requires s.copy.Running().Fence? && s.compute.head <= s.copy.Running().on
    ensures CanStep(c, s)
  {
    var j := s.copy.Running().job;
    assert CopyOpAt(c, s.copy.Running(), s.copy.head);
    assert j <= s.h.job;
    assert ComputeOpAt(c, s.compute.Running(), s.compute.head);
    ComputeCanStep(c, s);
  }

  lemma CopyCanStep(c: Config, s: State)
    requires Valid(c) && QueuesInv(c, s) && s.copy.Busy()
    ensures CanStep(c, s)
  {
    var op := s.copy.Running();
    if i: nat :| op.Copy? && i < c.bytes && i !in s.copy.touched {
      assert Enabled(c, s, CopyByte(i));
    } else if op.Fence? && s.compute.head <= op.on {
      FenceCanStep(c, s);
    } else {
      assert Enabled(c, s, CopyRetire);
    }
  }

  lemma HostCanStep(c: Config, s: State)
    requires Valid(c) && QueuesInv(c, s) && MarkersInv(c, s.h, s.copy.head, s.m) && !s.copy.Busy()
    ensures CanStep(c, s) || (s.h.pc.Polling? && s.h.job == c.jobs) || s.h.pc.TimedOut?
  {
    if i: nat :| s.h.pc.Filling? && i < c.bytes && i !in s.h.filled {
      assert Enabled(c, s, HostByte(i));
    } else if s.h.pc.Polling? {
      assert s.m.marks == s.h.job;
      assert s.h.job < c.jobs ==> Enabled(c, s, HostStep);
    } else if !s.h.pc.TimedOut? {
      assert Enabled(c, s, HostStep);
    }
  }

  lemma AloneCanStep(c: Config, s: State)
    requires Valid(c) && QueuesInv(c, s) && !s.copy.Busy() && s.compute.Busy()
    ensures CanStep(c, s)
  {
    assert ComputeOpAt(c, s.compute.Running(), s.compute.head);
    ComputeCanStep(c, s);
  }

  lemma InvCanStep(c: Config, s: State)
    requires Valid(c) && QueuesInv(c, s) && MarkersInv(c, s.h, s.copy.head, s.m)
    ensures CanStep(c, s) || Finished(c, s) || Aborted(s)
  {
    if s.copy.Busy() {
      CopyCanStep(c, s);
    } else if s.compute.Busy() {
      AloneCanStep(c, s);
    } else {
      HostCanStep(c, s);
    }
  }

  /** The polling host, the fences and the awaits never wait for each other in a circle: unless the clock
      has run out, something can step, or all is done. */
  lemma NoDeadlock(c: Config, s: State)
    requires Valid(c) && Reachable(c, s)
    ensures CanStep(c, s) || Finished(c, s) || Aborted(s)
  {
    ReachableInv(c, s);
    InvCanStep(c, s);
  }

  /** `n` operations at the price of one. */
  function Times(price: nat, n: nat): nat {
    if n == 0 then 0 else Times(price, n - 1) + price
  }

  lemma {:induction false} TimesGrows(price: nat, n: nat, n': nat)
    requires n <= n'
    ensures Times(price, n) <= Times(price, n')
  {
    if n < n' {
      TimesGrows(price, n, n' - 1);
    }
  }

  function HostSpent(c: Config, h: Host): nat {
    Times(c.bytes + 9, h.job)
    + match h.pc
      case Polling => 0
      case Filling => 1 + |h.filled|
      case Fencing => c.bytes + 2
      case Copying => c.bytes + 3
      case Valuing => c.bytes + 4
      case Marking => c.bytes + 5
      case Publishing => c.bytes + 6
      case Awaiting => c.bytes + 7
      case Consuming => c.bytes + 8
      case TimedOut => 1
  }

  function QueueSpent<Op>(c: Config, q: Queue<Op>): nat {
    Times(c.bytes + 1, q.head) + |q.touched|
  }

  function Spent(c: Config, s: State): nat {
    HostSpent(c, s.h) + QueueSpent(c, s.copy) + QueueSpent(c, s.compute)
  }

  /** A bound on the length of every schedule. */
  function Bound(c: Config): nat {
    Times(c.bytes + 9, c.jobs) + Times(c.bytes + 1, CopyBase(c, c.jobs)) + Times(c.bytes + 1, 2 * c.jobs)
  }

  lemma FewTouched(c: Config, s: State)
    requires TouchedInv(c, s)
    ensures |s.h.filled| <= c.bytes && |s.copy.touched| <= c.bytes && |s.compute.touched| <= c.bytes
  {
    FewBelow(s.h.filled, c.bytes);
    FewBelow(s.copy.touched, c.bytes);
    FewBelow(s.compute.touched, c.bytes);
  }

  lemma StepSpends(c: Config, s: State, a: Act)
    requires Valid(c) && TouchedInv(c, s) && Enabled(c, s, a)
    ensures Spent(c, Next(c, s, a)) > Spent(c, s)
  {
    FewTouched(c, s);
    match a
    case HostStep => HostSpends(c, s);
    case Expire =>
    case HostByte(i) => assert |s.h.filled + {i}| == |s.h.filled| + 1;
    case CopyByte(i) => assert |s.copy.touched + {i}| == |s.copy.touched| + 1;
    case CopyRetire =>
    case ComputeByte(i) => assert |s.compute.touched + {i}| == |s.compute.touched| + 1;
    case ComputeRetire =>
  }

  lemma HostSpends(c: Config, s: State)
    requires Valid(c) && Enabled(c, s, HostStep) && |s.h.filled| <= c.bytes
    ensures HostSpent(c, HostNext(c, s.h, |s.compute.log|)) > HostSpent(c, s.h)
  {
  }

  lemma {:induction false} RunSpends(c: Config, s: State, acts: seq<Act>, t: State)
    requires Valid(c) && Inv(c, s) && Runs(c, s, acts, t)
    ensures Spent(c, s) + |acts| <= Spent(c, t)
    decreases |acts|
  {
    if acts != [] {
      StepInv(c, s, acts[0]);
      StepSpends(c, s, acts[0]);
      RunSpends(c, Next(c, s, acts[0]), acts[1..], t);
    }
  }

  lemma QueueWithinBound<Op>(c: Config, q: Queue<Op>, n: nat)
    requires q.head <= |q.log| <= n && |q.touched| <= c.bytes && (!q.Busy() ==> q.touched == {})
    ensures QueueSpent(c, q) <= Times(c.bytes + 1, n)
  {
    TimesGrows(c.bytes + 1, if q.Busy() then q.head + 1 else q.head, n);
  }

  lemma HostWithinBound(c: Config, h: Host)
    requires |h.filled| <= c.bytes && h.job <= c.jobs && (h.job == c.jobs ==> h.pc.Polling?)
    ensures HostSpent(c, h) <= Times(c.bytes + 9, c.jobs)
  {
    TimesGrows(c.bytes + 9, if h.pc.Polling? then h.job else h.job + 1, c.jobs);
  }

  lemma SpentWithinBound(c: Config, s: State)
    requires QueuesInv(c, s) && TouchedInv(c, s)
    ensures Spent(c, s) <= Bound(c)
  {
    FewTouched(c, s);
    HostWithinBound(c, s.h);
    QueueWithinBound(c, s.copy, CopyBase(c, c.jobs));
    QueueWithinBound(c, s.compute, 2 * c.jobs);
  }

  lemma {:induction false} InTime(c: Config, s: State, acts: seq<Act>, t: State)
    requires Valid(c) && Runs(c, s, acts, t) && !s.h.pc.TimedOut? && Expire !in acts
    ensures !t.h.pc.TimedOut?
    decreases |acts|
  {
    if acts != [] {
      assert acts[0] in acts && forall a :: a in acts[1..] ==> a in acts;
      InTime(c, Next(c, s, acts[0]), acts[1..], t);
    }
  }

  /** Without any fairness, no schedule is longer than `Bound`. One that cannot go on has finished every
      job, if the clock has not run out; if it has, the queues have done what was submitted. */
  lemma RunsEnd(c: Config, acts: seq<Act>, s: State)
    requires Valid(c) && Runs(c, START, acts, s)
    ensures |acts| <= Bound(c)
    ensures !CanStep(c, s) ==> Finished(c, s) || Aborted(s)
    ensures !CanStep(c, s) && Expire !in acts ==> Finished(c, s)
  {
    StartInv(c);
    RunInv(c, START, acts, s);
    RunSpends(c, START, acts, s);
    SpentWithinBound(c, s);
    InvCanStep(c, s);
    if Expire !in acts {
      InTime(c, START, acts, s);
    }
  }

  // ---------------------------------------------------------------------------------------------
  // The fence, the poll and the cells are needed
  // ---------------------------------------------------------------------------------------------

  /** No consumer ever counts an error, and at the end every marker is the number that was announced. */
  ghost predicate Correct(c: Config) {
    && WellFormed(c)
    && forall s :: Reachable(c, s) ==> s.m.errors == 0 && (Finished(c, s) ==> s.m.done == s.h.wanted)
  }

  lemma ValidIsCorrect(c: Config)
    requires Valid(c)
    ensures Correct(c)
  {
    forall s | Reachable(c, s)
      ensures s.m.errors == 0 && (Finished(c, s) ==> s.m.done == s.h.wanted)
    {
      ConsumersSeeTheirJob(c, s);
      if Finished(c, s) {
        FinalMarkers(c, s);
      }
    }
  }

  lemma {:induction false} Extend(c: Config, s: State, acts: seq<Act>, t: State, a: Act)
    requires WellFormed(c) && Runs(c, s, acts, t) && Enabled(c, t, a)
    ensures Runs(c, s, acts + [a], Next(c, t, a))
    decreases |acts|
  {
    if acts == [] {
      assert Runs(c, Next(c, s, a), [], Next(c, t, a));
      assert (acts + [a])[1..] == [];
    } else {
      Extend(c, Next(c, s, acts[0]), acts[1..], t, a);
      assert (acts + [a])[1..] == acts[1..] + [a];
    }
  }

  lemma Move(c: Config, s: State, a: Act) returns (t: State)
    requires WellFormed(c) && Reachable(c, s) && Enabled(c, s, a)
    ensures Reachable(c, t) && t == Next(c, s, a)
  {
    var acts :| Runs(c, START, acts, s);
    Extend(c, START, acts, s, a);
    t := Next(c, s, a);
  }

  lemma AtStart(c: Config)
    requires WellFormed(c)
    ensures Reachable(c, START)
  {
    assert Runs(c, START, [], START);
  }

  /** The host fills the slot of its job, of one byte. */
  lemma HostFills(c: Config, s: State) returns (t: State)
    requires WellFormed(c) && Reachable(c, s) && c.bytes == 1
    requires s.h.pc.Polling? && s.h.job < c.jobs && (c.poll ==> Marked(c, s))
    ensures Reachable(c, t)
    ensures t == s.(h := s.h.(pc := Filling, filled := {0}),
                    m := s.m.(host := s.m.host[(Slot(s.h.job, c.ring), 0) := c.payload(s.h.job, 0)]))
  {
    t := Move(c, s, HostStep);
    t := Move(c, t, HostByte(0));
    assert {} + {0} == {0};
  }

  /** What the host has after a job that it has filled. */
  function JobDone(c: Config, h: Host, computeLog: nat): Host
    requires WellFormed(c)
  {
    h.(pc := Polling, job := h.job + 1, wanted := h.wanted[Slot(h.job, c.ring) := h.job + 1],
       used := h.used[Slot(h.job, c.ring) := computeLog + 1])
  }

  /** It submits the job, without a fence. */
  lemma HostSubmits(c: Config, s: State) returns (t: State)
    requires WellFormed(c) && Reachable(c, s) && c.bytes == 1
    requires s.h.pc.Filling? && s.h.filled == {0} && (s.h.job < c.ring || !c.fence)
    ensures Reachable(c, t)
    ensures var j := s.h.job;
      t == State(JobDone(c, s.h, |s.compute.log|),
                 s.copy.(log := s.copy.log + [Copy(j), Mark(j), Publish(j)]),
                 s.compute.(log := s.compute.log + [Await(j, |s.copy.log| + 2), Consume(j)]),
                 HostMemory(c, s.h.(pc := Valuing), s.m))
  {
    t := SubmitsCopy(c, s);
    t := SubmitsConsumer(c, t);
  }

  lemma SubmitsCopy(c: Config, s: State) returns (t: State)
    requires WellFormed(c) && Reachable(c, s) && c.bytes == 1
    requires s.h.pc.Filling? && s.h.filled == {0} && (s.h.job < c.ring || !c.fence)
    ensures Reachable(c, t)
    ensures var j := s.h.job;
      t == State(s.h.(pc := Awaiting, wanted := s.h.wanted[Slot(j, c.ring) := j + 1]),
                 s.copy.(log := s.copy.log + [Copy(j), Mark(j), Publish(j)]), s.compute, HostMemory(c, s.h.(pc := Valuing), s.m))
  {
    var j := s.h.job;
    t := Move(c, s, HostStep);
    t := Move(c, t, HostStep);
    t := Move(c, t, HostStep);
    t := Move(c, t, HostStep);
    t := Move(c, t, HostStep);
    assert t.copy.log == s.copy.log + [Copy(j), Mark(j), Publish(j)];
  }

  lemma SubmitsConsumer(c: Config, s: State) returns (t: State)
    requires WellFormed(c) && Reachable(c, s) && s.h.pc.Awaiting? && |s.copy.log| > 0
    ensures Reachable(c, t)
    ensures var j := s.h.job;
      t == s.(h := s.h.(pc := Polling, job := j + 1, used := s.h.used[Slot(j, c.ring) := |s.compute.log| + 1]),
              compute := s.compute.(log := s.compute.log + [Await(j, |s.copy.log| - 1), Consume(j)]))
  {
    t := Move(c, s, HostStep);
    t := Move(c, t, HostStep);
    assert t.compute.log == s.compute.log + [Await(s.h.job, |s.copy.log| - 1), Consume(s.h.job)];
  }

  /** The next three operations of the copy queue are those of a job. */
  predicate CopiesNext(q: Queue<CopyOp>, j: nat) {
    q.touched == {} && q.head + 3 <= |q.log| && q.log[q.head] == Copy(j) && q.log[q.head + 1] == Mark(j) && q.log[q.head + 2] == Publish(j)
  }

  /** The memory after the copy of a job and its marker. */
  function Copied(c: Config, j: nat, m: Memory): Memory
    requires WellFormed(c)
  {
    var k := (Slot(j, c.ring), 0);
    CopyMemory(c, Mark(j), m.(dev := m.dev[k := Byte(m.host, k)]))
  }

  lemma CopyRuns(c: Config, s: State, j: nat) returns (t: State)
    requires WellFormed(c) && Reachable(c, s) && c.bytes == 1 && CopiesNext(s.copy, j)
    ensures Reachable(c, t) && t == s.(copy := s.copy.(head := s.copy.head + 3), m := Copied(c, j, s.m))
  {
    t := Move(c, s, CopyByte(0));
    t := Move(c, t, CopyRetire);
    t := Move(c, t, CopyRetire);
    t := Move(c, t, CopyRetire);
  }

  /** The next two operations of the compute queue are those of a job, and the copy queue is past it. */
  predicate ConsumesNext(s: State, j: nat, on: nat) {
    && s.compute.touched == {} && s.compute.head + 2 <= |s.compute.log| && s.copy.head > on
    && s.compute.log[s.compute.head] == Await(j, on) && s.compute.log[s.compute.head + 1] == Consume(j)
  }

  lemma ConsumeRuns(c: Config, s: State, j: nat, on: nat) returns (t: State)
    requires WellFormed(c) && Reachable(c, s) && c.bytes == 1 && ConsumesNext(s, j, on)
    ensures Reachable(c, t) && t == s.(compute := s.compute.(head := s.compute.head + 2), m := ConsumeByte(c, j, 0, s.m))
  {
    t := Move(c, s, ComputeRetire);
    t := Move(c, t, ComputeByte(0));
    t := Move(c, t, ComputeRetire);
  }

  /** The operations of the first `n` jobs. */
  function CopyLog(n: nat): (log: seq<CopyOp>)
    ensures |log| == 3 * n
  {
    if n == 0 then [] else CopyLog(n - 1) + [Copy(n - 1), Mark(n - 1), Publish(n - 1)]
  }

  function ComputeLog(n: nat): (log: seq<ComputeOp>)
    ensures |log| == 2 * n
  {
    if n == 0 then [] else ComputeLog(n - 1) + [Await(n - 1, 3 * n - 1), Consume(n - 1)]
  }

  lemma {:induction false} LogsAt(n: nat, j: nat)
    requires j < n
    ensures CopyLog(n)[3 * j] == Copy(j) && CopyLog(n)[3 * j + 1] == Mark(j) && CopyLog(n)[3 * j + 2] == Publish(j)
    ensures ComputeLog(n)[2 * j] == Await(j, 3 * j + 2) && ComputeLog(n)[2 * j + 1] == Consume(j)
  {
    if j < n - 1 {
      LogsAt(n - 1, j);
    }
  }

  /** The host has submitted `n` jobs, and nothing has run. */
  predicate Queued(s: State, n: nat) {
    && s.h.pc.Polling? && s.h.job == n && s.copy == Queue(CopyLog(n), 0, {}) && s.compute == Queue(ComputeLog(n), 0, {})
    && s.m.errors == 0
  }

  /** Without a poll the host can be a whole ring ahead of the copies. */
  lemma {:induction false} HostAhead(c: Config, n: nat) returns (s: State)
    requires WellFormed(c) && c.bytes == 1 && !c.poll && n <= c.ring && n <= c.jobs
    ensures Reachable(c, s) && Queued(s, n)
  {
    if n == 0 {
      AtStart(c);
      s := START;
    } else {
      s := HostAhead(c, n - 1);
      s := HostFills(c, s);
      s := HostSubmits(c, s);
    }
  }

  /** Without the poll the host fills a slot that the first copy still has to read. */
  lemma NoPollFails(ring: nat, cells: nat, fence: bool)
    requires ring > 0 && cells > 0
    ensures exists c :: WellFormed(c) && c.ring == ring && c.cells == cells && c.fence == fence && !c.poll && !Correct(c)
  {
    var c := Config(ring, ring + 1, cells, false, fence, false, 1, (j, i) => j, x => x);
    var s := HostAhead(c, ring);
    LogsAt(ring, 0);
    s := HostFills(c, s);
    assert Slot(ring, ring) == Slot(0, ring) == 0;
    s := CopyRuns(c, s, 0);
    s := ConsumeRuns(c, s, 0, 2);
    assert s.m.errors == 1;
  }

  /** `n` jobs have been submitted and copied, and none has been consumed. */
  predicate CopiedAll(s: State, n: nat) {
    && s.h.pc.Polling? && s.h.job == n && s.copy == Queue(CopyLog(n), 3 * n, {}) && s.compute == Queue(ComputeLog(n), 0, {})
    && s.m.errors == 0 && s.m.done == s.h.wanted
  }

  lemma {:induction false} CopiesAhead(c: Config, n: nat) returns (s: State)
    requires WellFormed(c) && c.bytes == 1 && !c.native && !c.fence && n <= c.jobs
    ensures Reachable(c, s) && CopiedAll(s, n)
    ensures n > 0 ==> Byte(s.m.dev, (Slot(n - 1, c.ring), 0)) == c.payload(n - 1, 0)
  {
    if n == 0 {
      AtStart(c);
      s := START;
    } else {
      s := CopiesAhead(c, n - 1);
      s := HostFills(c, s);
      s := HostSubmits(c, s);
      LogsAt(n, n - 1);
      s := CopyRuns(c, s, n - 1);
    }
  }

  /** Without the fence a copy can overwrite a device slot that the first consumer still has to read. */
  lemma NoFenceFails(ring: nat, cells: nat, poll: bool)
    requires ring > 0 && cells > 0
    ensures exists c :: WellFormed(c) && c.ring == ring && c.cells == cells && !c.fence && c.poll == poll && !Correct(c)
  {
    var c := Config(ring, ring + 1, cells, false, false, poll, 1, (j, i) => j, x => x);
    var s := CopiesAhead(c, ring + 1);
    LogsAt(ring + 1, 0);
    assert Slot(ring, ring) == Slot(0, ring) == 0;
    s := ConsumeRuns(c, s, 0, 2);
    assert s.m.errors == 1;
  }

  // ---------------------------------------------------------------------------------------------
  // Fewer cells than slots
  // ---------------------------------------------------------------------------------------------

  lemma {:induction false} SlotBelow(j: nat, ring: nat)
    requires j < ring
    ensures Slot(j, ring) == j
  {
  }

  /** In the first lap every slot is used once. */
  lemma {:induction false} FirstLap(ring: nat, n: nat, j: nat)
    requires n <= ring && j < ring
    ensures At(Laps(ring, n), j) == if j < n then j + 1 else 0
  {
    if n > 0 {
      FirstLap(ring, n - 1, j);
      SlotBelow(n - 1, ring);
    }
  }

  /** In the first lap the polls pass although nothing has run. */
  lemma {:induction false} FirstLapQueued(c: Config, n: nat) returns (s: State)
    requires WellFormed(c) && c.bytes == 1 && c.native && n <= c.ring && n <= c.jobs
    ensures Reachable(c, s) && Queued(s, n) && s.h.wanted == Laps(c.ring, n) && s.m.done == map[]
    ensures n > 0 ==> At(s.m.values, Slot(n, c.cells)) == n
  {
    if n == 0 {
      AtStart(c);
      s := START;
    } else {
      s := FirstLapQueued(c, n - 1);
      SlotBelow(n - 1, c.ring);
      FirstLap(c.ring, n - 1, n - 1);
      s := HostFills(c, s);
      s := HostSubmits(c, s);
    }
  }

  /** The copy queue has run `n` of the jobs that wait; the first marker is what its cell held by then. */
  lemma {:induction false} MarkersRun(c: Config, was: State, n: nat) returns (s: State)
    requires WellFormed(c) && c.bytes == 1 && c.native && Reachable(c, was) && n <= was.h.job <= c.ring && Queued(was, was.h.job)
    ensures Reachable(c, s) && s.h == was.h && s.compute == was.compute && s.copy == was.copy.(head := 3 * n)
    ensures s.m.values == was.m.values
    ensures n > 0 ==> At(s.m.done, 0) == At(was.m.values, Slot(1, c.cells))
  {
    if n == 0 {
      s := was;
    } else {
      s := MarkersRun(c, was, n - 1);
      LogsAt(was.h.job, n - 1);
      s := CopyRuns(c, s, n - 1);
      SlotBelow(n - 1, c.ring);
    }
  }

  /** The consumers run when all copies have. */
  lemma {:induction false} ConsumersRun(c: Config, was: State, n: nat) returns (s: State)
    requires WellFormed(c) && c.bytes == 1 && Reachable(c, was) && n <= was.h.job
    requires was.compute == Queue(ComputeLog(was.h.job), 0, {}) && was.copy.head == 3 * was.h.job
    ensures Reachable(c, s) && s.h == was.h && s.copy == was.copy && s.compute == was.compute.(head := 2 * n) && s.m.done == was.m.done
  {
    if n == 0 {
      s := was;
    } else {
      s := ConsumersRun(c, was, n - 1);
      LogsAt(was.h.job, n - 1);
      s := ConsumeRuns(c, s, n - 1, 3 * n - 1);
    }
  }

  /** With fewer cells than slots a cell is written again before its first marker is copied, and at the end
      that marker is not what was announced. */
  lemma FewCellsFail(ring: nat, cells: nat, fence: bool, poll: bool)
    requires 0 < cells < ring
    ensures exists c :: WellFormed(c) && c.ring == ring && c.cells == cells && c.fence == fence && c.poll == poll && !Correct(c)
  {
    var n := cells + 1;
    var c := Config(ring, n, cells, true, fence, poll, 1, (j, i) => j, x => x);
    var s := FirstLapQueued(c, n);
    assert Slot(n, cells) == Slot(1, cells);
    s := MarkersRun(c, s, n);
    s := ConsumersRun(c, s, n);
    FirstLap(ring, n, 0);
    assert Finished(c, s) && At(s.m.done, 0) == n && At(s.h.wanted, 0) == 1;
  }

  /** Whatever is copied and however host and queues are scheduled, all is right. */
  ghost predicate AlwaysCorrect(ring: nat, cells: nat, fence: bool, poll: bool) {
    forall c {:trigger Correct(c)} ::
      WellFormed(c) && c.ring == ring && c.cells == cells && c.fence == fence && c.poll == poll ==> Correct(c)
  }

  /** Every schedule of every configuration is right exactly with the fence, the poll, and at least as many
      cells as slots. */
  lemma SafeExactly(ring: nat, cells: nat, fence: bool, poll: bool)
    requires ring > 0 && cells > 0
    ensures AlwaysCorrect(ring, cells, fence, poll) <==> fence && poll && ring <= cells
  {
    if !poll {
      NoPollFails(ring, cells, fence);
    } else if !fence {
      NoFenceFails(ring, cells, poll);
    } else if cells < ring {
      FewCellsFail(ring, cells, fence, poll);
    } else {
      forall c | WellFormed(c) && c.ring == ring && c.cells == cells && c.fence == fence && c.poll == poll
        ensures Correct(c)
      {
        ValidIsCorrect(c);
      }
    }
  }
}
