/**
 * The issue stage of the out-of-order core (`IssueQue` in
 * src/cpu/o3/issue_queue.cc): a queue holds renamed instructions until their
 * sources are ready, keeps the ready ones in oldest-first ready queues, picks at
 * most one per issue port each cycle, and hands the picked ones to the
 * functional units `scheduleToExecDelay` stages later.
 *
 * Instructions (`DynInst`) are records keyed by their sequence number; the
 * queues, lists and issue stages hold sequence numbers. The records themselves
 * belong to the scheduler (module IssueScheduler), which passes them to the
 * queue operations that read or update their flags and takes the updated
 * records back.
 */
module IssueQueue {
  import opened Common
  import opened RfPort

  type SeqNum = nat

  /** The operation class of an instruction; only `FMAMulOp` is singled out here. */
  datatype OpClass = FmaMulOp | Op(id: nat)

  datatype RegClass = IntRegClass | FloatRegClass | OtherRegClass

  /** A renamed register operand (`PhysRegId`): its flat index, whether it has a fixed mapping,
   *  its register class, the number of pinned writes still to complete, and whether it is the
   *  all-ones vector register. */
  datatype PhysReg = PhysReg(flat: nat, fixed: bool, cls: RegClass, pinnedWrites: nat, vecOnes: bool)

  /** What the issue stage reads of a `DynInst` and never changes. */
  datatype InstInfo = InstInfo(
    seqNum: SeqNum, opClass: OpClass, srcs: seq<PhysReg>, dsts: seq<PhysReg>,
    isLoad: bool, isVector: bool, isInteger: bool, isMemRef: bool)

  /** The status flags of a `DynInst` the issue stage reads and writes. `issuePort` (the
   *  `issueportid` field) and `issueQue` (the queue's index) are -1 until set. */
  datatype Status = Status(
    memDepSolved: bool, canceled: bool, issued: bool, inReadyQ: bool, arbFailed: bool,
    squashed: bool, squashedInIQ: bool, canCommit: bool, inIQ: bool,
    issuePort: int, issueQue: int)

  /** An instruction: its fixed part, one ready bit per source, and its status. */
  datatype Inst = Inst(info: InstInfo, srcReady: seq<bool>, status: Status)

  /** One ready bit per source, and a fixed-mapped source is always ready. */
  predicate WellFormed(i: Inst)
  {
    |i.srcReady| == |i.info.srcs| && forall k :: 0 <= k < |i.info.srcs| && i.info.srcs[k].fixed ==> i.srcReady[k]
  }

  /** `readyToIssue`: every source is ready. */
  predicate ReadyToIssue(i: Inst)
  {
    forall k :: 0 <= k < |i.srcReady| ==> i.srcReady[k]
  }

  /** An instruction as the scheduler names it across queues: (queue index, sequence number). */
  type InstRef = (nat, SeqNum)

  /** A dependency-list entry: (source index, consumer). */
  type Edge = (nat, SeqNum)

  /** The dependency list of register r (`subDepGraph[r]`). */
  function Edges(g: map<nat, seq<Edge>>, r: nat): seq<Edge>
  {
    if r in g then g[r] else []
  }

  // ---------------------------------------------------------------------
  // Ready queues

  /**
   * A ready queue (`boost::heap::priority_queue` ordered by `select_policy`,
   * which ranks a below b when a's sequence number is larger) is kept as the
   * list of its sequence numbers in ascending order: its top is the oldest.
   */
  predicate Sorted(q: seq<SeqNum>)
  {
    forall i, j :: 0 <= i < j < |q| ==> q[i] <= q[j]
  }

  /** `ReadyQue::push`. */
  function Enqueue(q: seq<SeqNum>, x: SeqNum): (r: seq<SeqNum>)
    requires Sorted(q)
    ensures Sorted(r) && multiset(r) == multiset(q) + multiset{x}
    ensures |r| == |q| + 1
  {
    if q == [] || x <= q[0] then [x] + q
    else
      var rest := Enqueue(q[1..], x);
      EnqueueHead(q, x, rest);
      [q[0]] + rest
  }

  /** The step of `Enqueue` past the head of q: the head goes before the rest. */
  lemma EnqueueHead(q: seq<SeqNum>, x: SeqNum, rest: seq<SeqNum>)
    requires Sorted(q) && q != [] && q[0] < x
    requires Sorted(rest) && multiset(rest) == multiset(q[1..]) + multiset{x}
    ensures Sorted([q[0]] + rest) && multiset(q) == multiset{q[0]} + multiset(q[1..])
  {
    assert q == [q[0]] + q[1..];
    forall j | 0 <= j < |rest| ensures q[0] <= rest[j] {
      assert rest[j] in multiset(rest);
      if rest[j] != x {
        assert rest[j] in multiset(q[1..]);
        var k :| 0 <= k < |q[1..]| && q[1..][k] == rest[j];
        assert q[k + 1] == rest[j];
      }
    }
  }

  /** Every target of `readyQclassify` is a ready queue, and every ready queue is ordered. */
  predicate QueuesOk(qs: seq<seq<SeqNum>>, classify: map<OpClass, nat>)
  {
    && (forall c :: c in classify ==> classify[c] < |qs|)
    && (forall j :: 0 <= j < |qs| ==> Sorted(qs[j]))
  }

  /** Pushes x onto the ready queue of class c, when the class has one. */
  function PushClass(qs: seq<seq<SeqNum>>, classify: map<OpClass, nat>, c: OpClass, x: SeqNum): (r: seq<seq<SeqNum>>)
    requires QueuesOk(qs, classify)
    ensures QueuesOk(r, classify) && |r| == |qs|
    ensures forall j :: 0 <= j < |qs| ==> multiset(r[j]) == multiset(qs[j]) + (if c in classify && j == classify[c] then multiset{x} else multiset{})
  {
    if c in classify then qs[classify[c] := Enqueue(qs[classify[c]], x)] else qs
  }

  /** May enter a ready queue: ready to issue and, for a memory reference, its memory dependence solved. */
  predicate Admissible(i: Inst)
  {
    ReadyToIssue(i) && (!i.info.isMemRef || i.status.memDepSolved)
  }

  /** Whether `addIfReady` pushes the instruction: admissible, not yet in a ready queue, and
   *  of an op class that has one. */
  predicate Pushes(rec: Inst, classify: map<OpClass, nat>)
  {
    Admissible(rec) && !rec.status.inReadyQ && rec.info.opClass in classify
  }

  /**
   * `addIfReady`: an admissible instruction has its cancel flag cleared and, unless it
   * is already marked as in a ready queue, is marked and pushed to the ready queue of
   * its op class.
   */
  function AddIfReadyQ(rec: Inst, qs: seq<seq<SeqNum>>, classify: map<OpClass, nat>): (r: (Inst, seq<seq<SeqNum>>))
    requires QueuesOk(qs, classify)
    ensures QueuesOk(r.1, classify) && |r.1| == |qs|
    ensures r.0.info == rec.info && r.0.srcReady == rec.srcReady
    ensures r.0.status == rec.status.(canceled := r.0.status.canceled, inReadyQ := r.0.status.inReadyQ)
  {
    if !Admissible(rec) then (rec, qs)
    else if rec.status.inReadyQ || rec.info.opClass !in classify then (rec.(status := rec.status.(canceled := false)), qs)
    else
      var q := classify[rec.info.opClass];
      (rec.(status := rec.status.(canceled := false, inReadyQ := true)), qs[q := Enqueue(qs[q], rec.info.seqNum)])
  }

  /** What `addIfReady` promises: an admissible instruction is no longer canceled and is marked
   *  as in a ready queue (when its op class has one); the instruction is added to its class's
   *  queue exactly when it was not marked before; a non-admissible one changes nothing. */
  lemma AddIfReadyQPushes(rec: Inst, qs: seq<seq<SeqNum>>, classify: map<OpClass, nat>)
    requires QueuesOk(qs, classify)
    ensures var r := AddIfReadyQ(rec, qs, classify);
      && (!Admissible(rec) ==> r == (rec, qs))
      && (Admissible(rec) ==> !r.0.status.canceled && r.0.status == rec.status.(canceled := false, inReadyQ := r.0.status.inReadyQ))
      && (Admissible(rec) && rec.info.opClass in classify ==> r.0.status.inReadyQ)
      && (forall j :: 0 <= j < |qs| ==>
           multiset(r.1[j]) == multiset(qs[j]) +
             (if Pushes(rec, classify) && classify[rec.info.opClass] == j then multiset{rec.info.seqNum} else multiset{}))
  {
  }

  /** How many replayed instructions the end of `issueToFu` sends: counting on from `size`
   *  while below `outports`, at most the n that wait. */
  function DrainCount(size: nat, outports: nat, n: nat): (m: nat)
    ensures m <= n && (size < outports ==> m == n || size + m == outports) && (size >= outports ==> m == 0)
  {
    if size >= outports then 0 else if outports - size < n then outports - size else n
  }

  // ---------------------------------------------------------------------
  // Issue stages

  const StreamSlots: nat := 8

  /** `IssueStream`: a fixed array of 8 slots used as a stack; a slot is emptied
   *  (`nullptr`) when its instruction is squashed or canceled. */
  datatype IssueStream = IssueStream(size: nat, insts: seq<Option<SeqNum>>)

  predicate StreamOk(s: IssueStream)
  {
    |s.insts| == StreamSlots && s.size <= StreamSlots
  }

  /** The slots below `size`, oldest push first. */
  function Live(s: IssueStream): seq<Option<SeqNum>>
    requires StreamOk(s)
  {
    s.insts[..s.size]
  }

  /** The stream a `TimeBuffer` slot holds after `advance` clears it. */
  function EmptyStream(): (s: IssueStream)
    ensures StreamOk(s) && Live(s) == []
  {
    IssueStream(0, seq(StreamSlots, _ => None))
  }

  function StreamPush(s: IssueStream, x: Option<SeqNum>): (r: IssueStream)
    requires StreamOk(s) && s.size < StreamSlots
    ensures StreamOk(r) && Live(r) == Live(s) + [x]
  {
    IssueStream(s.size + 1, s.insts[s.size := x])
  }

  function StreamPop(s: IssueStream): (r: (IssueStream, Option<SeqNum>))
    requires StreamOk(s) && s.size > 0
    ensures StreamOk(r.0) && Live(s) == Live(r.0) + [r.1]
  {
    (s.(size := s.size - 1), s.insts[s.size - 1])
  }

  /** Empties every live slot whose instruction is in `dead`. */
  method NullOutStream(s: IssueStream, dead: set<SeqNum>) returns (r: IssueStream)
    requires StreamOk(s)
    ensures StreamOk(r) && r.size == s.size
    ensures forall j :: 0 <= j < r.size ==> r.insts[j] == None || r.insts[j].value !in dead
    ensures forall j :: 0 <= j < StreamSlots ==> r.insts[j] == s.insts[j] || (j < s.size && r.insts[j] == None)
  {
    r := s;
    for j := 0 to s.size
      invariant StreamOk(r) && r.size == s.size
      invariant forall i :: 0 <= i < j ==> r.insts[i] == None || r.insts[i].value !in dead
      invariant forall i :: 0 <= i < StreamSlots ==> r.insts[i] == s.insts[i] || (i < j && r.insts[i] == None)
    {
      if r.insts[j].Some? && r.insts[j].value in dead {
        r := r.(insts := r.insts[j := None]);
      }
    }
  }

  /** Empties the slots of `dead` instructions in every issue stage. */
  method NullOutStages(st: seq<IssueStream>, dead: set<SeqNum>) returns (r: seq<IssueStream>)
    requires forall i :: 0 <= i < |st| ==> StreamOk(st[i])
    ensures |r| == |st|
    ensures forall i :: 0 <= i < |r| ==>
      && StreamOk(r[i]) && r[i].size == st[i].size
      && (forall j :: 0 <= j < r[i].size ==> r[i].insts[j] == None || r[i].insts[j].value !in dead)
      && (forall j :: 0 <= j < |st[i].insts| && j < |r[i].insts| ==> r[i].insts[j] == st[i].insts[j] || r[i].insts[j] == None)
  {
    r := st;
    for i := 0 to |st|
      invariant |r| == |st|
      invariant forall k :: 0 <= k < i ==>
        && StreamOk(r[k]) && r[k].size == st[k].size
        && (forall j :: 0 <= j < r[k].size ==> r[k].insts[j] == None || r[k].insts[j].value !in dead)
        && (forall j :: 0 <= j < StreamSlots ==> r[k].insts[j] == st[k].insts[j] || r[k].insts[j] == None)
      invariant forall k :: i <= k < |r| ==> r[k] == st[k]
    {
      var s := NullOutStream(r[i], dead);
      r := r[i := s];
    }
  }

  function CanceledSet(insts: map<SeqNum, Inst>): set<SeqNum>
  {
    set sn | sn in insts && insts[sn].status.canceled
  }

  function SquashedSet(insts: map<SeqNum, Inst>): set<SeqNum>
  {
    set sn | sn in insts && insts[sn].status.squashed
  }

  // ---------------------------------------------------------------------
  // Register-file read ports (Scheduler::useRegfilePort, checkRfPortBusy)

  /** The capacity of the integer register cache, an LRU of flat indices. */
  const RegCacheSize: nat := 24

  /**
   * The arbitration state of one select cycle: `rfPortOccupancy` (absent = no holder),
   * `arbFailedInsts`, and the register cache.
   */
  datatype RfArbiter = RfArbiter(occupancy: map<nat, (InstRef, nat)>, arbFailed: seq<InstRef>, regCache: seq<nat>)

  /** `checkRfPortBusy`: whether a request of priority `pri` would take port `tp`. */
  predicate CheckRfPortBusy(a: RfArbiter, tp: nat, pri: nat)
  {
    !(tp in a.occupancy && a.occupancy[tp].1 > pri)
  }

  /** Whether a read of `reg` is served by the register cache, claiming no port. */
  predicate CacheHit(a: RfArbiter, reg: PhysReg)
  {
    reg.cls == IntRegClass && reg.flat in a.regCache
  }

  /**
   * `useRegfilePort`: instruction `who` asks for read port `tp` with priority `pri` to read
   * `reg`. An integer register found in the cache claims nothing. Otherwise the larger
   * priority value keeps the port (the requester on a tie), and the other one is recorded as
   * having failed arbitration.
   */
  function UseRegfilePort(a: RfArbiter, who: InstRef, reg: PhysReg, tp: nat, pri: nat): (r: RfArbiter)
    ensures CacheHit(a, reg) ==> r.occupancy == a.occupancy && r.arbFailed == a.arbFailed
    ensures !CacheHit(a, reg) ==>
      && tp in r.occupancy
      && (CheckRfPortBusy(a, tp, pri) <==> r.occupancy[tp] == (who, pri))
      && (!CheckRfPortBusy(a, tp, pri) ==> r.occupancy[tp] == a.occupancy[tp] && r.arbFailed == a.arbFailed + [who])
      && (CheckRfPortBusy(a, tp, pri) && tp in a.occupancy ==> r.arbFailed == a.arbFailed + [a.occupancy[tp].0])
      && (tp !in a.occupancy ==> r.arbFailed == a.arbFailed)
    ensures forall p :: p != tp ==> (p in r.occupancy <==> p in a.occupancy) && (p in a.occupancy ==> r.occupancy[p] == a.occupancy[p])
    ensures reg.cls == IntRegClass ==> reg.flat in r.regCache
    ensures |a.regCache| <= RegCacheSize ==> |r.regCache| <= RegCacheSize
  {
    if CacheHit(a, reg) then a.(regCache := LruTouch(a.regCache, reg.flat))
    else
      var a1 := if reg.cls == IntRegClass then a.(regCache := LruInsert(a.regCache, reg.flat, RegCacheSize)) else a;
      if tp in a1.occupancy then
        if a1.occupancy[tp].1 > pri then a1.(arbFailed := a1.arbFailed + [who])
        else a1.(arbFailed := a1.arbFailed + [a1.occupancy[tp].0], occupancy := a1.occupancy[tp := (who, pri)])
      else a1.(occupancy := a1.occupancy[tp := (who, pri)])
  }

  /** The instructions arbiter a names: those recorded as failed and the holders of ports. */
  ghost function Named(a: RfArbiter): set<InstRef>
  {
    (set k | 0 <= k < |a.arbFailed| :: a.arbFailed[k]) + (set tp | tp in a.occupancy :: a.occupancy[tp].0)
  }

  /** The references of the instructions `keys` of queue q. */
  ghost function QueueRefs(q: nat, keys: set<SeqNum>): set<InstRef>
  {
    set c | c in keys :: (q, c)
  }

  /** A request names no instruction but the requester and those the arbiter named. */
  lemma UsePortNamed(a: RfArbiter, who: InstRef, reg: PhysReg, tp: nat, pri: nat)
    ensures Named(UseRegfilePort(a, who, reg, tp, pri)) <= Named(a) + {who}
  {
    var r := UseRegfilePort(a, who, reg, tp, pri);
    forall x | x in Named(r) ensures x in Named(a) + {who} {
      if k :| 0 <= k < |r.arbFailed| && r.arbFailed[k] == x {
        if k < |a.arbFailed| {
          assert a.arbFailed[k] == x;
        }
      } else {
        var p :| p in r.occupancy && r.occupancy[p].0 == x;
        if p != tp {
          assert a.occupancy[p].0 == x;
        }
      }
    }
  }

  /**
   * Two requests for the same port with different priorities, neither served by the
   * cache: whichever comes first, the larger priority value holds the port and the other
   * instruction is the last one recorded as failed.
   */
  lemma LargerPriorityWins(a: RfArbiter, s1: InstRef, r1: PhysReg, p1: nat, s2: InstRef, r2: PhysReg, p2: nat, tp: nat)
    requires tp !in a.occupancy && p1 > p2
    requires r1.cls != IntRegClass && r2.cls != IntRegClass
    ensures var b := UseRegfilePort(UseRegfilePort(a, s1, r1, tp, p1), s2, r2, tp, p2);
      b.occupancy[tp] == (s1, p1) && b.arbFailed == a.arbFailed + [s2]
    ensures var b := UseRegfilePort(UseRegfilePort(a, s2, r2, tp, p2), s1, r1, tp, p1);
      b.occupancy[tp] == (s1, p1) && b.arbFailed == a.arbFailed + [s2]
  {
    var x := UseRegfilePort(a, s1, r1, tp, p1);
    assert !CheckRfPortBusy(x, tp, p2);
    var y := UseRegfilePort(a, s2, r2, tp, p2);
    assert CheckRfPortBusy(y, tp, p1);
  }

  // ---------------------------------------------------------------------
  // Speculative wake-up timing (Scheduler::specWakeUpDependents, getCorrectedOpLat)

  /** `getCorrectedOpLat`: the op-class latency, two cycles more for a load. */
  function CorrectedOpLat(opLat: nat, isLoad: bool): nat
  {
    opLat + if isLoad then 2 else 0
  }

  /** Whether a scheduled instruction wakes its consumers speculatively: a pipelined op with a
   *  destination that is not a vector load. */
  predicate SpecWakes(i: Inst, pipelined: bool)
  {
    pipelined && |i.info.dsts| > 0 && !(i.info.isVector && i.info.isLoad)
  }

  /**
   * The cycles after which a queue with `toStages` issue stages is woken by a producer of
   * corrected latency `oplat` scheduled in a queue with `fromStages` issue stages. The delay
   * lines the consumer up behind its producer: the consumer reaches execution (after
   * `toStages` more stages) no earlier than the producer's result (`fromStages` stages plus
   * the latency, less the cycle of the wake-up itself), exactly then whenever the delay can
   * absorb the stage difference, and the delay is never negative.
   */
  function WakeDelay(oplat: nat, fromStages: nat, toStages: nat): (d: int)
    ensures oplat >= 1 ==>
      && d >= 0
      && d + toStages >= fromStages + oplat - 1
      && (d + toStages == fromStages + oplat - 1 <==> fromStages > toStages || oplat - 1 >= toStages - fromStages)
  {
    var wakeDelay := oplat - 1;
    var diff := if fromStages >= toStages then fromStages - toStages else toStages - fromStages;
    if fromStages > toStages then wakeDelay + diff
    else if wakeDelay >= diff then wakeDelay - diff
    else wakeDelay
  }

  // ---------------------------------------------------------------------
  // Insertion: registering the sources that still wait (IssueQue::insert)

  /** Source k still waits when the instruction enters the queue: not ready, not
   *  fixed-mapped, and its scoreboard entry is false (`pending` holds those registers). */
  predicate Waits(srcs: seq<PhysReg>, ready: seq<bool>, pending: set<nat>, k: nat)
    requires k < |srcs| == |ready|
  {
    !ready[k] && !srcs[k].fixed && srcs[k].flat in pending
  }

  /** The ready bits after insertion: a waiting source is marked ready anyway when its early
   *  scoreboard entry is set (`early` holds the registers whose entry is false). */
  function InsertReady(srcs: seq<PhysReg>, ready: seq<bool>, pending: set<nat>, early: set<nat>): (r: seq<bool>)
    requires |srcs| == |ready|
    ensures |r| == |srcs|
  {
    seq(|srcs|, k requires 0 <= k < |srcs| =>
      ready[k] || (!srcs[k].fixed && (srcs[k].flat !in pending || srcs[k].flat !in early)))
  }

  /** The (register, entry) pairs insertion appends to the dependency lists, from the first
   *  m sources in order. */
  function WaitList(sn: SeqNum, srcs: seq<PhysReg>, ready: seq<bool>, pending: set<nat>, m: nat): seq<(nat, Edge)>
    requires m <= |srcs| == |ready|
  {
    if m == 0 then []
    else
      var last := if Waits(srcs, ready, pending, m - 1) then [(srcs[m - 1].flat, (m - 1, sn))] else [];
      WaitList(sn, srcs, ready, pending, m - 1) + last
  }

  /** Appending each entry of `l` to its register's dependency list, in order. */
  function AddEdges(g: map<nat, seq<Edge>>, l: seq<(nat, Edge)>): map<nat, seq<Edge>>
  {
    if l == [] then g
    else
      var g0 := AddEdges(g, l[..|l| - 1]);
      var x := l[|l| - 1].0;
      g0[x := Edges(g0, x) + [l[|l| - 1].1]]
  }

  lemma AddEdgesSnoc(g: map<nat, seq<Edge>>, l: seq<(nat, Edge)>, p: (nat, Edge))
    ensures AddEdges(g, l + [p]) == AddEdges(g, l)[p.0 := Edges(AddEdges(g, l), p.0) + [p.1]]
  {
    assert (l + [p])[..|l|] == l;
  }

  /** Only the listed registers' dependency lists grow, each by its own entries in order. */
  lemma {:induction false} AddEdgesLists(g: map<nat, seq<Edge>>, l: seq<(nat, Edge)>, x: nat)
    ensures Edges(AddEdges(g, l), x) == Edges(g, x) + EntriesFor(l, x)
  {
    if l != [] {
      AddEdgesLists(g, l[..|l| - 1], x);
    }
  }

  /** The entries of `l` for register x, in order. */
  function EntriesFor(l: seq<(nat, Edge)>, x: nat): seq<Edge>
  {
    if l == [] then []
    else
      var last := if l[|l| - 1].0 == x then [l[|l| - 1].1] else [];
      EntriesFor(l[..|l| - 1], x) + last
  }

  /**
   * The source loop of `insert` for instruction `sn`: a source that waits is appended to
   * its register's dependency list (and marked ready if its early scoreboard entry is
   * set); one whose scoreboard entry is set is marked ready. `added` tells whether any
   * source waits.
   */
  method RegisterSources(sn: SeqNum, srcs: seq<PhysReg>, ready: seq<bool>, g: map<nat, seq<Edge>>, pending: set<nat>, early: set<nat>)
    returns (ready': seq<bool>, g': map<nat, seq<Edge>>, added: bool)
    requires |srcs| == |ready|
    ensures ready' == InsertReady(srcs, ready, pending, early)
    ensures g' == AddEdges(g, WaitList(sn, srcs, ready, pending, |srcs|))
    ensures added <==> exists k :: 0 <= k < |srcs| && Waits(srcs, ready, pending, k)
  {
    var want := InsertReady(srcs, ready, pending, early);
    ready', g', added := ready, g, false;
    ghost var wl: seq<(nat, Edge)> := [];
    for k := 0 to |srcs|
      invariant |ready'| == |srcs|
      invariant forall j :: 0 <= j < |ready'| ==> ready'[j] == if j < k then want[j] else ready[j]
      invariant wl == WaitList(sn, srcs, ready, pending, k)
      invariant g' == AddEdges(g, wl)
      invariant added <==> wl != []
    {
      var src := srcs[k];
      if !ready'[k] && !src.fixed {
        if src.flat !in pending {
          ready' := ready'[k := true];
        } else {
          if src.flat !in early {
            ready' := ready'[k := true];
          }
          AddEdgesSnoc(g, wl, (src.flat, (k, sn)));
          wl := wl + [(src.flat, (k, sn))];
          g' := g'[src.flat := Edges(g', src.flat) + [(k, sn)]];
          added := true;
        }
      }
    }
    WaitListEmpty(sn, srcs, ready, pending, |srcs|);
  }

  /** No entry is appended exactly when no source waits. */
  lemma {:induction false} WaitListEmpty(sn: SeqNum, srcs: seq<PhysReg>, ready: seq<bool>, pending: set<nat>, m: nat)
    requires m <= |srcs| == |ready|
    ensures WaitList(sn, srcs, ready, pending, m) == [] <==> forall k :: 0 <= k < m ==> !Waits(srcs, ready, pending, k)
  {
    if m > 0 {
      WaitListEmpty(sn, srcs, ready, pending, m - 1);
    }
  }

  /** An instruction none of whose sources waits is ready to issue once inserted. */
  lemma NoWaitIsReady(rec: Inst, pending: set<nat>, early: set<nat>)
    requires WellFormed(rec)
    requires forall k :: 0 <= k < |rec.info.srcs| ==> !Waits(rec.info.srcs, rec.srcReady, pending, k)
    ensures ReadyToIssue(rec.(srcReady := InsertReady(rec.info.srcs, rec.srcReady, pending, early)))
  {
    var r := InsertReady(rec.info.srcs, rec.srcReady, pending, early);
    forall k | 0 <= k < |r| ensures r[k] {
      assert !Waits(rec.info.srcs, rec.srcReady, pending, k);
    }
  }

  // ---------------------------------------------------------------------
  // Wake-up (IssueQue::wakeUpDependents)

  /** A destination wakes its consumers unless it is fixed-mapped or still has other pinned writes. */
  predicate Wakes(d: PhysReg)
  {
    !d.fixed && d.pinnedWrites == 1
  }

  /** The dependency-list entries a producer with destinations `dsts` wakes, in the order visited. */
  function WokenEdges(g: map<nat, seq<Edge>>, dsts: seq<PhysReg>): seq<Edge>
  {
    if dsts == [] then []
    else
      var d := dsts[|dsts| - 1];
      WokenEdges(g, dsts[..|dsts| - 1]) + (if Wakes(d) then Edges(g, d.flat) else [])
  }

  predicate WokenReg(dsts: seq<PhysReg>, x: nat)
  {
    exists i :: 0 <= i < |dsts| && Wakes(dsts[i]) && dsts[i].flat == x
  }

  /** A writeback wake-up empties the dependency lists of the registers it wakes. */
  function ClearWoken(g: map<nat, seq<Edge>>, dsts: seq<PhysReg>): (r: map<nat, seq<Edge>>)
    ensures forall x :: Edges(r, x) == if WokenReg(dsts, x) then [] else Edges(g, x)
  {
    map x | x in g :: if WokenReg(dsts, x) then [] else g[x]
  }

  /** b has a's fixed part and every ready bit of a, and only its cancel and in-ready-queue
   *  flags may differ. */
  predicate MoreReady(a: Inst, b: Inst)
  {
    && b.info == a.info && |b.srcReady| == |a.srcReady|
    && b.status == a.status.(canceled := b.status.canceled, inReadyQ := b.status.inReadyQ)
    && forall k :: 0 <= k < |a.srcReady| && a.srcReady[k] ==> b.srcReady[k]
  }

  datatype WakeState = WakeState(insts: map<SeqNum, Inst>, qs: seq<seq<SeqNum>>)

  predicate WakeStep(a: WakeState, b: WakeState)
  {
    b.insts.Keys == a.insts.Keys && |b.qs| == |a.qs| && forall c :: c in a.insts ==> MoreReady(a.insts[c], b.insts[c])
  }

  /** Waking one dependency-list entry: a consumer whose source is not yet ready has it
   *  marked ready and goes through `addIfReady`. */
  function WakeOne(st: WakeState, e: Edge, classify: map<OpClass, nat>): (r: WakeState)
    requires QueuesOk(st.qs, classify)
    ensures QueuesOk(r.qs, classify) && WakeStep(st, r)
  {
    var (k, c) := e;
    if c in st.insts && k < |st.insts[c].srcReady| && !st.insts[c].srcReady[k] then
      var rec := st.insts[c].(srcReady := st.insts[c].srcReady[k := true]);
      var (rec', qs') := AddIfReadyQ(rec, st.qs, classify);
      AddIfReadyQPushes(rec, st.qs, classify);
      WakeState(st.insts[c := rec'], qs')
    else st
  }

  /** Waking the entries of `es` in order. */
  function WakeAll(st: WakeState, es: seq<Edge>, classify: map<OpClass, nat>): (r: WakeState)
    requires QueuesOk(st.qs, classify)
    ensures QueuesOk(r.qs, classify) && WakeStep(st, r)
  {
    if es == [] then st
    else
      var mid := WakeAll(st, es[..|es| - 1], classify);
      WakeOne(mid, es[|es| - 1], classify)
  }

  lemma WakeAllNext(st: WakeState, es: seq<Edge>, i: nat, classify: map<OpClass, nat>)
    requires QueuesOk(st.qs, classify) && i < |es|
    ensures WakeAll(st, es[..i + 1], classify) == WakeOne(WakeAll(st, es[..i], classify), es[i], classify)
  {
    assert es[..i + 1][..i] == es[..i];
  }

  /** Every woken entry's source is ready afterwards. */
  lemma {:induction false} WakeAllWakes(st: WakeState, es: seq<Edge>, classify: map<OpClass, nat>, j: nat)
    requires QueuesOk(st.qs, classify) && j < |es|
    requires es[j].1 in st.insts && es[j].0 < |st.insts[es[j].1].srcReady|
    ensures WakeAll(st, es, classify).insts[es[j].1].srcReady[es[j].0]
  {
    var init := es[..|es| - 1];
    var mid := WakeAll(st, init, classify);
    if j < |es| - 1 {
      assert es[j] == init[j];
      WakeAllWakes(st, init, classify, j);
      assert MoreReady(mid.insts[es[j].1], WakeOne(mid, es[|es| - 1], classify).insts[es[j].1]);
    }
  }

  /** A ready bit set by the wake-up belongs to one of the woken entries. */
  lemma {:induction false} WakeAllOnly(st: WakeState, es: seq<Edge>, classify: map<OpClass, nat>, c: SeqNum, k: nat)
    requires QueuesOk(st.qs, classify) && c in st.insts && k < |st.insts[c].srcReady|
    requires WakeAll(st, es, classify).insts[c].srcReady[k]
    ensures st.insts[c].srcReady[k] || (k, c) in es
  {
    if es != [] {
      var init := es[..|es| - 1];
      var mid := WakeAll(st, init, classify);
      if !mid.insts[c].srcReady[k] {
        assert es[|es| - 1] == (k, c);
      } else {
        WakeAllOnly(st, init, classify, c, k);
      }
    }
  }

  /** The entry e has nothing left to wake in st. */
  predicate EdgeDone(st: WakeState, e: Edge)
  {
    e.1 in st.insts && e.0 < |st.insts[e.1].srcReady| ==> st.insts[e.1].srcReady[e.0]
  }

  /** Waking entries that have nothing left to wake changes nothing. */
  lemma {:induction false} WakeAllDone(st: WakeState, es: seq<Edge>, classify: map<OpClass, nat>)
    requires QueuesOk(st.qs, classify)
    requires forall j :: 0 <= j < |es| ==> EdgeDone(st, es[j])
    ensures WakeAll(st, es, classify) == st
  {
    if es != [] {
      WakeAllDone(st, es[..|es| - 1], classify);
      assert EdgeDone(st, es[|es| - 1]);
    }
  }

  /** A second wake-up by the same entries changes nothing: the wake-up is idempotent. */
  lemma WakeAllIdempotent(st: WakeState, es: seq<Edge>, classify: map<OpClass, nat>)
    requires QueuesOk(st.qs, classify)
    ensures WakeAll(WakeAll(st, es, classify), es, classify) == WakeAll(st, es, classify)
  {
    var w := WakeAll(st, es, classify);
    forall j | 0 <= j < |es| ensures EdgeDone(w, es[j]) {
      if es[j].1 in w.insts && es[j].0 < |w.insts[es[j].1].srcReady| {
        assert MoreReady(st.insts[es[j].1], w.insts[es[j].1]);
        WakeAllWakes(st, es, classify, j);
      }
    }
    WakeAllDone(w, es, classify);
  }

  /** A wake-up never sets a cancel flag: `addIfReady` only clears it. */
  lemma {:induction false} WakeAllUncanceled(st: WakeState, es: seq<Edge>, classify: map<OpClass, nat>, c: SeqNum)
    requires QueuesOk(st.qs, classify) && c in st.insts && !st.insts[c].status.canceled
    ensures !WakeAll(st, es, classify).insts[c].status.canceled
  {
    if es != [] {
      var mid := WakeAll(st, es[..|es| - 1], classify);
      WakeAllUncanceled(st, es[..|es| - 1], classify, c);
      var (k, c') := es[|es| - 1];
      if c' == c && k < |mid.insts[c].srcReady| && !mid.insts[c].srcReady[k] {
        var rec := mid.insts[c].(srcReady := mid.insts[c].srcReady[k := true]);
        AddIfReadyQPushes(rec, mid.qs, classify);
      }
    }
  }

  /** The wake-up loop over the entries of the producer's woken registers. */
  method WakeConsumers(st: WakeState, es: seq<Edge>, classify: map<OpClass, nat>) returns (r: WakeState)
    requires QueuesOk(st.qs, classify)
    ensures r == WakeAll(st, es, classify)
  {
    r := st;
    for i := 0 to |es|
      invariant r == WakeAll(st, es[..i], classify)
    {
      WakeAllNext(st, es, i, classify);
      var (k, c) := es[i];
      if c in r.insts && k < |r.insts[c].srcReady| && !r.insts[c].srcReady[k] {
        var rec := r.insts[c].(srcReady := r.insts[c].srcReady[k := true]);
        var (rec', qs') := AddIfReadyQ(rec, r.qs, classify);
        r := WakeState(r.insts[c := rec'], qs');
      }
    }
    assert es[..|es|] == es;
  }

  // ---------------------------------------------------------------------
  // Occupancy counters (insert, POPINST)

  /** An instruction `instNum` and `opNum` count: not yet issued, and not an FMA multiply,
   *  which the counters exempt. */
  predicate Counted(i: Inst)
  {
    !i.status.issued && i.info.opClass != FmaMulOp
  }

  ghost function Waiting(insts: map<SeqNum, Inst>): set<SeqNum>
  {
    set sn | sn in insts && Counted(insts[sn])
  }

  ghost function WaitingOf(insts: map<SeqNum, Inst>, c: OpClass): set<SeqNum>
  {
    set sn | sn in insts && Counted(insts[sn]) && insts[sn].info.opClass == c
  }

  /** `opNum[c]`, 0 for a class never inserted. */
  function OpCount(opNum: map<OpClass, nat>, c: OpClass): nat
  {
    if c in opNum then opNum[c] else 0
  }

  /** `instNum` counts the counted instructions and `opNum[c]` those of class c. */
  ghost predicate CountsOk(insts: map<SeqNum, Inst>, instNum: nat, opNum: map<OpClass, nat>)
  {
    instNum == |Waiting(insts)| && forall c :: OpCount(opNum, c) == |WaitingOf(insts, c)|
  }

  /** Two record maps that agree on which instructions are counted, and on their classes. */
  predicate SameCounted(a: map<SeqNum, Inst>, b: map<SeqNum, Inst>)
  {
    a.Keys == b.Keys && forall sn :: sn in a ==> Counted(a[sn]) == Counted(b[sn]) && a[sn].info.opClass == b[sn].info.opClass
  }

  lemma CountsSame(a: map<SeqNum, Inst>, b: map<SeqNum, Inst>, instNum: nat, opNum: map<OpClass, nat>)
    requires CountsOk(a, instNum, opNum) && SameCounted(a, b)
    ensures CountsOk(b, instNum, opNum)
  {
    assert Waiting(a) == Waiting(b);
    forall c ensures WaitingOf(a, c) == WaitingOf(b, c) {
    }
  }

  /** The insertion half of the counters: a new counted instruction adds one to `instNum`
   *  and to the count of its class. */
  lemma CountsAdd(insts: map<SeqNum, Inst>, instNum: nat, opNum: map<OpClass, nat>, r: Inst)
    requires CountsOk(insts, instNum, opNum) && r.info.seqNum !in insts && Counted(r)
    ensures CountsOk(insts[r.info.seqNum := r], instNum + 1, opNum[r.info.opClass := OpCount(opNum, r.info.opClass) + 1])
  {
    var sn, insts', c0 := r.info.seqNum, insts[r.info.seqNum := r], r.info.opClass;
    var opNum' := opNum[c0 := OpCount(opNum, c0) + 1];
    WaitingAdd(insts, r);
    forall c ensures OpCount(opNum', c) == |WaitingOf(insts', c)| {
      WaitingOfAdd(insts, r, c);
      if c == c0 {
        assert sn !in WaitingOf(insts, c);
        assert OpCount(opNum', c) == OpCount(opNum, c) + 1;
      } else {
        assert OpCount(opNum', c) == OpCount(opNum, c);
      }
    }
  }

  lemma WaitingAdd(insts: map<SeqNum, Inst>, r: Inst)
    requires r.info.seqNum !in insts && Counted(r)
    ensures Waiting(insts[r.info.seqNum := r]) == Waiting(insts) + {r.info.seqNum}
    ensures |Waiting(insts[r.info.seqNum := r])| == |Waiting(insts)| + 1
  {
    assert Waiting(insts[r.info.seqNum := r]) == Waiting(insts) + {r.info.seqNum};
  }

  lemma WaitingOfAdd(insts: map<SeqNum, Inst>, r: Inst, c: OpClass)
    requires r.info.seqNum !in insts && Counted(r)
    ensures WaitingOf(insts[r.info.seqNum := r], c) == WaitingOf(insts, c) + (if c == r.info.opClass then {r.info.seqNum} else {})
  {
  }

  /** A new instruction the counters exempt leaves them as they are. */
  lemma CountsAddExempt(insts: map<SeqNum, Inst>, instNum: nat, opNum: map<OpClass, nat>, r: Inst)
    requires CountsOk(insts, instNum, opNum) && r.info.seqNum !in insts && !Counted(r)
    ensures CountsOk(insts[r.info.seqNum := r], instNum, opNum)
  {
    var insts' := insts[r.info.seqNum := r];
    assert Waiting(insts') == Waiting(insts);
    forall c ensures WaitingOf(insts', c) == WaitingOf(insts, c) {
    }
  }

  /** The `POPINST` half: when a counted instruction stops being counted, both counters it
   *  decrements are non-zero (the asserts of `POPINST` hold) and stay exact. */
  lemma CountsRemove(insts: map<SeqNum, Inst>, instNum: nat, opNum: map<OpClass, nat>, sn: SeqNum, r: Inst)
    requires CountsOk(insts, instNum, opNum) && sn in insts && Counted(insts[sn])
    requires !Counted(r) && r.info.opClass == insts[sn].info.opClass
    ensures instNum > 0 && OpCount(opNum, r.info.opClass) > 0
    ensures CountsOk(insts[sn := r], instNum - 1, opNum[r.info.opClass := OpCount(opNum, r.info.opClass) - 1])
  {
    var c0, insts' := r.info.opClass, insts[sn := r];
    assert sn in WaitingOf(insts, c0);
    assert Waiting(insts') == Waiting(insts) - {sn};
    forall c ensures WaitingOf(insts', c) == WaitingOf(insts, c) - {sn} {
    }
  }

  /** A record whose counted status and class stay the same leaves the counters exact. */
  lemma CountsKeep(insts: map<SeqNum, Inst>, instNum: nat, opNum: map<OpClass, nat>, sn: SeqNum, r: Inst)
    requires CountsOk(insts, instNum, opNum) && sn in insts
    requires Counted(r) == Counted(insts[sn]) && r.info.opClass == insts[sn].info.opClass
    ensures CountsOk(insts[sn := r], instNum, opNum)
  {
    CountsSame(insts, insts[sn := r], instNum, opNum);
  }

  // ---------------------------------------------------------------------
  // References from the queue's structures to its records

  /** Every sequence number in `s` has a record. */
  predicate Within(s: seq<SeqNum>, keys: set<SeqNum>)
  {
    forall k :: 0 <= k < |s| ==> s[k] in keys
  }

  /** Every live slot of every stage names an instruction with a record. */
  predicate StagesWithin(st: seq<IssueStream>, keys: set<SeqNum>)
  {
    forall i, j :: 0 <= i < |st| && 0 <= j < st[i].size && j < |st[i].insts| && st[i].insts[j].Some? ==> st[i].insts[j].value in keys
  }

  /** Every consumer in the dependency lists has a record. */
  predicate GraphWithin(g: map<nat, seq<Edge>>, keys: set<SeqNum>)
  {
    forall x, k :: x in g && 0 <= k < |g[x]| ==> g[x][k].1 in keys
  }

  predicate QueuesWithin(qs: seq<seq<SeqNum>>, keys: set<SeqNum>)
  {
    forall q :: 0 <= q < |qs| ==> Within(qs[q], keys)
  }

  predicate SelectWithin(sq: seq<(nat, SeqNum)>, keys: set<SeqNum>)
  {
    forall k :: 0 <= k < |sq| ==> sq[k].1 in keys
  }

  /** Every record is keyed by its own sequence number and well formed, and its issue port,
   *  once set, is one of the queue's. */
  predicate RecordsOk(insts: map<SeqNum, Inst>, outports: nat)
  {
    forall sn :: sn in insts ==> insts[sn].info.seqNum == sn && WellFormed(insts[sn]) && insts[sn].status.issuePort < outports
  }

  /** Everything the queue refers to by sequence number has a record. */
  predicate RefsOk(insts: map<SeqNum, Inst>, instList: seq<SeqNum>, readyQs: seq<seq<SeqNum>>, selectQ: seq<(nat, SeqNum)>,
                   g: map<nat, seq<Edge>>, inflight: seq<IssueStream>, outports: nat)
  {
    && Within(instList, insts.Keys) && QueuesWithin(readyQs, insts.Keys) && SelectWithin(selectQ, insts.Keys)
    && GraphWithin(g, insts.Keys) && StagesWithin(inflight, insts.Keys) && RecordsOk(insts, outports)
  }

  /** Adding a record keeps every reference valid, and the new instruction may be referred to. */
  lemma RefsAdd(insts: map<SeqNum, Inst>, instList: seq<SeqNum>, readyQs: seq<seq<SeqNum>>, selectQ: seq<(nat, SeqNum)>,
                g: map<nat, seq<Edge>>, inflight: seq<IssueStream>, outports: nat, r: Inst)
    requires RefsOk(insts, instList, readyQs, selectQ, g, inflight, outports)
    requires WellFormed(r) && r.status.issuePort < outports
    ensures var keys := insts.Keys + {r.info.seqNum};
      && Within(instList + [r.info.seqNum], keys) && QueuesWithin(readyQs, keys) && SelectWithin(selectQ, keys)
      && GraphWithin(g, keys) && StagesWithin(inflight, keys) && RecordsOk(insts[r.info.seqNum := r], outports)
  {
  }

  lemma EnqueueWithin(q: seq<SeqNum>, x: SeqNum, keys: set<SeqNum>)
    requires Sorted(q) && Within(q, keys) && x in keys
    ensures Within(Enqueue(q, x), keys)
  {
    var r := Enqueue(q, x);
    forall k | 0 <= k < |r| ensures r[k] in keys {
      assert r[k] in multiset(r);
    }
  }

  lemma PushClassWithin(qs: seq<seq<SeqNum>>, classify: map<OpClass, nat>, c: OpClass, x: SeqNum, keys: set<SeqNum>)
    requires QueuesOk(qs, classify) && QueuesWithin(qs, keys) && x in keys
    ensures QueuesWithin(PushClass(qs, classify, c, x), keys)
  {
    if c in classify {
      EnqueueWithin(qs[classify[c]], x, keys);
    }
  }

  lemma AddIfReadyQWithin(rec: Inst, qs: seq<seq<SeqNum>>, classify: map<OpClass, nat>, keys: set<SeqNum>)
    requires QueuesOk(qs, classify) && rec.info.seqNum in keys && QueuesWithin(qs, keys)
    ensures QueuesWithin(AddIfReadyQ(rec, qs, classify).1, keys)
  {
    if Admissible(rec) && !rec.status.inReadyQ && rec.info.opClass in classify {
      var q := classify[rec.info.opClass];
      EnqueueWithin(qs[q], rec.info.seqNum, keys);
    }
  }

  /** Every entry insertion appends names the inserted instruction. */
  lemma {:induction false} WaitListConsumer(sn: SeqNum, srcs: seq<PhysReg>, ready: seq<bool>, pending: set<nat>, m: nat)
    requires m <= |srcs| == |ready|
    ensures forall k :: 0 <= k < |WaitList(sn, srcs, ready, pending, m)| ==> WaitList(sn, srcs, ready, pending, m)[k].1.1 == sn
  {
    if m > 0 {
      WaitListConsumer(sn, srcs, ready, pending, m - 1);
    }
  }

  lemma {:induction false} AddEdgesWithin(g: map<nat, seq<Edge>>, l: seq<(nat, Edge)>, keys: set<SeqNum>)
    requires GraphWithin(g, keys) && forall k :: 0 <= k < |l| ==> l[k].1.1 in keys
    ensures GraphWithin(AddEdges(g, l), keys)
  {
    if l != [] {
      AddEdgesWithin(g, l[..|l| - 1], keys);
    }
  }

  /** Replacing a record by one of the same class, counted alike and still well formed, with
   *  ready queues that name only recorded instructions, keeps references and counters valid. */
  lemma ReplaceKeeps(insts: map<SeqNum, Inst>, instList: seq<SeqNum>, readyQs: seq<seq<SeqNum>>, selectQ: seq<(nat, SeqNum)>,
                     g: map<nat, seq<Edge>>, inflight: seq<IssueStream>, outports: nat, instNum: nat, opNum: map<OpClass, nat>,
                     sn: SeqNum, r: Inst, qs: seq<seq<SeqNum>>)
    requires RefsOk(insts, instList, readyQs, selectQ, g, inflight, outports) && CountsOk(insts, instNum, opNum)
    requires sn in insts && r.info == insts[sn].info && WellFormed(r) && r.status.issuePort < outports
    requires Counted(r) == Counted(insts[sn]) && r.info.opClass == insts[sn].info.opClass
    requires QueuesWithin(qs, insts.Keys)
    ensures RefsOk(insts[sn := r], instList, qs, selectQ, g, inflight, outports) && CountsOk(insts[sn := r], instNum, opNum)
  {
    CountsKeep(insts, instNum, opNum, sn, r);
    assert insts[sn := r].Keys == insts.Keys;
  }

  /** Marking an unissued record issued keeps references valid and, when it was counted,
   *  takes it off both counters, which are non-zero (`POPINST`). */
  lemma IssueKeeps(insts: map<SeqNum, Inst>, instList: seq<SeqNum>, readyQs: seq<seq<SeqNum>>, selectQ: seq<(nat, SeqNum)>,
                   g: map<nat, seq<Edge>>, inflight: seq<IssueStream>, outports: nat, instNum: nat, opNum: map<OpClass, nat>, sn: SeqNum)
    requires RefsOk(insts, instList, readyQs, selectQ, g, inflight, outports) && CountsOk(insts, instNum, opNum)
    requires sn in insts && !insts[sn].status.issued
    ensures var rec, c := insts[sn], insts[sn].info.opClass;
      var insts' := insts[sn := rec.(status := rec.status.(issued := true))];
      && RefsOk(insts', instList, readyQs, selectQ, g, inflight, outports)
      && (c != FmaMulOp ==> instNum > 0 && OpCount(opNum, c) > 0 && CountsOk(insts', instNum - 1, opNum[c := OpCount(opNum, c) - 1]))
      && (c == FmaMulOp ==> CountsOk(insts', instNum, opNum))
  {
    var rec := insts[sn];
    var rec1 := rec.(status := rec.status.(issued := true));
    if rec.info.opClass != FmaMulOp {
      CountsRemove(insts, instNum, opNum, sn, rec1);
    } else {
      CountsKeep(insts, instNum, opNum, sn, rec1);
    }
    assert insts[sn := rec1].Keys == insts.Keys;
  }

  /** Waking keeps every ready queue naming recorded instructions only. */
  lemma {:induction false} WakeAllWithin(st: WakeState, es: seq<Edge>, classify: map<OpClass, nat>, keys: set<SeqNum>)
    requires QueuesOk(st.qs, classify) && QueuesWithin(st.qs, keys)
    requires forall c :: c in st.insts ==> st.insts[c].info.seqNum in keys
    ensures QueuesWithin(WakeAll(st, es, classify).qs, keys)
  {
    if es != [] {
      var mid := WakeAll(st, es[..|es| - 1], classify);
      WakeAllWithin(st, es[..|es| - 1], classify, keys);
      var (k, c) := es[|es| - 1];
      if c in mid.insts && k < |mid.insts[c].srcReady| && !mid.insts[c].srcReady[k] {
        var rec := mid.insts[c].(srcReady := mid.insts[c].srcReady[k := true]);
        AddIfReadyQWithin(rec, mid.qs, classify, keys);
      }
    }
  }

  /** A wake-up, with dependency lists that still name recorded instructions only, keeps
   *  references and counters valid: it changes ready bits and ready-queue flags alone. */
  lemma WakeKeeps(insts: map<SeqNum, Inst>, instList: seq<SeqNum>, readyQs: seq<seq<SeqNum>>, selectQ: seq<(nat, SeqNum)>,
                  inflight: seq<IssueStream>, outports: nat, instNum: nat, opNum: map<OpClass, nat>,
                  classify: map<OpClass, nat>, es: seq<Edge>, g: map<nat, seq<Edge>>, g': map<nat, seq<Edge>>)
    requires RefsOk(insts, instList, readyQs, selectQ, g, inflight, outports) && CountsOk(insts, instNum, opNum)
    requires QueuesOk(readyQs, classify) && GraphWithin(g', insts.Keys)
    ensures var w := WakeAll(WakeState(insts, readyQs), es, classify);
      RefsOk(w.insts, instList, w.qs, selectQ, g', inflight, outports) && CountsOk(w.insts, instNum, opNum)
  {
    var st := WakeState(insts, readyQs);
    var w := WakeAll(st, es, classify);
    WakeAllWithin(st, es, classify, insts.Keys);
    assert SameCounted(insts, w.insts);
    CountsSame(insts, w.insts, instNum, opNum);
    forall sn | sn in w.insts ensures w.insts[sn].info.seqNum == sn && WellFormed(w.insts[sn]) && w.insts[sn].status.issuePort < outports {
      assert MoreReady(insts[sn], w.insts[sn]);
    }
  }

  lemma ClearWokenWithin(g: map<nat, seq<Edge>>, dsts: seq<PhysReg>, keys: set<SeqNum>)
    requires GraphWithin(g, keys)
    ensures GraphWithin(ClearWoken(g, dsts), keys)
  {
  }

  // ---------------------------------------------------------------------
  // Selection (IssueQue::selectInst)

  /** The state `selectInst` threads through the ports: the records, the ready queues and
   *  the selected (port, instruction) pairs. */
  datatype SelectSt = SelectSt(insts: map<SeqNum, Inst>, qs: seq<seq<SeqNum>>, sel: seq<(nat, SeqNum)>)

  /** `clearInReadyQ` on record sn. */
  function ClearInReadyQ(insts: map<SeqNum, Inst>, sn: SeqNum): (r: map<SeqNum, Inst>)
    requires sn in insts
    ensures r.Keys == insts.Keys
  {
    insts[sn := insts[sn].(status := insts[sn].status.(inReadyQ := false))]
  }

  /** The canceled instructions at the top of a ready queue are popped, each marked as no
   *  longer in a ready queue. */
  function DropCanceled(insts: map<SeqNum, Inst>, q: seq<SeqNum>): (r: (map<SeqNum, Inst>, seq<SeqNum>))
    requires Within(q, insts.Keys)
    ensures r.0.Keys == insts.Keys && Within(r.1, insts.Keys) && |r.1| <= |q|
    decreases |q|
  {
    if q != [] && insts[q[0]].status.canceled then DropCanceled(ClearInReadyQ(insts, q[0]), q[1..]) else (insts, q)
  }

  /** The read-port requests of the first m sources of a selected instruction: an integer
   *  source with a read port at its index asks for that port, likewise a floating-point one. */
  function ArbitrateSrcs(a: RfArbiter, who: InstRef, srcs: seq<PhysReg>, intIds: seq<(nat, nat)>, fpIds: seq<(nat, nat)>, m: nat): (r: RfArbiter)
    requires m <= |srcs|
    ensures Named(r) <= Named(a) + {who}
  {
    if m == 0 then a
    else SrcRequest(ArbitrateSrcs(a, who, srcs, intIds, fpIds, m - 1), who, srcs[m - 1], m - 1, intIds, fpIds)
  }

  /** The read-port request of source i, src: an integer source with a read port at index i
   *  asks for that port, likewise a floating-point one; any other asks for none. */
  function SrcRequest(a: RfArbiter, who: InstRef, src: PhysReg, i: nat, intIds: seq<(nat, nat)>, fpIds: seq<(nat, nat)>): (r: RfArbiter)
    ensures Named(r) <= Named(a) + {who}
  {
    if src.cls == IntRegClass && i < |intIds| then
      UsePortNamed(a, who, src, intIds[i].0, intIds[i].1);
      UseRegfilePort(a, who, src, intIds[i].0, intIds[i].1)
    else if src.cls == FloatRegClass && i < |fpIds| then
      UsePortNamed(a, who, src, fpIds[i].0, fpIds[i].1);
      UseRegfilePort(a, who, src, fpIds[i].0, fpIds[i].1)
    else a
  }

  /** Port pi selecting from ready queue q: after the canceled tops are dropped, the top (the
   *  oldest) is selected, is marked as no longer in a ready queue and is popped. */
  function SelectPort(st: SelectSt, q: nat, pi: nat): (r: SelectSt)
    requires q < |st.qs| && QueuesWithin(st.qs, st.insts.Keys)
    ensures r.insts.Keys == st.insts.Keys && |r.qs| == |st.qs| && QueuesWithin(r.qs, r.insts.Keys)
  {
    var (ins, rq) := DropCanceled(st.insts, st.qs[q]);
    if rq == [] then st.(insts := ins, qs := st.qs[q := rq])
    else SelectSt(ClearInReadyQ(ins, rq[0]), st.qs[q := rq[1..]], st.sel + [(pi, rq[0])])
  }

  /** Ports 0 to n - 1 selecting in order; port p reads ready queue portQueue[p]. */
  function SelectAll(st: SelectSt, portQueue: seq<nat>, n: nat): (r: SelectSt)
    requires n <= |portQueue|
    requires (forall p :: 0 <= p < |portQueue| ==> portQueue[p] < |st.qs|) && QueuesWithin(st.qs, st.insts.Keys)
    ensures r.insts.Keys == st.insts.Keys && |r.qs| == |st.qs| && QueuesWithin(r.qs, r.insts.Keys)
  {
    if n == 0 then st
    else SelectPort(SelectAll(st, portQueue, n - 1), portQueue[n - 1], n - 1)
  }

  /** The read-port requests of the selected instructions, in selection order: each asks for
   *  the read ports of its selecting port (`useRegfilePort` inside `selectInst`). */
  function ArbitrateSel(a: RfArbiter, insts: map<SeqNum, Inst>, sel: seq<(nat, SeqNum)>, intIds: seq<seq<(nat, nat)>>,
                        fpIds: seq<seq<(nat, nat)>>, iqId: nat): (r: RfArbiter)
    requires forall k :: 0 <= k < |sel| ==> sel[k].1 in insts && sel[k].0 < |intIds| && sel[k].0 < |fpIds|
    ensures Named(r) <= Named(a) + QueueRefs(iqId, insts.Keys)
  {
    if sel == [] then a
    else
      var b := ArbitrateSel(a, insts, sel[..|sel| - 1], intIds, fpIds, iqId);
      var (pi, sn) := sel[|sel| - 1];
      assert (iqId, sn) in QueueRefs(iqId, insts.Keys);
      ArbitrateSrcs(b, (iqId, sn), insts[sn].info.srcs, intIds[pi], fpIds[pi], |insts[sn].info.srcs|)
  }

  /** The loop of `selectInst` that pops canceled tops. */
  method DropLoop(insts: map<SeqNum, Inst>, q: seq<SeqNum>) returns (ins: map<SeqNum, Inst>, rq: seq<SeqNum>)
    requires Within(q, insts.Keys)
    ensures (ins, rq) == DropCanceled(insts, q)
  {
    ins, rq := insts, q;
    while rq != [] && ins[rq[0]].status.canceled
      invariant Within(rq, ins.Keys) && DropCanceled(ins, rq) == DropCanceled(insts, q)
      decreases |rq|
    {
      ins, rq := ClearInReadyQ(ins, rq[0]), rq[1..];
    }
  }

  /** The loop of `selectInst` over the sources of the selected instruction. */
  method ArbitrateLoop(a0: RfArbiter, who: InstRef, srcs: seq<PhysReg>, intIds: seq<(nat, nat)>, fpIds: seq<(nat, nat)>)
    returns (a: RfArbiter)
    ensures a == ArbitrateSrcs(a0, who, srcs, intIds, fpIds, |srcs|)
  {
    a := a0;
    for i := 0 to |srcs|
      invariant a == ArbitrateSrcs(a0, who, srcs, intIds, fpIds, i)
    {
      var src := srcs[i];
      if src.cls == IntRegClass && i < |intIds| {
        a := UseRegfilePort(a, who, src, intIds[i].0, intIds[i].1);
      } else if src.cls == FloatRegClass && i < |fpIds| {
        a := UseRegfilePort(a, who, src, fpIds[i].0, fpIds[i].1);
      }
    }
  }

  /** The body of the port loop of `selectInst`: the selection and its read-port requests. */
  method SelectPortStep(st: SelectSt, a0: RfArbiter, q: nat, pi: nat, intIds: seq<(nat, nat)>, fpIds: seq<(nat, nat)>, iqId: nat)
    returns (r: SelectSt, a: RfArbiter)
    requires q < |st.qs| && QueuesWithin(st.qs, st.insts.Keys)
    ensures r == SelectPort(st, q, pi)
    ensures r.sel == st.sel ==> a == a0
    ensures r.sel != st.sel ==> var top := r.sel[|st.sel|].1;
      top in r.insts && a == ArbitrateSrcs(a0, (iqId, top), r.insts[top].info.srcs, intIds, fpIds, |r.insts[top].info.srcs|)
  {
    var ins, rq := DropLoop(st.insts, st.qs[q]);
    if rq == [] {
      r, a := st.(insts := ins, qs := st.qs[q := rq]), a0;
    } else {
      var top := rq[0];
      a := ArbitrateLoop(a0, (iqId, top), ins[top].info.srcs, intIds, fpIds);
      r := SelectSt(ClearInReadyQ(ins, top), st.qs[q := rq[1..]], st.sel + [(pi, top)]);
    }
  }

  /** The port loop of `selectInst`, with the read-port requests of each selection. */
  method SelectLoop(st0: SelectSt, a0: RfArbiter, portQueue: seq<nat>, intIds: seq<seq<(nat, nat)>>, fpIds: seq<seq<(nat, nat)>>,
                    iqId: nat, n: nat)
    returns (st: SelectSt, a: RfArbiter)
    requires n <= |portQueue| && n <= |intIds| && n <= |fpIds| && st0.sel == []
    requires (forall p :: 0 <= p < |portQueue| ==> portQueue[p] < |st0.qs|) && QueuesWithin(st0.qs, st0.insts.Keys)
    ensures st == SelectAll(st0, portQueue, n)
    ensures forall k :: 0 <= k < |st.sel| ==> st.sel[k].1 in st.insts && st.sel[k].0 < n
    ensures a == ArbitrateSel(a0, st.insts, st.sel, intIds, fpIds, iqId)
  {
    st, a := st0, a0;
    for pi := 0 to n
      invariant st == SelectAll(st0, portQueue, pi)
      invariant forall k :: 0 <= k < |st.sel| ==> st.sel[k].1 in st.insts && st.sel[k].0 < pi
      invariant a == ArbitrateSel(a0, st.insts, st.sel, intIds, fpIds, iqId)
    {
      var r, b := SelectPortStep(st, a, portQueue[pi], pi, intIds[pi], fpIds[pi], iqId);
      SelectPortFrame(st, portQueue[pi], pi);
      SelectArbStep(a0, st.insts, r.insts, st.sel, r.sel, a, b, intIds, fpIds, iqId, pi);
      st, a := r, b;
    }
  }

  /** One round of `SelectLoop` keeps its arbiter the requests of the selections so far. */
  lemma SelectArbStep(a0: RfArbiter, i1: map<SeqNum, Inst>, i2: map<SeqNum, Inst>, sel: seq<(nat, SeqNum)>, sel2: seq<(nat, SeqNum)>,
                      a: RfArbiter, b: RfArbiter, intIds: seq<seq<(nat, nat)>>, fpIds: seq<seq<(nat, nat)>>, iqId: nat, pi: nat)
    requires FlagsOnly(i1, i2) && pi < |intIds| && pi < |fpIds|
    requires forall k :: 0 <= k < |sel| ==> sel[k].1 in i1 && sel[k].0 < pi
    requires a == ArbitrateSel(a0, i1, sel, intIds, fpIds, iqId)
    requires sel2 == sel || (|sel2| > |sel| && sel2 == sel + [(pi, sel2[|sel|].1)] && sel2[|sel|].1 in i1)
    requires sel2 == sel ==> b == a
    requires sel2 != sel ==> |sel2| > |sel| && var top := sel2[|sel|].1;
      top in i2 && b == ArbitrateSrcs(a, (iqId, top), i2[top].info.srcs, intIds[pi], fpIds[pi], |i2[top].info.srcs|)
    ensures forall k :: 0 <= k < |sel2| ==> sel2[k].1 in i2 && sel2[k].0 < pi + 1
    ensures b == ArbitrateSel(a0, i2, sel2, intIds, fpIds, iqId)
  {
    ArbitrateSelFlags(a0, i1, i2, sel, intIds, fpIds, iqId);
    if sel2 != sel {
      assert sel2[..|sel2| - 1] == sel;
    }
  }

  /** The read-port requests depend on the records' fixed parts alone. */
  lemma {:induction false} ArbitrateSelFlags(a: RfArbiter, i1: map<SeqNum, Inst>, i2: map<SeqNum, Inst>, sel: seq<(nat, SeqNum)>,
                                             intIds: seq<seq<(nat, nat)>>, fpIds: seq<seq<(nat, nat)>>, iqId: nat)
    requires FlagsOnly(i1, i2)
    requires forall k :: 0 <= k < |sel| ==> sel[k].1 in i1 && sel[k].0 < |intIds| && sel[k].0 < |fpIds|
    ensures ArbitrateSel(a, i1, sel, intIds, fpIds, iqId) == ArbitrateSel(a, i2, sel, intIds, fpIds, iqId)
  {
    if sel != [] {
      ArbitrateSelFlags(a, i1, i2, sel[..|sel| - 1], intIds, fpIds, iqId);
      var sn := sel[|sel| - 1].1;
      assert Unflagged(i1[sn]) == Unflagged(i2[sn]);
    }
  }

  /** A record with its in-ready-queue flag cleared. */
  function Unflagged(i: Inst): Inst
  {
    i.(status := i.status.(inReadyQ := false))
  }

  /** b differs from a in the in-ready-queue flags alone. */
  predicate FlagsOnly(a: map<SeqNum, Inst>, b: map<SeqNum, Inst>)
  {
    a.Keys == b.Keys && forall sn {:trigger Unflagged(b[sn])} :: sn in a ==> Unflagged(b[sn]) == Unflagged(a[sn])
  }

  lemma FlagsOnlyClear(insts: map<SeqNum, Inst>, sn: SeqNum)
    requires sn in insts
    ensures FlagsOnly(insts, ClearInReadyQ(insts, sn))
  {
  }

  lemma FlagsOnlyTrans(a: map<SeqNum, Inst>, b: map<SeqNum, Inst>, c: map<SeqNum, Inst>)
    requires FlagsOnly(a, b) && FlagsOnly(b, c)
    ensures FlagsOnly(a, c)
  {
  }

  /** How many canceled tops `DropCanceled` pops. */
  function DropCount(insts: map<SeqNum, Inst>, q: seq<SeqNum>): (d: nat)
    requires Within(q, insts.Keys)
    ensures d <= |q|
    decreases |q|
  {
    if q != [] && insts[q[0]].status.canceled then 1 + DropCount(ClearInReadyQ(insts, q[0]), q[1..]) else 0
  }

  /** What dropping canceled tops does: it pops a prefix of the queue, every popped
   *  instruction was canceled and the new top (if any) is not. */
  lemma {:induction false} DropCanceledSpec(insts: map<SeqNum, Inst>, q: seq<SeqNum>)
    requires Within(q, insts.Keys)
    ensures DropCanceled(insts, q).1 == q[DropCount(insts, q)..]
    ensures forall k :: 0 <= k < DropCount(insts, q) ==> insts[q[k]].status.canceled
    ensures DropCount(insts, q) < |q| ==> !insts[q[DropCount(insts, q)]].status.canceled
    decreases |q|
  {
    if q != [] && insts[q[0]].status.canceled {
      var i1 := ClearInReadyQ(insts, q[0]);
      assert Within(q[1..], i1.Keys);
      DropCanceledSpec(i1, q[1..]);
      var d1 := DropCount(i1, q[1..]);
      assert q[1..][d1..] == q[d1 + 1..];
      forall k | 0 <= k < d1 + 1 ensures insts[q[k]].status.canceled {
        if k > 0 {
          assert q[k] == q[1..][k - 1];
          assert i1[q[k]].status.canceled;
        }
      }
      if d1 + 1 < |q| {
        assert q[d1 + 1] == q[1..][d1];
        assert !i1[q[d1 + 1]].status.canceled;
      }
    }
  }

  /** Dropping canceled tops changes in-ready-queue flags alone. */
  lemma {:induction false} DropCanceledFlags(insts: map<SeqNum, Inst>, q: seq<SeqNum>)
    requires Within(q, insts.Keys)
    ensures FlagsOnly(insts, DropCanceled(insts, q).0)
    decreases |q|
  {
    if q != [] && insts[q[0]].status.canceled {
      var i1 := ClearInReadyQ(insts, q[0]);
      FlagsOnlyClear(insts, q[0]);
      assert Within(q[1..], i1.Keys);
      DropCanceledFlags(i1, q[1..]);
      FlagsOnlyTrans(insts, i1, DropCanceled(i1, q[1..]).0);
    }
  }

  lemma SortedSuffix(q: seq<SeqNum>, d: nat)
    requires Sorted(q) && d <= |q|
    ensures Sorted(q[d..])
  {
    forall i, j | 0 <= i < j < |q[d..]| ensures q[d..][i] <= q[d..][j] {
      assert q[d..][i] == q[d + i] && q[d..][j] == q[d + j];
    }
  }

  /** Port pi selecting from ready queue q changes in-ready-queue flags alone, leaves the
   *  other ready queues as they were, keeps queue q ordered, and adds at most one selection,
   *  for port pi. */
  lemma SelectPortFrame(st: SelectSt, q: nat, pi: nat)
    requires q < |st.qs| && QueuesWithin(st.qs, st.insts.Keys)
    ensures var r := SelectPort(st, q, pi);
      && FlagsOnly(st.insts, r.insts)
      && (forall j :: 0 <= j < |r.qs| && j != q ==> r.qs[j] == st.qs[j])
      && (Sorted(st.qs[q]) ==> Sorted(r.qs[q]))
      && (r.sel == st.sel || (r.sel == st.sel + [(pi, r.sel[|st.sel|].1)] && r.sel[|st.sel|].1 in st.insts))
  {
    var qq := st.qs[q];
    DropCanceledSpec(st.insts, qq);
    DropCanceledFlags(st.insts, qq);
    var d := DropCount(st.insts, qq);
    var ins := DropCanceled(st.insts, qq).0;
    if d < |qq| {
      if Sorted(qq) {
        SortedSuffix(qq, d + 1);
      }
      assert qq[d..][1..] == qq[d + 1..];
      FlagsOnlyClear(ins, qq[d]);
      FlagsOnlyTrans(st.insts, ins, ClearInReadyQ(ins, qq[d]));
    } else {
      assert qq[d..] == [];
    }
  }

  /**
   * Which instruction port pi selects from ready queue q, on an ordered queue: when nothing
   * is selected every entry of the queue was canceled, and otherwise the selected
   * instruction is in the queue, is not canceled, and every older entry of the queue was
   * canceled (the oldest live instruction wins).
   */
  lemma SelectPortOldest(st: SelectSt, q: nat, pi: nat)
    requires q < |st.qs| && QueuesWithin(st.qs, st.insts.Keys) && Sorted(st.qs[q])
    ensures var r := SelectPort(st, q, pi);
      && (r.sel == st.sel ==> forall k :: 0 <= k < |st.qs[q]| ==> st.insts[st.qs[q][k]].status.canceled)
      && (r.sel != st.sel ==>
            && |r.sel| == |st.sel| + 1
            && r.sel[|st.sel|].1 in st.qs[q] && !st.insts[r.sel[|st.sel|].1].status.canceled
            && forall k :: 0 <= k < |st.qs[q]| && st.qs[q][k] < r.sel[|st.sel|].1 ==> st.insts[st.qs[q][k]].status.canceled)
  {
    var qq := st.qs[q];
    DropCanceledSpec(st.insts, qq);
    var d := DropCount(st.insts, qq);
    if d < |qq| {
      var top := qq[d];
      assert qq[d..][0] == top;
      forall k | 0 <= k < |qq| && qq[k] < top ensures st.insts[qq[k]].status.canceled {
        assert k < d;
      }
    } else {
      assert qq[d..] == [];
    }
  }

  /** Selection over ports 0 to n - 1 changes in-ready-queue flags alone and keeps the
   *  ready queues ordered. */
  lemma {:induction false} SelectAllFrame(st: SelectSt, portQueue: seq<nat>, n: nat)
    requires n <= |portQueue|
    requires (forall p :: 0 <= p < |portQueue| ==> portQueue[p] < |st.qs|) && QueuesWithin(st.qs, st.insts.Keys)
    requires forall j :: 0 <= j < |st.qs| ==> Sorted(st.qs[j])
    ensures FlagsOnly(st.insts, SelectAll(st, portQueue, n).insts)
    ensures forall j :: 0 <= j < |st.qs| ==> Sorted(SelectAll(st, portQueue, n).qs[j])
  {
    if n > 0 {
      SelectAllFrame(st, portQueue, n - 1);
      var mid := SelectAll(st, portQueue, n - 1);
      SelectPortFrame(mid, portQueue[n - 1], n - 1);
      var r := SelectPort(mid, portQueue[n - 1], n - 1);
      FlagsOnlyTrans(st.insts, mid.insts, r.insts);
      forall j | 0 <= j < |st.qs| ensures Sorted(r.qs[j]) {
        if j != portQueue[n - 1] {
          assert r.qs[j] == mid.qs[j];
        }
      }
    }
  }

  /** Selection from an empty list over ports 0 to n - 1 selects at most one instruction per
   *  port, each with a record, in increasing port order. */
  lemma {:induction false} SelectAllPorts(st: SelectSt, portQueue: seq<nat>, n: nat)
    requires n <= |portQueue| && st.sel == []
    requires (forall p :: 0 <= p < |portQueue| ==> portQueue[p] < |st.qs|) && QueuesWithin(st.qs, st.insts.Keys)
    ensures var r := SelectAll(st, portQueue, n);
      && |r.sel| <= n && (forall k :: 0 <= k < |r.sel| ==> r.sel[k].0 < n && r.sel[k].1 in st.insts)
      && (forall k1, k2 :: 0 <= k1 < k2 < |r.sel| ==> r.sel[k1].0 < r.sel[k2].0)
  {
    if n > 0 {
      SelectAllPorts(st, portQueue, n - 1);
      var mid := SelectAll(st, portQueue, n - 1);
      SelectPortFrame(mid, portQueue[n - 1], n - 1);
      var r := SelectPort(mid, portQueue[n - 1], n - 1);
      if r.sel != mid.sel {
        assert r.sel == mid.sel + [(n - 1, r.sel[|mid.sel|].1)];
        forall k | 0 <= k < |r.sel| ensures r.sel[k].0 < n && r.sel[k].1 in st.insts {
          if k < |mid.sel| {
            assert r.sel[k] == mid.sel[k];
          }
        }
        forall k1, k2 | 0 <= k1 < k2 < |r.sel| ensures r.sel[k1].0 < r.sel[k2].0 {
          assert r.sel[k1] == mid.sel[k1];
          if k2 < |mid.sel| {
            assert r.sel[k2] == mid.sel[k2];
          }
        }
      }
    }
  }

  /** Changing in-ready-queue flags alone keeps the records well formed and the counters
   *  right, so new ready queues and a new selection over the same records keep every
   *  reference valid. */
  lemma FlagsKeep(insts: map<SeqNum, Inst>, insts': map<SeqNum, Inst>, instList: seq<SeqNum>, readyQs: seq<seq<SeqNum>>,
                  selectQ: seq<(nat, SeqNum)>, g: map<nat, seq<Edge>>, inflight: seq<IssueStream>, outports: nat,
                  instNum: nat, opNum: map<OpClass, nat>, qs: seq<seq<SeqNum>>, sel: seq<(nat, SeqNum)>)
    requires RefsOk(insts, instList, readyQs, selectQ, g, inflight, outports) && CountsOk(insts, instNum, opNum)
    requires FlagsOnly(insts, insts') && QueuesWithin(qs, insts.Keys) && SelectWithin(sel, insts.Keys)
    ensures RefsOk(insts', instList, qs, sel, g, inflight, outports) && CountsOk(insts', instNum, opNum)
  {
    forall sn | sn in insts ensures insts'[sn].info == insts[sn].info && insts'[sn].srcReady == insts[sn].srcReady
      && insts'[sn].status.issuePort == insts[sn].status.issuePort && insts'[sn].status.issued == insts[sn].status.issued {
      assert Unflagged(insts'[sn]) == Unflagged(insts[sn]);
    }
    CountsSame(insts, insts', instNum, opNum);
  }

  /** Pushing an instruction with a record onto a stage keeps every stage's slots valid. */
  lemma StagePushWithin(st: seq<IssueStream>, i: nat, x: SeqNum, keys: set<SeqNum>)
    requires i < |st| && StreamOk(st[i]) && st[i].size < StreamSlots && StagesWithin(st, keys) && x in keys
    ensures StagesWithin(st[i := StreamPush(st[i], Some(x))], keys)
  {
  }

  // ---------------------------------------------------------------------
  // Squash (IssueQue::doSquash)

  /** The flags `doSquash` sets on a squashed instruction: squashed in the queue, may commit,
   *  out of the queue, canceled, and issued (it either was or is now marked so). */
  function SquashFlags(rec: Inst): (r: Inst)
    ensures r.info == rec.info && r.srcReady == rec.srcReady && !Counted(r)
  {
    rec.(status := rec.status.(squashedInIQ := true, canCommit := true, inIQ := false, canceled := true, issued := true))
  }

  /** The values the loop of `doSquash` over the instruction list updates. */
  /** The queue fields a squash changes. */
  datatype SquashFields = SquashFields(insts: map<SeqNum, Inst>, instList: seq<SeqNum>, instNum: nat, opNum: map<OpClass, nat>,
                                       portBusy: seq<int>, inflight: seq<IssueStream>, subDepGraph: map<nat, seq<Edge>>)

  datatype SquashSt = SquashSt(insts: map<SeqNum, Inst>, kept: seq<SeqNum>, instNum: nat, opNum: map<OpClass, nat>, portBusy: seq<int>)

  /**
   * One entry sn of the list when squashing everything younger than n: an older one stays in
   * the list; a younger one is flagged and dropped, and is taken off the counters if it had
   * not issued (`POPINST`), or frees its issue port if it had.
   */
  function SquashStep(s: SquashSt, sn: SeqNum, n: SeqNum): (r: SquashSt)
    requires sn in s.insts && CountsOk(s.insts, s.instNum, s.opNum)
    ensures r.insts.Keys == s.insts.Keys && |r.portBusy| == |s.portBusy| && r.instNum <= s.instNum
    ensures CountsOk(r.insts, r.instNum, r.opNum)
    ensures r.kept == s.kept + (if sn <= n then [sn] else [])
  {
    if sn <= n then s.(kept := s.kept + [sn])
    else
      var rec := s.insts[sn];
      var c := rec.info.opClass;
      var port := rec.status.issuePort;
      if !rec.status.issued && c != FmaMulOp then
        CountsRemove(s.insts, s.instNum, s.opNum, sn, SquashFlags(rec));
        s.(insts := s.insts[sn := SquashFlags(rec)], instNum := s.instNum - 1, opNum := s.opNum[c := OpCount(s.opNum, c) - 1])
      else
        CountsKeep(s.insts, s.instNum, s.opNum, sn, SquashFlags(rec));
        s.(insts := s.insts[sn := SquashFlags(rec)],
           portBusy := if rec.status.issued && 0 <= port < |s.portBusy| then s.portBusy[port := 0] else s.portBusy)
  }

  /** The loop of `doSquash` over the list l, front to back. */
  function SquashAll(s: SquashSt, l: seq<SeqNum>, n: SeqNum): (r: SquashSt)
    requires Within(l, s.insts.Keys) && CountsOk(s.insts, s.instNum, s.opNum)
    ensures r.insts.Keys == s.insts.Keys && |r.portBusy| == |s.portBusy| && r.instNum <= s.instNum
    ensures CountsOk(r.insts, r.instNum, r.opNum)
  {
    if l == [] then s else SquashStep(SquashAll(s, l[..|l| - 1], n), l[|l| - 1], n)
  }

  /** The entries of l that are not younger than n, in order. */
  function Survivors(l: seq<SeqNum>, n: SeqNum): (r: seq<SeqNum>)
    ensures forall x :: x in r <==> x in l && x <= n
  {
    if l == [] then [] else (if l[0] <= n then [l[0]] else []) + Survivors(l[1..], n)
  }

  lemma {:induction false} SurvivorsSnoc(l: seq<SeqNum>, x: SeqNum, n: SeqNum)
    ensures Survivors(l + [x], n) == Survivors(l, n) + (if x <= n then [x] else [])
  {
    if l != [] {
      assert (l + [x])[1..] == l[1..] + [x];
      SurvivorsSnoc(l[1..], x, n);
    }
  }

  /** The list keeps exactly the entries not younger than n, in their order. */
  lemma {:induction false} SquashKept(s: SquashSt, l: seq<SeqNum>, n: SeqNum)
    requires Within(l, s.insts.Keys) && CountsOk(s.insts, s.instNum, s.opNum)
    ensures SquashAll(s, l, n).kept == s.kept + Survivors(l, n)
  {
    if l != [] {
      var l', x := l[..|l| - 1], l[|l| - 1];
      assert l == l' + [x];
      SquashKept(s, l', n);
      SurvivorsSnoc(l', x, n);
    }
  }

  lemma SquashStepRecord(s: SquashSt, x: SeqNum, n: SeqNum, sn: SeqNum)
    requires x in s.insts && CountsOk(s.insts, s.instNum, s.opNum) && sn in s.insts
    ensures SquashStep(s, x, n).insts[sn] == if sn == x && x > n then SquashFlags(s.insts[sn]) else s.insts[sn]
  {
  }

  /** A younger entry of the list ends up flagged as squashed; every other record is as it
   *  was. */
  lemma {:induction false} SquashMarks(s: SquashSt, l: seq<SeqNum>, n: SeqNum, sn: SeqNum)
    requires Within(l, s.insts.Keys) && CountsOk(s.insts, s.instNum, s.opNum) && sn in s.insts
    ensures SquashAll(s, l, n).insts[sn] == if sn in l && sn > n then SquashFlags(s.insts[sn]) else s.insts[sn]
  {
    if l != [] {
      var l', x := l[..|l| - 1], l[|l| - 1];
      assert l == l' + [x];
      assert sn in l <==> sn in l' || sn == x;
      SquashMarks(s, l', n, sn);
      SquashStepRecord(SquashAll(s, l', n), x, n, sn);
    }
  }

  lemma SquashStepPorts(s: SquashSt, x: SeqNum, n: SeqNum)
    requires x in s.insts && CountsOk(s.insts, s.instNum, s.opNum)
    ensures var r := SquashStep(s, x, n);
      && (forall p :: 0 <= p < |r.portBusy| ==> r.portBusy[p] == 0 || r.portBusy[p] == s.portBusy[p])
      && (x > n && s.insts[x].status.issued && 0 <= s.insts[x].status.issuePort < |s.portBusy| ==> r.portBusy[s.insts[x].status.issuePort] == 0)
  {
  }

  /** Ports are only ever freed, and the port of every younger instruction that had issued
   *  is free afterwards. */
  lemma {:induction false} SquashPorts(s: SquashSt, l: seq<SeqNum>, n: SeqNum)
    requires Within(l, s.insts.Keys) && CountsOk(s.insts, s.instNum, s.opNum)
    ensures var r := SquashAll(s, l, n);
      && (forall p :: 0 <= p < |r.portBusy| ==> r.portBusy[p] == 0 || r.portBusy[p] == s.portBusy[p])
      && forall k :: 0 <= k < |l| && l[k] > n && s.insts[l[k]].status.issued && 0 <= s.insts[l[k]].status.issuePort < |s.portBusy| ==>
           r.portBusy[s.insts[l[k]].status.issuePort] == 0
  {
    if l != [] {
      var l', x := l[..|l| - 1], l[|l| - 1];
      assert l == l' + [x];
      SquashPorts(s, l', n);
      SquashMarks(s, l', n, x);
      var mid := SquashAll(s, l', n);
      SquashStepPorts(mid, x, n);
      var r := SquashStep(mid, x, n);
      forall k | 0 <= k < |l| && l[k] > n && s.insts[l[k]].status.issued && 0 <= s.insts[l[k]].status.issuePort < |s.portBusy|
        ensures r.portBusy[s.insts[l[k]].status.issuePort] == 0
      {
        if k < |l| - 1 {
          assert l[k] == l'[k];
        } else {
          assert mid.insts[x].status.issued && mid.insts[x].status.issuePort == s.insts[x].status.issuePort;
        }
      }
    }
  }

  /** The loop of `doSquash` over the instruction list. */
  method SquashList(s0: SquashSt, l: seq<SeqNum>, n: SeqNum) returns (s: SquashSt)
    requires Within(l, s0.insts.Keys) && CountsOk(s0.insts, s0.instNum, s0.opNum)
    ensures s == SquashAll(s0, l, n)
  {
    s := s0;
    for i := 0 to |l|
      invariant s == SquashAll(s0, l[..i], n)
    {
      assert l[..i + 1][..i] == l[..i];
      s := SquashOne(s, l[i], n);
    }
    assert l[..|l|] == l;
  }

  /** The body of the loop of `doSquash`. */
  method SquashOne(s: SquashSt, sn: SeqNum, n: SeqNum) returns (r: SquashSt)
    requires sn in s.insts && CountsOk(s.insts, s.instNum, s.opNum)
    ensures r == SquashStep(s, sn, n)
  {
    if sn <= n {
      r := s.(kept := s.kept + [sn]);
    } else {
      var rec := s.insts[sn];
      var c := rec.info.opClass;
      var port := rec.status.issuePort;
      if !rec.status.issued && c != FmaMulOp {
        CountsRemove(s.insts, s.instNum, s.opNum, sn, SquashFlags(rec));
        r := s.(insts := s.insts[sn := SquashFlags(rec)], instNum := s.instNum - 1, opNum := s.opNum[c := OpCount(s.opNum, c) - 1]);
      } else {
        var pb := if rec.status.issued && 0 <= port < |s.portBusy| then s.portBusy[port := 0] else s.portBusy;
        r := s.(insts := s.insts[sn := SquashFlags(rec)], portBusy := pb);
      }
    }
  }

  /** The dependency list with the entries of `dead` consumers erased, in order. */
  function KeepEdges(es: seq<Edge>, dead: set<SeqNum>): (r: seq<Edge>)
    ensures forall e :: e in r <==> e in es && e.1 !in dead
  {
    if es == [] then [] else (if es[0].1 in dead then [] else [es[0]]) + KeepEdges(es[1..], dead)
  }

  /** Every dependency list with the entries of `dead` consumers erased. */
  function KeepGraph(g: map<nat, seq<Edge>>, dead: set<SeqNum>): (r: map<nat, seq<Edge>>)
    ensures r.Keys == g.Keys && forall x :: x in r ==> r[x] == KeepEdges(g[x], dead)
  {
    map x | x in g :: KeepEdges(g[x], dead)
  }

  /** Emptying slots keeps every stage's slots valid. */
  lemma StagesNullWithin(st: seq<IssueStream>, st': seq<IssueStream>, keys: set<SeqNum>)
    requires StagesWithin(st, keys) && |st'| == |st|
    requires forall i :: 0 <= i < |st| ==> st'[i].size == st[i].size && |st'[i].insts| == |st[i].insts|
    requires forall i, j :: 0 <= i < |st| && 0 <= j < |st[i].insts| ==> st'[i].insts[j] == st[i].insts[j] || st'[i].insts[j] == None
    ensures StagesWithin(st', keys)
  {
  }

  /** The squash of the instruction list keeps every reference valid (the records stay, the
   *  list only loses entries), and erasing squashed consumers from the graph keeps it valid. */
  lemma SquashKeeps(insts: map<SeqNum, Inst>, instList: seq<SeqNum>, readyQs: seq<seq<SeqNum>>, selectQ: seq<(nat, SeqNum)>,
                    g: map<nat, seq<Edge>>, inflight: seq<IssueStream>, outports: nat, instNum: nat, opNum: map<OpClass, nat>,
                    portBusy: seq<int>, n: SeqNum, dead: set<SeqNum>)
    requires RefsOk(insts, instList, readyQs, selectQ, g, inflight, outports) && CountsOk(insts, instNum, opNum)
    ensures var r := SquashAll(SquashSt(insts, [], instNum, opNum, portBusy), instList, n);
      RefsOk(r.insts, r.kept, readyQs, selectQ, KeepGraph(g, dead), inflight, outports)
  {
    var s0 := SquashSt(insts, [], instNum, opNum, portBusy);
    var r := SquashAll(s0, instList, n);
    SquashKept(s0, instList, n);
    forall sn | sn in insts ensures r.insts[sn].info == insts[sn].info && r.insts[sn].srcReady == insts[sn].srcReady
      && r.insts[sn].status.issuePort == insts[sn].status.issuePort {
      SquashMarks(s0, instList, n, sn);
    }
    forall k | 0 <= k < |r.kept| ensures r.kept[k] in insts {
      assert r.kept[k] in Survivors(instList, n);
    }
  }

  // ---------------------------------------------------------------------
  // Load cancel, one queue's part (the edge loop of Scheduler::loadCancel)

  /** The (instruction, source index) pairs whose source is marked ready. */
  ghost function ReadyBits(insts: map<SeqNum, Inst>): set<(SeqNum, nat)>
  {
    set sn, k | sn in insts && 0 <= k < |insts[sn].srcReady| && insts[sn].srcReady[k] :: (sn, k)
  }

  /** Whether a dependency entry is one `loadCancel` revokes: the consumer's source is marked
   *  ready and is not the all-ones vector register. Fixed-mapped sources never have entries,
   *  and are passed over. */
  predicate Revokes(insts: map<SeqNum, Inst>, e: Edge)
  {
    var (k, c) := e;
    c in insts && k < |insts[c].srcReady| && k < |insts[c].info.srcs| && insts[c].srcReady[k]
    && !insts[c].info.srcs[k].vecOnes && !insts[c].info.srcs[k].fixed
  }

  /** A revoked entry: the consumer is canceled and its source is no longer ready. */
  function CancelOne(insts: map<SeqNum, Inst>, e: Edge): (r: map<SeqNum, Inst>)
    requires Revokes(insts, e)
    ensures r.Keys == insts.Keys
  {
    var (k, c) := e;
    insts[c := insts[c].(srcReady := insts[c].srcReady[k := false], status := insts[c].status.(canceled := true))]
  }

  /** The entries of es in order: the revoked ones update their consumer, which is pushed. */
  function CancelAll(insts: map<SeqNum, Inst>, es: seq<Edge>): (r: (map<SeqNum, Inst>, seq<SeqNum>))
    ensures r.0.Keys == insts.Keys && forall i :: 0 <= i < |r.1| ==> r.1[i] in insts
  {
    if es == [] then (insts, [])
    else
      var mid := CancelAll(insts, es[..|es| - 1]);
      var e := es[|es| - 1];
      if Revokes(mid.0, e) then (CancelOne(mid.0, e), mid.1 + [e.1]) else mid
  }

  /** A revoked entry clears exactly one ready bit. */
  lemma CancelOneBits(insts: map<SeqNum, Inst>, e: Edge)
    requires Revokes(insts, e)
    ensures ReadyBits(CancelOne(insts, e)) == ReadyBits(insts) - {(e.1, e.0)} && (e.1, e.0) in ReadyBits(insts)
  {
    var r := CancelOne(insts, e);
    forall p | p in ReadyBits(r) ensures p in ReadyBits(insts) && p != (e.1, e.0) {
      var (sn, k) := p;
      assert sn in r && k < |r[sn].srcReady| && r[sn].srcReady[k];
    }
    forall p | p in ReadyBits(insts) && p != (e.1, e.0) ensures p in ReadyBits(r) {
      var (sn, k) := p;
      assert r[sn].srcReady[k];
    }
  }

  /** Every pushed consumer costs one ready bit: the ready bits only shrink, by as many as
   *  consumers are pushed. This bounds the depth-first search of `loadCancel`. */
  lemma {:induction false} CancelAllBits(insts: map<SeqNum, Inst>, es: seq<Edge>)
    ensures var r := CancelAll(insts, es);
      ReadyBits(r.0) <= ReadyBits(insts) && |ReadyBits(r.0)| + |r.1| == |ReadyBits(insts)|
  {
    if es != [] {
      var mid := CancelAll(insts, es[..|es| - 1]);
      CancelAllBits(insts, es[..|es| - 1]);
      var e := es[|es| - 1];
      if Revokes(mid.0, e) {
        CancelOneBits(mid.0, e);
      }
    }
  }

  /** Records only lose ready bits and gain the cancel flag; nothing else of them changes. */
  predicate LessReady(a: Inst, b: Inst)
  {
    && b.info == a.info && |b.srcReady| == |a.srcReady|
    && b.status == a.status.(canceled := b.status.canceled)
    && forall k :: 0 <= k < |b.srcReady| && b.srcReady[k] ==> a.srcReady[k]
  }

  /** A record only loses ready bits and gains the cancel flag. */
  lemma {:induction false} CancelAllLess(insts: map<SeqNum, Inst>, es: seq<Edge>, c: SeqNum)
    requires c in insts
    ensures LessReady(insts[c], CancelAll(insts, es).0[c])
  {
    if es != [] {
      CancelAllLess(insts, es[..|es| - 1], c);
      var mid := CancelAll(insts, es[..|es| - 1]).0;
      var e := es[|es| - 1];
      if Revokes(mid, e) && e.1 == c {
        var r := CancelOne(mid, e)[c];
        assert r.info == mid[c].info && r.status == mid[c].status.(canceled := true);
        assert forall k :: 0 <= k < |r.srcReady| && r.srcReady[k] ==> mid[c].srcReady[k];
      } else {
        assert CancelAll(insts, es).0[c] == mid[c];
      }
    }
  }

  /** A record that was canceled, or lost a ready bit, is canceled afterwards. */
  lemma {:induction false} CancelAllCanceled(insts: map<SeqNum, Inst>, es: seq<Edge>, c: SeqNum)
    requires c in insts
    ensures var r := CancelAll(insts, es).0[c];
      && (insts[c].status.canceled ==> r.status.canceled)
      && forall k :: 0 <= k < |r.srcReady| && k < |insts[c].srcReady| && insts[c].srcReady[k] && !r.srcReady[k] ==> r.status.canceled
  {
    if es != [] {
      CancelAllCanceled(insts, es[..|es| - 1], c);
      var mid := CancelAll(insts, es[..|es| - 1]).0;
      var e := es[|es| - 1];
      if Revokes(mid, e) && e.1 == c {
        assert CancelOne(mid, e)[c].status.canceled;
      } else {
        assert CancelAll(insts, es).0[c] == mid[c];
      }
    }
  }

  /**
   * After the loop no entry of the list leaves its consumer's source marked ready (unless it
   * is the all-ones vector register or fixed-mapped), and every consumer whose source was
   * revoked is canceled.
   */
  lemma {:induction false} CancelAllClears(insts: map<SeqNum, Inst>, es: seq<Edge>, i: nat)
    requires i < |es|
    ensures !Revokes(CancelAll(insts, es).0, es[i])
    ensures es[i].1 in insts && Revokes(insts, es[i]) ==> CancelAll(insts, es).0[es[i].1].status.canceled
  {
    var mid := CancelAll(insts, es[..|es| - 1]);
    var e := es[|es| - 1];
    if i < |es| - 1 {
      CancelAllClears(insts, es[..|es| - 1], i);
      assert es[..|es| - 1][i] == es[i];
      if Revokes(mid.0, e) {
        if e.1 == es[i].1 {
          assert CancelOne(mid.0, e)[e.1].status.canceled;
        }
      }
      if es[i].1 in insts && Revokes(insts, es[i]) {
        assert mid.0[es[i].1].status.canceled;
      }
    } else if es[i].1 in insts && Revokes(insts, es[i]) && !Revokes(mid.0, e) {
      CancelAllLess(insts, es[..|es| - 1], e.1);
      CancelAllCanceled(insts, es[..|es| - 1], e.1);
    }
  }

  /** b comes from a by canceling: the same instructions, each only losing ready bits of
   *  sources that are not fixed-mapped and keeping or gaining its cancel flag. */
  predicate CancelStep(a: map<SeqNum, Inst>, b: map<SeqNum, Inst>)
  {
    a.Keys == b.Keys && forall c :: c in a ==>
      && LessReady(a[c], b[c]) && (a[c].status.canceled ==> b[c].status.canceled)
      && (WellFormed(a[c]) ==> WellFormed(b[c]))
  }

  /** Canceling keeps every reference valid and the counters right. */
  lemma CancelStepKeeps(insts: map<SeqNum, Inst>, b: map<SeqNum, Inst>, instList: seq<SeqNum>, readyQs: seq<seq<SeqNum>>,
                        selectQ: seq<(nat, SeqNum)>, g: map<nat, seq<Edge>>, inflight: seq<IssueStream>, outports: nat,
                        instNum: nat, opNum: map<OpClass, nat>)
    requires RefsOk(insts, instList, readyQs, selectQ, g, inflight, outports) && CountsOk(insts, instNum, opNum)
    requires CancelStep(insts, b)
    ensures RefsOk(b, instList, readyQs, selectQ, g, inflight, outports) && CountsOk(b, instNum, opNum)
  {
    CountsSame(insts, b, instNum, opNum);
  }

  lemma CancelStepTrans(a: map<SeqNum, Inst>, b: map<SeqNum, Inst>, c: map<SeqNum, Inst>)
    requires CancelStep(a, b) && CancelStep(b, c)
    ensures CancelStep(a, c)
  {
    forall sn | sn in a ensures LessReady(a[sn], c[sn]) {
      LessReadyTrans(a[sn], b[sn], c[sn]);
    }
  }

  lemma LessReadyTrans(x: Inst, y: Inst, z: Inst)
    requires LessReady(x, y) && LessReady(y, z)
    ensures LessReady(x, z)
  {
    assert z.status == y.status.(canceled := z.status.canceled) == x.status.(canceled := z.status.canceled);
  }

  /** No entry of register x's dependency list leaves its consumer's source marked ready. */
  predicate Closed(insts: map<SeqNum, Inst>, g: map<nat, seq<Edge>>, x: nat)
  {
    forall i :: 0 <= i < |Edges(g, x)| ==> !Revokes(insts, Edges(g, x)[i])
  }

  /** Canceling never marks a source ready again, so a closed list stays closed. */
  lemma ClosedStep(a: map<SeqNum, Inst>, b: map<SeqNum, Inst>, g: map<nat, seq<Edge>>, x: nat)
    requires CancelStep(a, b) && Closed(a, g, x)
    ensures Closed(b, g, x)
  {
    forall i | 0 <= i < |Edges(g, x)| ensures !Revokes(b, Edges(g, x)[i]) {
      var (k, c) := Edges(g, x)[i];
      if c in b && k < |b[c].srcReady| && b[c].srcReady[k] {
        assert a[c].srcReady[k];
      }
    }
  }

  /** The edge loop over a list cancels, closes the list, and returns every instruction it
   *  newly canceled. */
  lemma CancelAllFacts(insts: map<SeqNum, Inst>, es: seq<Edge>)
    ensures var r := CancelAll(insts, es);
      && CancelStep(insts, r.0)
      && (forall i :: 0 <= i < |es| ==> !Revokes(r.0, es[i]))
      && forall c :: c in insts && r.0[c].status.canceled && !insts[c].status.canceled ==> c in r.1
  {
    var r := CancelAll(insts, es);
    forall c | c in insts
      ensures LessReady(insts[c], r.0[c]) && (insts[c].status.canceled ==> r.0[c].status.canceled)
      ensures WellFormed(insts[c]) ==> WellFormed(r.0[c])
    {
      CancelAllLess(insts, es, c);
      CancelAllCanceled(insts, es, c);
      if WellFormed(insts[c]) {
        CancelAllFixed(insts, es, c);
      }
    }
    forall i | 0 <= i < |es| ensures !Revokes(r.0, es[i]) {
      CancelAllClears(insts, es, i);
    }
    forall c | c in insts && r.0[c].status.canceled && !insts[c].status.canceled ensures c in r.1 {
      CancelAllPushes(insts, es, c);
    }
  }

  /** An instruction the loop cancels is one it returns. */
  lemma {:induction false} CancelAllPushes(insts: map<SeqNum, Inst>, es: seq<Edge>, c: SeqNum)
    requires c in insts && !insts[c].status.canceled && CancelAll(insts, es).0[c].status.canceled
    ensures c in CancelAll(insts, es).1
  {
    var mid := CancelAll(insts, es[..|es| - 1]);
    var e := es[|es| - 1];
    if mid.0[c].status.canceled {
      CancelAllPushes(insts, es[..|es| - 1], c);
    } else {
      assert Revokes(mid.0, e) && e.1 == c;
    }
  }

  /** The edge loop of `loadCancel` over one dependency list. */
  method CancelLoop(insts: map<SeqNum, Inst>, es: seq<Edge>) returns (ins: map<SeqNum, Inst>, pushed: seq<SeqNum>)
    ensures (ins, pushed) == CancelAll(insts, es)
  {
    ins, pushed := insts, [];
    for i := 0 to |es|
      invariant (ins, pushed) == CancelAll(insts, es[..i])
    {
      assert es[..i + 1][..i] == es[..i];
      var (k, c) := es[i];
      if c in ins && k < |ins[c].srcReady| && k < |ins[c].info.srcs| && ins[c].srcReady[k]
         && !ins[c].info.srcs[k].vecOnes && !ins[c].info.srcs[k].fixed {
        ins := ins[c := ins[c].(srcReady := ins[c].srcReady[k := false], status := ins[c].status.(canceled := true))];
        pushed := pushed + [c];
      }
    }
    assert es[..|es|] == es;
  }

  /** A fixed-mapped source stays ready. */
  lemma {:induction false} CancelAllFixed(insts: map<SeqNum, Inst>, es: seq<Edge>, c: SeqNum)
    requires c in insts && WellFormed(insts[c])
    ensures WellFormed(CancelAll(insts, es).0[c])
  {
    if es != [] {
      CancelAllFixed(insts, es[..|es| - 1], c);
    }
  }

  /** `replayQsize`. */
  const ReplayQSize: nat := 32

  /** Two ports' op classes are the same set or have nothing in common. */
  predicate AllSame(ops: seq<set<OpClass>>)
  {
    forall i, j :: 0 <= i < |ops| && 0 <= j < |ops| ==> ops[i] == ops[j]
  }

  predicate PairwiseDisjoint(ops: seq<set<OpClass>>)
  {
    forall i, j :: 0 <= i < j < |ops| ==> ops[i] !! ops[j]
  }

  /** The op classes a port's units execute, with whether each is pipelined, in list order. */
  function Mask(port: seq<(OpClass, bool)>): set<OpClass>
  {
    set k | 0 <= k < |port| :: port[k].0
  }

  function Masks(ports: seq<seq<(OpClass, bool)>>): (r: seq<set<OpClass>>)
    ensures |r| == |ports| && forall i :: 0 <= i < |ports| ==> r[i] == Mask(ports[i])
  {
    seq(|ports|, i requires 0 <= i < |ports| => Mask(ports[i]))
  }

  /** No op class is listed twice in one port. */
  predicate ClassesDistinct(port: seq<(OpClass, bool)>)
  {
    forall k, l :: 0 <= k < l < |port| ==> port[k].0 != port[l].0
  }

  /**
   * What the constructor accepts without a panic: at most 8 ports (at least one, since
   * the first port is read unconditionally), their op-class sets all identical or pairwise
   * disjoint, no op class listed twice in a port that is classified, and only integer or
   * floating-point read ports.
   */
  predicate PortsAccepted(ports: seq<seq<(OpClass, bool)>>, rp: seq<seq<nat>>)
  {
    && PortsClassifiable(ports) && |rp| == |ports|
    && (forall p, k :: 0 <= p < |rp| && 0 <= k < |rp[p]| ==> RfGetTypeId(rp[p][k]) < 2)
  }

  predicate PortsClassifiable(ports: seq<seq<(OpClass, bool)>>)
  {
    && 1 <= |ports| <= StreamSlots
    && (AllSame(Masks(ports)) || PairwiseDisjoint(Masks(ports)))
    && (forall p :: 0 <= p < (if AllSame(Masks(ports)) then 1 else |ports|) ==> ClassesDistinct(ports[p]))
  }

  /** The ports' unit descriptions, each port's put in front of those before it. */
  function RevConcat(ports: seq<seq<(OpClass, bool)>>): seq<(OpClass, bool)>
  {
    if ports == [] then [] else RevConcat(ports[1..]) + ports[0]
  }

  /** `fuDescs`: the first port's units when all ports are alike, otherwise every port's,
   *  the last port's first. */
  function FuDescs(ports: seq<seq<(OpClass, bool)>>, same: bool): seq<(OpClass, bool)>
    requires |ports| >= 1
  {
    if same then ports[0] else RevConcat(ports)
  }

  /** Every unit description's op class is one the ports' classes cover. */
  lemma {:induction false} RevConcatClassified(ports: seq<seq<(OpClass, bool)>>, classify: map<OpClass, nat>)
    requires forall p, l :: 0 <= p < |ports| && 0 <= l < |ports[p]| ==> ports[p][l].0 in classify
    ensures forall k :: 0 <= k < |RevConcat(ports)| ==> RevConcat(ports)[k].0 in classify
  {
    if ports != [] {
      var rest := ports[1..];
      assert forall p, l :: 0 <= p < |rest| && 0 <= l < |rest[p]| ==> rest[p][l] == ports[p + 1][l];
      RevConcatClassified(rest, classify);
      var r, t := RevConcat(ports), RevConcat(rest);
      assert r == t + ports[0];
      forall k | 0 <= k < |r| ensures r[k].0 in classify {
        if k < |t| {
          assert r[k] == t[k];
        } else {
          assert r[k] == ports[0][k - |t|];
        }
      }
    }
  }

  lemma FuDescsClassified(ports: seq<seq<(OpClass, bool)>>, same: bool, classify: map<OpClass, nat>)
    requires |ports| >= 1
    requires forall p, l :: 0 <= p < |ports| && 0 <= l < |ports[p]| ==> ports[p][l].0 in classify
    ensures forall k :: 0 <= k < |FuDescs(ports, same)| ==> FuDescs(ports, same)[k].0 in classify
  {
    if !same {
      RevConcatClassified(ports, classify);
    }
  }

  /** The (type-port id, priority) pairs of the read ports of register-file type `t`, in order. */
  function DecodeReadPorts(rp: seq<nat>, t: nat): (r: seq<(nat, nat)>)
    ensures |r| <= |rp|
    ensures forall k :: 0 <= k < |r| ==> r[k].0 < 16 * (t + 1) && r[k].1 < 4
  {
    if rp == [] then []
    else
      var x := rp[|rp| - 1];
      var last := if RfGetTypeId(x) == t then [(RfMakeTypePortId(t, RfGetPortId(x)), RfGetPriority(x))] else [];
      DecodeReadPorts(rp[..|rp| - 1], t) + last
  }

  /** The port count at which `portBusy` counts down: one less per cycle, never below zero
   *  once there. */
  function CountDown(t: int): (r: int)
    ensures t > 0 ==> r == t - 1
    ensures t <= 0 ==> r == t
  {
    if t > 0 then t - 1 else t
  }

  /**
   * The constructor's classification loop: every op class of the classified ports (the first
   * one when all are identical, all of them otherwise) is mapped to its port's ready queue,
   * with the `pipelined` flag its unit gives.
   */
  method ClassifyPorts(ports: seq<seq<(OpClass, bool)>>, same: bool) returns (cls: map<OpClass, nat>, pip: map<OpClass, bool>)
    requires PortsClassifiable(ports) && same == AllSame(Masks(ports))
    ensures forall c :: c in cls ==> cls[c] < (if same then 1 else |ports|)
    ensures forall p, k :: 0 <= p < |ports| && 0 <= k < |ports[p]| ==> ports[p][k].0 in cls && cls[ports[p][k].0] == if same then 0 else p
    ensures cls.Keys == pip.Keys
  {
    cls, pip := map[], map[];
    var used := if same then 1 else |ports|;
    for pi := 0 to used
      invariant forall c :: c in cls ==> cls[c] < used
      invariant cls.Keys == pip.Keys
      invariant forall p, k :: 0 <= p < pi && 0 <= k < |ports[p]| ==> ports[p][k].0 in cls && cls[ports[p][k].0] == p
    {
      for k := 0 to |ports[pi]|
        invariant forall c :: c in cls ==> cls[c] < used
        invariant cls.Keys == pip.Keys
        invariant forall p, l :: 0 <= p < pi && 0 <= l < |ports[p]| ==> ports[p][l].0 in cls && cls[ports[p][l].0] == p
        invariant forall l :: 0 <= l < k ==> ports[pi][l].0 in cls && cls[ports[pi][l].0] == pi
      {
        var (c, pipelined) := ports[pi][k];
        forall p, l | 0 <= p < pi && 0 <= l < |ports[p]| ensures ports[p][l].0 != c {
          assert ports[p][l].0 in Masks(ports)[p] && c in Masks(ports)[pi];
        }
        cls := cls[c := pi];
        pip := pip[c := pipelined];
      }
    }
    if same {
      forall p, k | 0 <= p < |ports| && 0 <= k < |ports[p]| ensures ports[p][k].0 in cls && cls[ports[p][k].0] == 0 {
        assert ports[p][k].0 in Masks(ports)[p];
        assert Masks(ports)[p] == Masks(ports)[0];
        var l :| 0 <= l < |ports[0]| && ports[0][l].0 == ports[p][k].0;
      }
    }
  }

  /** The record and ready queues `insert` leaves: the ready bits of the sources updated, the
   *  queue's index recorded and, unless the instruction is a memory reference, `addIfReady`
   *  applied. */
  function Inserted(rec: Inst, pending: set<nat>, early: set<nat>, iqId: nat, qs: seq<seq<SeqNum>>, classify: map<OpClass, nat>): (r: (Inst, seq<seq<SeqNum>>))
    requires WellFormed(rec) && QueuesOk(qs, classify)
    ensures QueuesOk(r.1, classify) && |r.1| == |qs| && r.0.info == rec.info
    ensures r.0.srcReady == InsertReady(rec.info.srcs, rec.srcReady, pending, early)
    ensures r.0.status == rec.status.(issueQue := iqId, canceled := r.0.status.canceled, inReadyQ := r.0.status.inReadyQ)
  {
    var r1 := rec.(srcReady := InsertReady(rec.info.srcs, rec.srcReady, pending, early), status := rec.status.(issueQue := iqId));
    if rec.info.isMemRef then (r1, qs) else AddIfReadyQ(r1, qs, classify)
  }

  /** The ready bits `insert` leaves: a source ready before stays ready, and a source still
   *  not ready is one that waits on its register. */
  lemma InsertReadyBits(srcs: seq<PhysReg>, ready: seq<bool>, pending: set<nat>, early: set<nat>)
    requires |srcs| == |ready| && forall k :: 0 <= k < |srcs| && srcs[k].fixed ==> ready[k]
    ensures var r := InsertReady(srcs, ready, pending, early);
      && (forall k :: 0 <= k < |ready| && ready[k] ==> r[k])
      && (forall k :: 0 <= k < |ready| && !r[k] ==> Waits(srcs, ready, pending, k))
  {
  }

  /** A waiting source is among the entries insertion appends. */
  lemma {:induction false} WaitListHas(sn: SeqNum, srcs: seq<PhysReg>, ready: seq<bool>, pending: set<nat>, m: nat, k: nat)
    requires k < m <= |srcs| == |ready| && Waits(srcs, ready, pending, k)
    ensures (srcs[k].flat, (k, sn)) in WaitList(sn, srcs, ready, pending, m)
  {
    if k < m - 1 {
      WaitListHas(sn, srcs, ready, pending, m - 1, k);
    }
  }

  lemma {:induction false} EntriesForHas(l: seq<(nat, Edge)>, x: nat, e: Edge)
    requires (x, e) in l
    ensures e in EntriesFor(l, x)
  {
    if l[|l| - 1] != (x, e) {
      assert l == l[..|l| - 1] + [l[|l| - 1]];
      EntriesForHas(l[..|l| - 1], x, e);
    }
  }

  /** No wake-up is lost: every source `insert` leaves not ready has an entry in the
   *  dependency list of its register. */
  lemma InsertNoLostWakeup(sn: SeqNum, srcs: seq<PhysReg>, ready: seq<bool>, g: map<nat, seq<Edge>>, pending: set<nat>, early: set<nat>)
    requires |srcs| == |ready| && forall k :: 0 <= k < |srcs| && srcs[k].fixed ==> ready[k]
    ensures forall k :: 0 <= k < |srcs| && !InsertReady(srcs, ready, pending, early)[k] ==>
      (k, sn) in Edges(AddEdges(g, WaitList(sn, srcs, ready, pending, |srcs|)), srcs[k].flat)
  {
    var wl := WaitList(sn, srcs, ready, pending, |srcs|);
    InsertReadyBits(srcs, ready, pending, early);
    forall k | 0 <= k < |srcs| && !InsertReady(srcs, ready, pending, early)[k]
      ensures (k, sn) in Edges(AddEdges(g, wl), srcs[k].flat)
    {
      WaitListHas(sn, srcs, ready, pending, |srcs|, k);
      EntriesForHas(wl, srcs[k].flat, (k, sn));
      AddEdgesLists(g, wl, srcs[k].flat);
    }
  }

  /** An instruction none of whose sources waits leaves `insert` ready to issue and, unless it is
   *  a memory reference, marked as in the ready queue of its class. */
  lemma InsertedNoWait(rec: Inst, pending: set<nat>, early: set<nat>, iqId: nat, qs: seq<seq<SeqNum>>, classify: map<OpClass, nat>)
    requires WellFormed(rec) && QueuesOk(qs, classify)
    requires forall k :: 0 <= k < |rec.info.srcs| ==> !Waits(rec.info.srcs, rec.srcReady, pending, k)
    ensures var r := Inserted(rec, pending, early, iqId, qs, classify).0;
      ReadyToIssue(r) && (!rec.info.isMemRef && rec.info.opClass in classify ==> r.status.inReadyQ)
  {
    NoWaitIsReady(rec, pending, early);
  }

  /** `insert` keeps every reference valid and the counters exact: the new record may be
   *  referred to by the instruction list, the ready queues and the dependency lists, and it
   *  adds one to both counters unless the counters exempt it. */
  lemma InsertKeeps(rec: Inst, pending: set<nat>, early: set<nat>, iqId: nat, insts: map<SeqNum, Inst>, instList: seq<SeqNum>,
                    instNum: nat, opNum: map<OpClass, nat>, readyQs: seq<seq<SeqNum>>, selectQ: seq<(nat, SeqNum)>,
                    g: map<nat, seq<Edge>>, inflight: seq<IssueStream>, outports: nat, classify: map<OpClass, nat>)
    requires RefsOk(insts, instList, readyQs, selectQ, g, inflight, outports) && CountsOk(insts, instNum, opNum)
    requires QueuesOk(readyQs, classify)
    requires rec.info.seqNum !in insts && WellFormed(rec) && !rec.status.issued && rec.status.issuePort < outports
    ensures var sn, c := rec.info.seqNum, rec.info.opClass;
      var res := Inserted(rec, pending, early, iqId, readyQs, classify);
      var insts' := insts[sn := res.0];
      && RefsOk(insts', instList + [sn], res.1, selectQ, AddEdges(g, WaitList(sn, rec.info.srcs, rec.srcReady, pending, |rec.info.srcs|)), inflight, outports)
      && (c != FmaMulOp ==> CountsOk(insts', instNum + 1, opNum[c := OpCount(opNum, c) + 1]))
      && (c == FmaMulOp ==> CountsOk(insts', instNum, opNum))
  {
    var sn := rec.info.seqNum;
    var res := Inserted(rec, pending, early, iqId, readyQs, classify);
    InsertReadyBits(rec.info.srcs, rec.srcReady, pending, early);
    if rec.info.opClass != FmaMulOp {
      CountsAdd(insts, instNum, opNum, res.0);
    } else {
      CountsAddExempt(insts, instNum, opNum, res.0);
    }
    RefsAdd(insts, instList, readyQs, selectQ, g, inflight, outports, res.0);
    WaitListConsumer(sn, rec.info.srcs, rec.srcReady, pending, |rec.info.srcs|);
    AddEdgesWithin(g, WaitList(sn, rec.info.srcs, rec.srcReady, pending, |rec.info.srcs|), insts.Keys + {sn});
    if !rec.info.isMemRef {
      var r1 := rec.(srcReady := InsertReady(rec.info.srcs, rec.srcReady, pending, early), status := rec.status.(issueQue := iqId));
      AddIfReadyQWithin(r1, readyQs, classify, insts.Keys + {sn});
    }
  }

  /** `inflightIssues.advance()`: every issue stage moves one stage on and stage 0 starts empty. */
  function AdvanceStages(st: seq<IssueStream>): (r: seq<IssueStream>)
    requires |st| > 0
    ensures |r| == |st| && r[0] == EmptyStream()
    ensures forall i :: 0 < i < |r| ==> r[i] == st[i - 1]
  {
    [EmptyStream()] + st[..|st| - 1]
  }

  /** Advancing k times. */
  function AdvanceTimes(st: seq<IssueStream>, k: nat): (r: seq<IssueStream>)
    requires |st| > 0
    ensures |r| == |st|
  {
    if k == 0 then st else AdvanceStages(AdvanceTimes(st, k - 1))
  }

  /** What is pushed to `toIssue` (stage 0) reaches `toFu` (stage `scheduleToExecDelay`, the
   *  last one) after exactly `scheduleToExecDelay` advances; in general stage i reaches stage
   *  i + k after k advances. */
  lemma {:induction false} AdvanceReaches(st: seq<IssueStream>, k: nat, i: nat)
    requires |st| > 0 && i + k < |st|
    ensures AdvanceTimes(st, k)[i + k] == st[i]
  {
    if k > 0 {
      AdvanceReaches(st, k - 1, i);
    }
  }

  lemma AdvanceWithin(st: seq<IssueStream>, keys: set<SeqNum>)
    requires |st| > 0 && StagesWithin(st, keys) && forall i :: 0 <= i < |st| ==> StreamOk(st[i])
    ensures StagesWithin(AdvanceStages(st), keys) && forall i :: 0 <= i < |st| ==> StreamOk(AdvanceStages(st)[i])
  {
    var r := AdvanceStages(st);
    forall i, j | 0 <= i < |r| && 0 <= j < r[i].size && j < |r[i].insts| && r[i].insts[j].Some?
      ensures r[i].insts[j].value in keys
    {
      assert i > 0 && r[i] == st[i - 1];
    }
  }

  /** The length of the run of instructions at the front of `l` that `doCommit(n)` retires:
   *  those with sequence numbers up to n. */
  function CommitRun(l: seq<SeqNum>, n: SeqNum): (r: nat)
    ensures r <= |l| && (forall k :: 0 <= k < r ==> l[k] <= n) && (r < |l| ==> l[r] > n)
  {
    if l == [] || l[0] > n then 0 else 1 + CommitRun(l[1..], n)
  }

  /** `portBusy` after a tick: every positive count goes down by one. */
  method CountDownPorts(pb: seq<int>) returns (r: seq<int>)
    ensures |r| == |pb| && forall i :: 0 <= i < |pb| ==> r[i] == CountDown(pb[i])
  {
    r := pb;
    for i := 0 to |pb|
      invariant |r| == |pb|
      invariant forall j :: 0 <= j < |pb| ==> r[j] == if j < i then CountDown(pb[j]) else pb[j]
    {
      r := r[i := if r[i] > 0 then r[i] - 1 else r[i]];
    }
  }

  class IssueQue {
    const iqId: nat
    const inports: nat
    const outports: nat
    const iqsize: nat
    const scheduleToExecDelay: nat
    /** `readyQs`: the ready queue port p selects from. When all ports have identical units they
     *  share a single queue (index 0); otherwise port p has queue p. */
    const portQueue: seq<nat>
    const numReadyQs: nat
    /** `readyQclassify`: the ready queue of each op class the queue's units execute. */
    const classify: map<OpClass, nat>
    const opPipelined: map<OpClass, bool>
    /** Per port, the (type-port id, priority) of the read port each source index uses. */
    const intRfTypePortId: seq<seq<(nat, nat)>>
    const fpRfTypePortId: seq<seq<(nat, nat)>>
    /** `fuDescs`: the (op class, pipelined) descriptions of the units the scheduler reads. */
    const fuDescs: seq<(OpClass, bool)>

    /** The records of the instructions inserted into this queue (`DynInst` objects stay alive
     *  while anything refers to them; here they are never dropped). */
    var insts: map<SeqNum, Inst>
    var instList: seq<SeqNum>
    var instNumInsert: nat
    var instNum: nat
    var opNum: map<OpClass, nat>
    var portBusy: seq<int>
    var readyQs: seq<seq<SeqNum>>
    var selectQ: seq<(nat, SeqNum)>
    var subDepGraph: map<nat, seq<Edge>>
    var replayQ: seq<SeqNum>
    /** `inflightIssues`: stage i is `inflightIssues[-i]`; stage 0 is `toIssue` and stage
     *  `scheduleToExecDelay` is `toFu`. */
    var inflight: seq<IssueStream>

    ghost predicate Config()
    {
      && |portQueue| == outports && 1 <= outports <= StreamSlots
      && |intRfTypePortId| == outports && |fpRfTypePortId| == outports
      && (forall p :: 0 <= p < outports ==> portQueue[p] < numReadyQs)
      && (forall c :: c in classify ==> classify[c] < numReadyQs)
    }

    ghost predicate Shape()
      reads this`portBusy, this`readyQs, this`inflight, this`selectQ
    {
      && |portBusy| == outports && |readyQs| == numReadyQs
      && (forall q :: 0 <= q < |readyQs| ==> Sorted(readyQs[q]))
      && |inflight| == scheduleToExecDelay + 1
      && (forall i :: 0 <= i < |inflight| ==> StreamOk(inflight[i]))
      && |selectQ| <= outports
      && (forall k :: 0 <= k < |selectQ| ==> selectQ[k].0 < outports)
    }

    ghost predicate Refs()
      reads this`insts, this`instList, this`readyQs, this`selectQ, this`subDepGraph, this`inflight
    {
      RefsOk(insts, instList, readyQs, selectQ, subDepGraph, inflight, outports)
    }

    ghost predicate Counts()
      reads this`insts, this`instNum, this`opNum
    {
      CountsOk(insts, instNum, opNum) && instNum <= iqsize
    }

    /** The queue at any point of a cycle. */
    ghost predicate Core()
      reads this
    {
      Config() && Shape() && Refs() && Counts()
    }

    /** The queue between cycles: `toIssue` is empty until `scheduleInst` fills it. */
    ghost predicate Valid()
      reads this
    {
      Core() && inflight[0].size == 0
    }

    constructor (iqId: nat, inports: nat, iqsize: nat, scheduleToExecDelay: nat,
                 ports: seq<seq<(OpClass, bool)>>, rp: seq<seq<nat>>)
      requires PortsAccepted(ports, rp)
      ensures Valid()
      ensures this.iqId == iqId && this.inports == inports && this.iqsize == iqsize
      ensures this.scheduleToExecDelay == scheduleToExecDelay && outports == |ports|
      ensures numReadyQs == if AllSame(Masks(ports)) then 1 else |ports|
      ensures forall p :: 0 <= p < |ports| ==> portQueue[p] == if AllSame(Masks(ports)) then 0 else p
      ensures forall p, k :: 0 <= p < |ports| && 0 <= k < |ports[p]| ==> ports[p][k].0 in classify && classify[ports[p][k].0] == portQueue[p]
      ensures forall p :: 0 <= p < |ports| ==> intRfTypePortId[p] == DecodeReadPorts(rp[p], RfIntId) && fpRfTypePortId[p] == DecodeReadPorts(rp[p], RfFpId)
      ensures fuDescs == FuDescs(ports, AllSame(Masks(ports))) && DescsClassified()
      ensures insts == map[] && instList == [] && instNum == 0 && instNumInsert == 0 && opNum == map[]
      ensures portBusy == seq(|ports|, _ => 0) && readyQs == seq(numReadyQs, _ => []) && selectQ == []
      ensures subDepGraph == map[] && replayQ == [] && inflight == seq(scheduleToExecDelay + 1, _ => EmptyStream())
    {
      var same := AllSame(Masks(ports));
      this.iqId, this.inports, this.iqsize, this.scheduleToExecDelay := iqId, inports, iqsize, scheduleToExecDelay;
      outports := |ports|;
      var nq := if same then 1 else |ports|;
      numReadyQs := nq;
      portQueue := seq(|ports|, p => if same then 0 else p);
      intRfTypePortId := seq(|ports|, p requires 0 <= p < |ports| => DecodeReadPorts(rp[p], RfIntId));
      fpRfTypePortId := seq(|ports|, p requires 0 <= p < |ports| => DecodeReadPorts(rp[p], RfFpId));
      var cls, pip := ClassifyPorts(ports, same);
      classify, opPipelined := cls, pip;
      fuDescs := FuDescs(ports, same);
      FuDescsClassified(ports, same, cls);
      insts, instList, instNumInsert, instNum, opNum := map[], [], 0, 0, map[];
      portBusy := seq(|ports|, _ => 0);
      readyQs := seq(nq, _ => []);
      selectQ, subDepGraph, replayQ := [], map[], [];
      inflight := seq(scheduleToExecDelay + 1, _ => EmptyStream());
    }

    /** Every op class of the unit descriptions has a ready queue. */
    predicate DescsClassified()
    {
      forall k :: 0 <= k < |fuDescs| ==> fuDescs[k].0 in classify
    }

    /** `full()`: the entries taken (counted plus inserted this cycle) reach the size, or the
     *  replay queue holds more than `replayQsize`. */
    predicate Full()
      reads this`instNumInsert, this`instNum, this`replayQ
    {
      instNumInsert + instNum >= iqsize || |replayQ| > ReplayQSize
    }

    /** `ready()`: not full, and fewer than `inports` insertions this cycle. A ready queue has
     *  room for one more counted instruction. */
    predicate Ready()
      reads this`instNumInsert, this`instNum, this`replayQ
      ensures Ready() ==> instNum < iqsize && instNumInsert < inports
    {
      !Full() && instNumInsert < inports
    }

    /** `emptyEntries()`: never negative, and at most the size, in a valid queue. */
    function EmptyEntries(): (n: int)
      reads this`instNum, this`insts, this`opNum
      ensures Counts() ==> 0 <= n <= iqsize
      ensures n == 0 <==> instNum == iqsize
    {
      iqsize - instNum
    }

    /** `idle()`: true when some ready queue or the replay queue holds an instruction. */
    method Idle() returns (idle: bool)
      requires Shape()
      ensures idle <==> replayQ != [] || exists q :: 0 <= q < |readyQs| && readyQs[q] != []
    {
      idle := false;
      for q := 0 to |readyQs|
        invariant idle <==> exists j :: 0 <= j < q && readyQs[j] != []
      {
        if readyQs[q] != [] {
          idle := true;
        }
      }
      idle := idle || |replayQ| > 0;
    }

    /** `clearBusy(pi)`: frees port pi; an index outside the ports is the out-of-range error
     *  of `vector::at`. */
    method ClearBusy(pi: nat) returns (ok: bool)
      requires Shape()
      modifies this`portBusy
      ensures Shape()
      ensures ok <==> pi < outports
      ensures ok ==> portBusy == old(portBusy)[pi := 0]
      ensures !ok ==> portBusy == old(portBusy)
    {
      ok := pi < |portBusy|;
      if ok {
        portBusy := portBusy[pi := 0];
      }
    }

    /** The state `insert` of rec leaves, from the given earlier state: the counters go up by
     *  one unless rec is an FMA multiply, the dependency lists take rec's waiting sources, and
     *  rec's record and the ready queues are what `Inserted` gives. */
    ghost predicate InsertDone(rec: Inst, pending: set<nat>, early: set<nat>, insts0: map<SeqNum, Inst>, instNum0: nat,
                               instNumInsert0: nat, opNum0: map<OpClass, nat>, g0: map<nat, seq<Edge>>, qs0: seq<seq<SeqNum>>)
      reads this
    {
      var c := rec.info.opClass;
      && WellFormed(rec) && QueuesOk(qs0, classify)
      && instNum == instNum0 + (if c != FmaMulOp then 1 else 0)
      && instNumInsert == instNumInsert0 + (if c != FmaMulOp then 1 else 0)
      && opNum == (if c != FmaMulOp then opNum0[c := OpCount(opNum0, c) + 1] else opNum0)
      && subDepGraph == AddEdges(g0, WaitList(rec.info.seqNum, rec.info.srcs, rec.srcReady, pending, |rec.info.srcs|))
      && var res := Inserted(rec, pending, early, iqId, qs0, classify);
         insts == insts0[rec.info.seqNum := res.0] && readyQs == res.1
    }

    /**
     * `insert`: counts the instruction unless it is an FMA multiply, records it and appends it
     * to the instruction list, registers its waiting sources in the dependency lists, and,
     * unless it is a memory reference (whose dependences the memory-dependence unit tracks),
     * passes it to `addIfReady`. An instruction with no waiting source is ready to issue.
     */
    method Insert(rec: Inst, pending: set<nat>, early: set<nat>)
      requires Valid()
      requires rec.info.seqNum !in insts && WellFormed(rec) && !rec.status.issued && rec.status.issuePort < outports
      requires rec.info.opClass != FmaMulOp ==> instNum < iqsize
      modifies this`insts, this`instList, this`instNum, this`instNumInsert, this`opNum, this`subDepGraph, this`readyQs
      ensures Valid()
      ensures instList == old(instList) + [rec.info.seqNum]
      ensures InsertDone(rec, pending, early, old(insts), old(instNum), old(instNumInsert), old(opNum), old(subDepGraph), old(readyQs))
    {
      var sn := rec.info.seqNum;
      var ready', g', added := RegisterSources(sn, rec.info.srcs, rec.srcReady, subDepGraph, pending, early);
      InsertKeeps(rec, pending, early, iqId, insts, instList, instNum, opNum, readyQs, selectQ, subDepGraph, inflight, outports, classify);
      var res := Inserted(rec, pending, early, iqId, readyQs, classify);
      var c, d := rec.info.opClass, if rec.info.opClass != FmaMulOp then 1 else 0;
      Store(insts[sn := res.0], instList + [sn], g', res.1,
            if d == 1 then opNum[c := OpCount(opNum, c) + 1] else opNum, instNum + d, instNumInsert + d);
    }

    /** Replaces the record-keeping state by values that keep every reference valid and the
     *  counters exact. */
    method Store(insts': map<SeqNum, Inst>, instList': seq<SeqNum>, g: map<nat, seq<Edge>>, qs: seq<seq<SeqNum>>,
                 opNum': map<OpClass, nat>, instNum': nat, instNumInsert': nat)
      requires Config() && Shape() && inflight[0].size == 0 && |qs| == numReadyQs && QueuesOk(qs, classify)
      requires RefsOk(insts', instList', qs, selectQ, g, inflight, outports) && CountsOk(insts', instNum', opNum') && instNum' <= iqsize
      modifies this`insts, this`instList, this`instNum, this`instNumInsert, this`opNum, this`subDepGraph, this`readyQs
      ensures Valid()
      ensures insts == insts' && instList == instList' && subDepGraph == g && readyQs == qs
      ensures opNum == opNum' && instNum == instNum' && instNumInsert == instNumInsert'
    {
      insts, instList, subDepGraph, readyQs, opNum, instNum, instNumInsert := insts', instList', g, qs, opNum', instNum', instNumInsert';
    }

    /** `markMemDepDone`: the memory dependence of a memory reference is solved and the
     *  instruction goes through `addIfReady`. */
    method MarkMemDepDone(sn: SeqNum)
      requires Valid() && sn in insts && insts[sn].info.isMemRef
      modifies this`insts, this`readyQs
      ensures Valid()
      ensures var rec := old(insts)[sn];
        var res := AddIfReadyQ(rec.(status := rec.status.(memDepSolved := true)), old(readyQs), classify);
        insts == old(insts)[sn := res.0] && readyQs == res.1
    {
      var rec := insts[sn];
      var rec1 := rec.(status := rec.status.(memDepSolved := true));
      var res := AddIfReadyQ(rec1, readyQs, classify);
      AddIfReadyQWithin(rec1, readyQs, classify, insts.Keys);
      ReplaceKeeps(insts, instList, readyQs, selectQ, subDepGraph, inflight, outports, instNum, opNum, sn, res.0, res.1);
      insts, readyQs := insts[sn := res.0], res.1;
    }

    /**
     * `selectInst`: each port in turn drops the canceled tops of its ready queue and selects
     * the top, asking for its read ports. The queue stays consistent, and the selection is
     * at most one instruction per port (see SelectAllPorts and SelectPortOldest).
     */
    method SelectInst(a0: RfArbiter) returns (a: RfArbiter)
      requires Core()
      modifies this`insts, this`readyQs, this`selectQ
      ensures Core()
      ensures var r := SelectAll(SelectSt(old(insts), old(readyQs), []), portQueue, outports);
        insts == r.insts && readyQs == r.qs && selectQ == r.sel
      ensures forall k :: 0 <= k < |selectQ| ==> selectQ[k].1 in insts && selectQ[k].0 < outports
      ensures a == ArbitrateSel(a0, insts, selectQ, intRfTypePortId, fpRfTypePortId, iqId)
    {
      var st0 := SelectSt(insts, readyQs, []);
      var st, b := SelectLoop(st0, a0, portQueue, intRfTypePortId, fpRfTypePortId, iqId, outports);
      SelectAllFrame(st0, portQueue, outports);
      SelectAllPorts(st0, portQueue, outports);
      FlagsKeep(insts, st.insts, instList, readyQs, selectQ, subDepGraph, inflight, outports, instNum, opNum, st.qs, st.sel);
      insts, readyQs, selectQ, a := st.insts, st.qs, st.sel, b;
    }

    /**
     * One entry of the loop of `scheduleInst` (issue stage 0), for the k-th selection: a
     * canceled instruction is dropped; one whose read-port arbitration failed is marked and
     * pushed back onto its ready queue to retry; any other leaves the queue, is pushed onto
     * stage 0 with its issue port recorded, and is returned so that the scheduler wakes its
     * dependents speculatively. Every selected instruction has its arbitration flag cleared.
     */
    method ScheduleOne(k: nat) returns (x: Option<SeqNum>)
      requires Core() && k < |selectQ| && inflight[0].size <= k
      modifies this`insts, this`readyQs, this`inflight
      ensures Core() && inflight[0].size <= k + 1
      ensures var pi, sn := old(selectQ)[k].0, old(selectQ)[k].1;
        var rec := old(insts)[sn];
        var st := rec.status.(arbFailed := false);
        if rec.status.canceled then
          && x == None && insts == old(insts)[sn := rec.(status := st)]
          && readyQs == old(readyQs) && inflight == old(inflight)
        else if rec.status.arbFailed then
          && x == None && insts == old(insts)[sn := rec.(status := st.(inReadyQ := true))]
          && readyQs == PushClass(old(readyQs), classify, rec.info.opClass, sn) && inflight == old(inflight)
        else
          && x == Some(sn) && insts == old(insts)[sn := rec.(status := st.(inIQ := false, issuePort := pi))]
          && readyQs == old(readyQs) && inflight == old(inflight)[0 := StreamPush(old(inflight)[0], Some(sn))]
    {
      var pi, sn := selectQ[k].0, selectQ[k].1;
      var rec := insts[sn];
      var st := rec.status.(arbFailed := false);
      if rec.status.canceled {
        ReplaceKeeps(insts, instList, readyQs, selectQ, subDepGraph, inflight, outports, instNum, opNum, sn, rec.(status := st), readyQs);
        StoreSchedule(insts[sn := rec.(status := st)], readyQs, inflight);
        x := None;
      } else if rec.status.arbFailed {
        var qs := PushClass(readyQs, classify, rec.info.opClass, sn);
        PushClassWithin(readyQs, classify, rec.info.opClass, sn, insts.Keys);
        ReplaceKeeps(insts, instList, readyQs, selectQ, subDepGraph, inflight, outports, instNum, opNum, sn, rec.(status := st.(inReadyQ := true)), qs);
        StoreSchedule(insts[sn := rec.(status := st.(inReadyQ := true))], qs, inflight);
        x := None;
      } else {
        var r := rec.(status := st.(inIQ := false, issuePort := pi));
        ReplaceKeeps(insts, instList, readyQs, selectQ, subDepGraph, inflight, outports, instNum, opNum, sn, r, readyQs);
        StagePushWithin(inflight, 0, sn, insts.Keys);
        StoreSchedule(insts[sn := r], readyQs, inflight[0 := StreamPush(inflight[0], Some(sn))]);
        x := Some(sn);
      }
    }

    /** Sets the records, the ready queues and the issue stages of a consistent queue. */
    method StoreSchedule(insts': map<SeqNum, Inst>, qs: seq<seq<SeqNum>>, inflight': seq<IssueStream>)
      requires Config() && Shape() && |qs| == numReadyQs && QueuesOk(qs, classify)
      requires |inflight'| == |inflight| && forall i :: 0 <= i < |inflight'| ==> StreamOk(inflight'[i])
      requires RefsOk(insts', instList, qs, selectQ, subDepGraph, inflight', outports) && CountsOk(insts', instNum, opNum) && instNum <= iqsize
      modifies this`insts, this`readyQs, this`inflight
      ensures Core() && insts == insts' && readyQs == qs && inflight == inflight'
    {
      insts, readyQs, inflight := insts', qs, inflight';
    }

    /** The fields `doSquash` changes. */
    ghost function Squashable(): SquashFields
      reads this
    {
      SquashFields(insts, instList, instNum, opNum, portBusy, inflight, subDepGraph)
    }

    /**
     * The queue after squashing everything younger than n, from the fields v: the records,
     * list, counters and ports are what `SquashAll` gives; the list keeps the survivors; each
     * younger listed record is flagged squashed and the others are untouched; the dependency
     * lists lose the squashed consumers; and the stages keep their sizes, hold no squashed
     * instruction and only lose entries.
     */
    ghost predicate SquashDone(n: SeqNum, v: SquashFields)
      reads this
    {
      && Within(v.instList, v.insts.Keys) && CountsOk(v.insts, v.instNum, v.opNum)
      && (var r := SquashAll(SquashSt(v.insts, [], v.instNum, v.opNum, v.portBusy), v.instList, n);
          insts == r.insts && instList == r.kept && instNum == r.instNum && opNum == r.opNum && portBusy == r.portBusy)
      && instList == Survivors(v.instList, n)
      && (forall sn :: sn in v.insts ==> sn in insts && insts[sn] == if sn in v.instList && sn > n then SquashFlags(v.insts[sn]) else v.insts[sn])
      && subDepGraph == KeepGraph(v.subDepGraph, SquashedSet(insts))
      && |inflight| == |v.inflight|
      && forall i :: 0 <= i < |inflight| ==>
        && StreamOk(inflight[i]) && StreamOk(v.inflight[i])
        && inflight[i].size == v.inflight[i].size
        && (forall j :: 0 <= j < inflight[i].size ==> inflight[i].insts[j] == None || inflight[i].insts[j].value !in SquashedSet(insts))
        && (forall j :: 0 <= j < StreamSlots ==> inflight[i].insts[j] == v.inflight[i].insts[j] || inflight[i].insts[j] == None)
    }

    /**
     * `doSquash`: every instruction of the list younger than n is flagged as squashed,
     * canceled and issued, leaves the list and the counters (or frees its issue port if it
     * had issued); then the issue stages drop, and the dependency lists erase, every
     * instruction the core has squashed.
     */
    method DoSquash(n: SeqNum)
      requires Core()
      modifies this`insts, this`instList, this`instNum, this`opNum, this`portBusy, this`inflight, this`subDepGraph
      ensures Core() && SquashDone(n, old(Squashable()))
    {
      var s0 := SquashSt(insts, [], instNum, opNum, portBusy);
      var r := SquashList(s0, instList, n);
      SquashKept(s0, instList, n);
      forall sn | sn in insts ensures r.insts[sn] == if sn in instList && sn > n then SquashFlags(insts[sn]) else insts[sn] {
        SquashMarks(s0, instList, n, sn);
      }
      var dead := SquashedSet(r.insts);
      var st := NullOutStages(inflight, dead);
      SquashKeeps(insts, instList, readyQs, selectQ, subDepGraph, inflight, outports, instNum, opNum, portBusy, n, dead);
      StagesNullWithin(inflight, st, r.insts.Keys);
      StoreSquash(r, st, KeepGraph(subDepGraph, dead));
    }

    /** Sets what the squash changes, on a consistent queue. */
    method StoreSquash(r: SquashSt, st: seq<IssueStream>, g: map<nat, seq<Edge>>)
      requires Config() && Shape() && |r.portBusy| == |portBusy|
      requires |st| == |inflight| && forall i :: 0 <= i < |st| ==> StreamOk(st[i])
      requires RefsOk(r.insts, r.kept, readyQs, selectQ, g, st, outports) && CountsOk(r.insts, r.instNum, r.opNum) && r.instNum <= iqsize
      modifies this`insts, this`instList, this`instNum, this`opNum, this`portBusy, this`inflight, this`subDepGraph
      ensures Core() && readyQs == old(readyQs) && selectQ == old(selectQ)
      ensures insts == r.insts && instList == r.kept && instNum == r.instNum && opNum == r.opNum && portBusy == r.portBusy
      ensures inflight == st && subDepGraph == g
    {
      insts, instList, instNum, opNum, portBusy, inflight, subDepGraph := r.insts, r.kept, r.instNum, r.opNum, r.portBusy, st, g;
    }

    /** `setCancel` on an instruction of this queue. */
    method SetCancel(sn: SeqNum)
      requires Core() && sn in insts
      modifies this`insts
      ensures Core() && insts == old(insts)[sn := old(insts)[sn].(status := old(insts)[sn].status.(canceled := true))]
    {
      var rec := insts[sn];
      ReplaceKeeps(insts, instList, readyQs, selectQ, subDepGraph, inflight, outports, instNum, opNum, sn, rec.(status := rec.status.(canceled := true)), readyQs);
      insts := insts[sn := rec.(status := rec.status.(canceled := true))];
    }

    /** `setArbFailed` on an instruction of this queue. */
    method SetArbFailed(sn: SeqNum)
      requires Core() && sn in insts
      modifies this`insts
      ensures Core() && insts == old(insts)[sn := old(insts)[sn].(status := old(insts)[sn].status.(arbFailed := true))]
    {
      var rec := insts[sn];
      ReplaceKeeps(insts, instList, readyQs, selectQ, subDepGraph, inflight, outports, instNum, opNum, sn, rec.(status := rec.status.(arbFailed := true)), readyQs);
      insts := insts[sn := rec.(status := rec.status.(arbFailed := true))];
    }

    /** The records after the search of `loadCancel`, which only cancels. */
    method StoreCanceled(ins: map<SeqNum, Inst>)
      requires Core() && CancelStep(insts, ins)
      modifies this`insts
      ensures Core() && insts == ins
    {
      CancelStepKeeps(insts, ins, instList, readyQs, selectQ, subDepGraph, inflight, outports, instNum, opNum);
      insts := ins;
    }

    /** The end of `loadCancel` for this queue: the issue stages drop every canceled
     *  instruction. */
    method ClearCanceledStages()
      requires Core()
      modifies this`inflight
      ensures Core() && |inflight| == |old(inflight)| && forall i :: 0 <= i < |inflight| ==>
        && inflight[i].size == old(inflight)[i].size
        && (forall j :: 0 <= j < inflight[i].size ==> inflight[i].insts[j] == None || inflight[i].insts[j].value !in CanceledSet(insts))
        && (forall j :: 0 <= j < StreamSlots ==> inflight[i].insts[j] == old(inflight)[i].insts[j] || inflight[i].insts[j] == None)
    {
      var st := NullOutStages(inflight, CanceledSet(insts));
      StagesNullWithin(inflight, st, insts.Keys);
      inflight := st;
    }

    /** The replay of `issueToFu` when the instruction's port is busy: it is marked as in a
     *  ready queue and pushed to the ready queue of its class again (a class
     *  without a ready queue is not pushed, as in `addIfReady`). */
    method Replay(sn: SeqNum)
      requires Core() && sn in insts
      modifies this`insts, this`readyQs
      ensures Core()
      ensures var rec := old(insts)[sn];
        && insts == old(insts)[sn := rec.(status := rec.status.(inReadyQ := true))]
        && readyQs == PushClass(old(readyQs), classify, rec.info.opClass, sn)
    {
      var rec := insts[sn];
      var qs := PushClass(readyQs, classify, rec.info.opClass, sn);
      PushClassWithin(readyQs, classify, rec.info.opClass, sn, insts.Keys);
      ReplaceKeeps(insts, instList, readyQs, selectQ, subDepGraph, inflight, outports, instNum, opNum, sn, rec.(status := rec.status.(inReadyQ := true)), qs);
      insts, readyQs := insts[sn := rec.(status := rec.status.(inReadyQ := true))], qs;
    }

    /**
     * `addToFu`: an instruction issued twice is the panic of `addToFu` (`ok` false, nothing
     * changes). Otherwise it is marked issued and leaves the counters (`POPINST`, whose asserts
     * hold: both counters it decrements are non-zero).
     */
    method AddToFu(sn: SeqNum) returns (ok: bool)
      requires Core() && sn in insts
      modifies this`insts, this`instNum, this`opNum
      ensures Core()
      ensures ok <==> !old(insts)[sn].status.issued
      ensures !ok ==> insts == old(insts) && instNum == old(instNum) && opNum == old(opNum)
      ensures ok ==> var rec, c := old(insts)[sn], old(insts)[sn].info.opClass;
        && insts == old(insts)[sn := rec.(status := rec.status.(issued := true))]
        && (c != FmaMulOp ==> old(instNum) > 0 && OpCount(old(opNum), c) > 0
                              && instNum == old(instNum) - 1 && opNum == old(opNum)[c := OpCount(old(opNum), c) - 1])
        && (c == FmaMulOp ==> instNum == old(instNum) && opNum == old(opNum))
    {
      var rec := insts[sn];
      ok := !rec.status.issued;
      if ok {
        var rec1, c := rec.(status := rec.status.(issued := true)), rec.info.opClass;
        var d := if c != FmaMulOp then 1 else 0;
        IssueKeeps(insts, instList, readyQs, selectQ, subDepGraph, inflight, outports, instNum, opNum, sn);
        insts, instNum, opNum := insts[sn := rec1], instNum - d, if d == 1 then opNum[c := OpCount(opNum, c) - 1] else opNum;
      }
    }

    /** `retryMem`: a memory instruction to be sent to the units again joins the replay queue. */
    method RetryMem(sn: SeqNum)
      modifies this`replayQ
      ensures replayQ == old(replayQ) + [sn]
    {
      replayQ := replayQ + [sn];
    }

    /** `issueToFu` on a non-pipelined op: its port stays busy for the op's latency less one. */
    method SetPortBusy(pi: nat, opLat: nat)
      requires Shape() && pi < outports
      modifies this`portBusy
      ensures Shape() && portBusy == old(portBusy)[pi := opLat - 1]
    {
      portBusy := portBusy[pi := opLat - 1];
    }

    /**
     * The replay-queue drain that ends `issueToFu`: counting on from `size` (the instructions
     * that were in `toFu`), the oldest replayed instructions are sent to the units while the
     * count is below the number of ports.
     */
    method DrainReplay(size: nat) returns (out: seq<SeqNum>)
      modifies this`replayQ
      ensures var m := DrainCount(size, outports, |old(replayQ)|);
        out == old(replayQ)[..m] && replayQ == old(replayQ)[m..]
    {
      out := [];
      var i := size;
      while replayQ != [] && i < outports
        invariant size <= i && |out| == i - size && (i <= outports || i == size)
        invariant old(replayQ) == out + replayQ
        decreases outports - i
      {
        out, replayQ := out + [replayQ[0]], replayQ[1..];
        i := i + 1;
      }
      assert out == old(replayQ)[..|out|] && replayQ == old(replayQ)[|out|..];
    }

    /** The counter part of `tick`: the insertions of the cycle are forgotten and every busy
     *  port counts down. */
    method TickCounters()
      requires Shape()
      modifies this`instNumInsert, this`portBusy
      ensures Shape() && instNumInsert == 0
      ensures |portBusy| == |old(portBusy)| && forall i :: 0 <= i < |portBusy| ==> portBusy[i] == CountDown(old(portBusy)[i])
    {
      instNumInsert := 0;
      portBusy := CountDownPorts(portBusy);
    }

    /** The end of `tick`: the issue stages advance; `toIssue` is empty again. */
    method Advance()
      requires Core()
      modifies this`inflight
      ensures Valid() && inflight == AdvanceStages(old(inflight))
    {
      AdvanceWithin(inflight, insts.Keys);
      inflight := AdvanceStages(inflight);
    }

    /** One `toFu->pop()` of `issueToFu`: the last instruction pushed to the stage that reached
     *  the units (an emptied slot gives none). */
    method PopToFu() returns (x: Option<SeqNum>)
      requires Core() && inflight[scheduleToExecDelay].size > 0
      modifies this`inflight
      ensures Core()
      ensures var d := scheduleToExecDelay;
        |inflight| == |old(inflight)| && (forall i :: 0 <= i < |inflight| && i != d ==> inflight[i] == old(inflight)[i])
        && Live(old(inflight)[d]) == Live(inflight[d]) + [x]
      ensures x.Some? ==> x.value in insts
    {
      var d := scheduleToExecDelay;
      var res := StreamPop(inflight[d]);
      assert StagesWithin(inflight, insts.Keys);
      inflight := inflight[d := res.0];
      x := res.1;
    }

    /** `doCommit(n)`: the instructions at the front of the list up to n leave it; each of them
     *  must have been issued (the assert of `doCommit`). */
    method DoCommit(n: SeqNum)
      requires Core()
      requires forall k :: 0 <= k < CommitRun(instList, n) ==> insts[instList[k]].status.issued
      modifies this`instList
      ensures Core() && instList == old(instList)[CommitRun(old(instList), n)..]
    {
      ghost var m := 0;
      while instList != [] && instList[0] <= n
        invariant m <= CommitRun(old(instList), n) && instList == old(instList)[m..]
        decreases |instList|
      {
        instList, m := instList[1..], m + 1;
      }
    }

    /**
     * `wakeUpDependents` with `speculative` set (from `specWakeUpDependents`): a producer with
     * destinations `dsts` wakes the entries of the dependency lists of its destinations (each
     * not fixed-mapped and with exactly one pinned write to complete), in order; a canceled
     * producer wakes nothing. The lists stay as they are.
     */
    method SpecWake(dsts: seq<PhysReg>, canceled: bool)
      requires Core()
      modifies this`insts, this`readyQs
      ensures Core()
      ensures canceled ==> insts == old(insts) && readyQs == old(readyQs)
      ensures !canceled ==> WakeState(insts, readyQs) == WakeAll(WakeState(old(insts), old(readyQs)), WokenEdges(subDepGraph, dsts), classify)
    {
      if canceled {
        return;
      }
      var es := WokenEdges(subDepGraph, dsts);
      var w := WakeConsumers(WakeState(insts, readyQs), es, classify);
      WakeKeeps(insts, instList, readyQs, selectQ, inflight, outports, instNum, opNum, classify, es, subDepGraph, subDepGraph);
      insts, readyQs := w.insts, w.qs;
    }

    /**
     * `wakeUpDependents` from `writebackWakeup` (not speculative): the entries of the
     * dependency lists of the destinations are woken in order, whatever the producer's cancel
     * flag, and the lists it woke are emptied.
     */
    method WritebackWake(dsts: seq<PhysReg>)
      requires Core()
      modifies this`insts, this`readyQs, this`subDepGraph
      ensures Core()
      ensures WakeState(insts, readyQs) == WakeAll(WakeState(old(insts), old(readyQs)), WokenEdges(old(subDepGraph), dsts), classify)
      ensures subDepGraph == ClearWoken(old(subDepGraph), dsts)
    {
      var es := WokenEdges(subDepGraph, dsts);
      var w := WakeConsumers(WakeState(insts, readyQs), es, classify);
      var g := ClearWoken(subDepGraph, dsts);
      ClearWokenWithin(subDepGraph, dsts, insts.Keys);
      WakeKeeps(insts, instList, readyQs, selectQ, inflight, outports, instNum, opNum, classify, es, subDepGraph, g);
      insts, readyQs, subDepGraph := w.insts, w.qs, g;
    }
  }
}
