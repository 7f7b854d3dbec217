/**
 * The scheduler that drives the issue queues (`Scheduler` in src/cpu/o3/issue_queue.cc):
 * the dispatch and latency tables, the three scoreboards, the speculative wake-up network,
 * the register-file read-port arbitration of a select cycle, and the load-cancel search.
 */
module IssueScheduler {
  import opened Common
  import opened IssueQueue

  // ---------------------------------------------------------------------
  // Configuration tables (the constructor)

  /** One op description of a functional unit: op class, latency, pipelined. */
  type OpDesc = (OpClass, nat, bool)

  /** `opExecTimeTable`, `opPipelined` and `dispTable`, the latter as queue indices. */
  datatype OpTables = OpTables(lat: map<OpClass, nat>, pipelined: map<OpClass, bool>, disp: map<OpClass, seq<nat>>)

  /** The queues listed for class c (`dispTable[c]`, empty by default). */
  function Disp(d: map<OpClass, seq<nat>>, c: OpClass): seq<nat>
  {
    if c in d then d[c] else []
  }

  /** `opExecTimeTable[c]`: 1 for a class no unit lists. */
  function OpLatency(lat: map<OpClass, nat>, c: OpClass): nat
  {
    if c in lat then lat[c] else 1
  }

  /** `opPipelined[c]`: false for a class no unit lists. */
  predicate OpPipelined(p: map<OpClass, bool>, c: OpClass)
  {
    c in p && p[c]
  }

  /** One op description of queue i: its latency and pipelining overwrite the class's entry,
   *  and queue i is appended to the class's dispatch list. */
  function AddDesc(t: OpTables, i: nat, o: OpDesc): OpTables
  {
    OpTables(t.lat[o.0 := o.1], t.pipelined[o.0 := o.2], t.disp[o.0 := Disp(t.disp, o.0) + [i]])
  }

  function AddQueueDescs(t: OpTables, i: nat, ds: seq<OpDesc>): OpTables
  {
    if ds == [] then t else AddDesc(AddQueueDescs(t, i, ds[..|ds| - 1]), i, ds[|ds| - 1])
  }

  /** The tables after every queue's op descriptions, queue by queue and in list order. */
  function BuildTables(ops: seq<seq<OpDesc>>): OpTables
  {
    if ops == [] then OpTables(map[], map[], map[])
    else AddQueueDescs(BuildTables(ops[..|ops| - 1]), |ops| - 1, ops[|ops| - 1])
  }

  /** The op descriptions of a queue are its units' descriptions, each with a latency. */
  predicate DescribesUnits(ds: seq<OpDesc>, units: seq<(OpClass, bool)>)
  {
    |ds| == |units| && forall k :: 0 <= k < |ds| ==> ds[k].0 == units[k].0 && ds[k].2 == units[k].1
  }

  predicate Lists(ds: seq<OpDesc>, c: OpClass)
  {
    exists j :: 0 <= j < |ds| && ds[j].0 == c
  }

  lemma {:induction false} AddQueueDescsDisp(t: OpTables, i: nat, ds: seq<OpDesc>, c: OpClass, q: nat)
    ensures q in Disp(AddQueueDescs(t, i, ds).disp, c) <==> q in Disp(t.disp, c) || (q == i && Lists(ds, c))
    ensures (c in AddQueueDescs(t, i, ds).lat <==> c in t.lat || Lists(ds, c))
    ensures !Lists(ds, c) ==> (
      && Disp(AddQueueDescs(t, i, ds).disp, c) == Disp(t.disp, c)
      && (c in t.lat ==> AddQueueDescs(t, i, ds).lat[c] == t.lat[c])
      && (c in t.pipelined <==> c in AddQueueDescs(t, i, ds).pipelined)
      && (c in t.pipelined ==> AddQueueDescs(t, i, ds).pipelined[c] == t.pipelined[c]))
  {
    if ds != [] {
      var init := ds[..|ds| - 1];
      AddQueueDescsDisp(t, i, init, c, q);
      if Lists(ds, c) && !Lists(init, c) {
        assert ds[|ds| - 1].0 == c;
      }
      if Lists(init, c) {
        var j :| 0 <= j < |init| && init[j].0 == c;
        assert ds[j].0 == c;
      }
    }
  }

  /**
   * The dispatch list of a class names exactly the queues that list it (`dispTable` holds
   * each queue once per description of the class), a class has a latency entry exactly when
   * some queue lists it, and every listed queue index exists.
   */
  lemma {:induction false} BuildTablesDisp(ops: seq<seq<OpDesc>>, c: OpClass, q: nat)
    ensures q in Disp(BuildTables(ops).disp, c) <==> q < |ops| && Lists(ops[q], c)
    ensures c in BuildTables(ops).lat <==> exists i :: 0 <= i < |ops| && Lists(ops[i], c)
  {
    if ops != [] {
      var init := ops[..|ops| - 1];
      BuildTablesDisp(init, c, q);
      AddQueueDescsDisp(BuildTables(init), |ops| - 1, ops[|ops| - 1], c, q);
      if q < |ops| - 1 {
        assert init[q] == ops[q];
      }
      if exists i :: 0 <= i < |ops| && Lists(ops[i], c) {
        var i :| 0 <= i < |ops| && Lists(ops[i], c);
        if i < |ops| - 1 {
          assert init[i] == ops[i];
        }
      }
      if exists i :: 0 <= i < |init| && Lists(init[i], c) {
        var i :| 0 <= i < |init| && Lists(init[i], c);
        assert ops[i] == init[i];
      }
    }
  }

  /** Every dispatch list names existing queues. */
  lemma BuildTablesBounds(ops: seq<seq<OpDesc>>)
    ensures forall c, k :: c in BuildTables(ops).disp && 0 <= k < |BuildTables(ops).disp[c]| ==> BuildTables(ops).disp[c][k] < |ops|
  {
    forall c, k | c in BuildTables(ops).disp && 0 <= k < |BuildTables(ops).disp[c]|
      ensures BuildTables(ops).disp[c][k] < |ops|
    {
      BuildTablesDisp(ops, c, BuildTables(ops).disp[c][k]);
    }
  }

  /** Within one queue's list, the last description of a class sets its latency and
   *  pipelining. */
  lemma {:induction false} AddQueueDescsLast(t: OpTables, i: nat, ds: seq<OpDesc>, j: nat)
    requires j < |ds| && forall l :: j < l < |ds| ==> ds[l].0 != ds[j].0
    ensures var r, c := AddQueueDescs(t, i, ds), ds[j].0;
      c in r.lat && r.lat[c] == ds[j].1 && c in r.pipelined && r.pipelined[c] == ds[j].2
  {
    var init := ds[..|ds| - 1];
    if j < |ds| - 1 {
      AddQueueDescsLast(t, i, init, j);
    }
  }

  /**
   * The latency and pipelining of a class are those of its last description: the one in
   * the last queue that lists the class, last in that queue's list.
   */
  lemma {:induction false} BuildTablesLast(ops: seq<seq<OpDesc>>, i: nat, j: nat)
    requires i < |ops| && j < |ops[i]|
    requires forall l :: j < l < |ops[i]| ==> ops[i][l].0 != ops[i][j].0
    requires forall m :: i < m < |ops| ==> !Lists(ops[m], ops[i][j].0)
    ensures var r, c := BuildTables(ops), ops[i][j].0;
      c in r.lat && r.lat[c] == ops[i][j].1 && c in r.pipelined && r.pipelined[c] == ops[i][j].2
  {
    var init, last, c := ops[..|ops| - 1], ops[|ops| - 1], ops[i][j].0;
    if i == |ops| - 1 {
      AddQueueDescsLast(BuildTables(init), i, last, j);
    } else {
      assert init[i] == ops[i];
      BuildTablesLast(init, i, j);
      assert !Lists(last, c);
      AddQueueDescsDisp(BuildTables(init), |ops| - 1, last, c, 0);
    }
  }

  /** The cross-bar wake-up network: every queue wakes every queue, in order. */
  function Xbar(n: nat): (m: seq<seq<nat>>)
    ensures |m| == n && forall i :: 0 <= i < n ==> |m[i]| == n && forall k :: 0 <= k < n ==> m[i][k] == k
  {
    seq(n, _ => seq(n, j => j))
  }

  /** The destinations of a wake-up channel that name a queue (an unknown name is skipped with
   *  a warning), in order. */
  function Known(ds: seq<nat>, n: nat): (r: seq<nat>)
    ensures forall k :: 0 <= k < |r| ==> r[k] < n
    ensures forall d :: d in r <==> d in ds && d < n
  {
    if ds == [] then []
    else Known(ds[..|ds| - 1], n) + (if ds[|ds| - 1] < n then [ds[|ds| - 1]] else [])
  }

  /** `specWakeupNetwork` resolved: each channel (source, destinations) whose source names a
   *  queue appends its known destinations to the source's row. */
  function Network(n: nat, net: seq<(nat, seq<nat>)>): (m: seq<seq<nat>>)
    ensures |m| == n
  {
    if net == [] then seq(n, _ => [])
    else
      var m := Network(n, net[..|net| - 1]);
      var (s, ds) := net[|net| - 1];
      if s < n then m[s := m[s] + Known(ds, n)] else m
  }

  /** A queue s wakes queue d exactly when some channel from s lists d, and d exists. */
  lemma {:induction false} NetworkMembers(n: nat, net: seq<(nat, seq<nat>)>, s: nat, d: nat)
    requires s < n
    ensures d in Network(n, net)[s] <==> d < n && exists k :: 0 <= k < |net| && net[k].0 == s && d in net[k].1
  {
    if net != [] {
      var init := net[..|net| - 1];
      NetworkMembers(n, init, s, d);
      if exists k :: 0 <= k < |init| && init[k].0 == s && d in init[k].1 {
        var k :| 0 <= k < |init| && init[k].0 == s && d in init[k].1;
        assert net[k] == init[k];
      }
      if exists k :: 0 <= k < |net| && net[k].0 == s && d in net[k].1 {
        var k :| 0 <= k < |net| && net[k].0 == s && d in net[k].1;
        if k < |net| - 1 {
          assert init[k] == net[k];
        }
      }
    }
  }

  lemma {:induction false} NetworkBounds(n: nat, net: seq<(nat, seq<nat>)>)
    ensures forall i, k :: 0 <= i < n && 0 <= k < |Network(n, net)[i]| ==> Network(n, net)[i][k] < n
  {
    if net != [] {
      NetworkBounds(n, net[..|net| - 1]);
    }
  }

  /** The wake-up matrix: the cross-bar, or the configured network. */
  function WakeMatrix(n: nat, xbar: bool, net: seq<(nat, seq<nat>)>): (m: seq<seq<nat>>)
    ensures |m| == n && forall i, k :: 0 <= i < n && 0 <= k < |m[i]| ==> m[i][k] < n
  {
    NetworkBounds(n, net);
    if xbar then Xbar(n) else Network(n, net)
  }

  /** The loops of the constructor over the op descriptions. */
  method BuildTablesLoop(ops: seq<seq<OpDesc>>) returns (t: OpTables)
    ensures t == BuildTables(ops)
  {
    t := OpTables(map[], map[], map[]);
    for i := 0 to |ops|
      invariant t == BuildTables(ops[..i])
    {
      assert ops[..i + 1][..i] == ops[..i];
      var ds := ops[i];
      var t0 := t;
      for j := 0 to |ds|
        invariant t == AddQueueDescs(t0, i, ds[..j])
      {
        assert ds[..j + 1][..j] == ds[..j];
        t := OpTables(t.lat[ds[j].0 := ds[j].1], t.pipelined[ds[j].0 := ds[j].2], t.disp[ds[j].0 := Disp(t.disp, ds[j].0) + [i]]);
      }
      assert ds[..|ds|] == ds;
    }
    assert ops[..|ops|] == ops;
  }

  /** The loops of the constructor that build the wake-up matrix. */
  method BuildWakeMatrix(n: nat, xbar: bool, net: seq<(nat, seq<nat>)>) returns (m: seq<seq<nat>>)
    ensures m == WakeMatrix(n, xbar, net)
  {
    m := seq(n, _ => []);
    if xbar {
      for s := 0 to n
        invariant |m| == n && forall i :: 0 <= i < n ==> m[i] == if i < s then seq(n, j => j) else []
      {
        var row := [];
        for d := 0 to n
          invariant row == seq(d, j => j)
        {
          row := row + [d];
        }
        m := m[s := row];
      }
      return;
    }
    for k := 0 to |net|
      invariant m == Network(n, net[..k])
    {
      assert net[..k + 1][..k] == net[..k];
      var (s, ds) := net[k];
      if s < n {
        var row := m[s];
        for l := 0 to |ds|
          invariant row == m[s] + Known(ds[..l], n)
        {
          assert ds[..l + 1][..l] == ds[..l];
          if ds[l] < n {
            row := row + [ds[l]];
          }
        }
        assert ds[..|ds|] == ds;
        m := m[s := row];
      }
    }
    assert net[..|net|] == net;
  }

  // ---------------------------------------------------------------------
  // Scoreboards

  /** The flat indices of the destinations that are not fixed-mapped. */
  function NonFixedRegs(rs: seq<PhysReg>): set<nat>
  {
    set k | 0 <= k < |rs| && !rs[k].fixed :: rs[k].flat
  }

  lemma NonFixedRegsSnoc(rs: seq<PhysReg>, k: nat)
    requires k < |rs|
    ensures NonFixedRegs(rs[..k + 1]) == NonFixedRegs(rs[..k]) + (if rs[k].fixed then {} else {rs[k].flat})
  {
    var a, b := rs[..k + 1], rs[..k];
    forall x | x in NonFixedRegs(a) ensures x in NonFixedRegs(b) + (if rs[k].fixed then {} else {rs[k].flat}) {
      var j :| 0 <= j < |a| && !a[j].fixed && a[j].flat == x;
      if j < k {
        assert b[j] == a[j];
      }
    }
    forall x | x in NonFixedRegs(b) ensures x in NonFixedRegs(a) {
      var j :| 0 <= j < |b| && !b[j].fixed && b[j].flat == x;
      assert a[j] == b[j];
    }
  }

  /** The first entry of an instruction list whose first destination is flat index x. */
  predicate DstIs(insts: map<SeqNum, Inst>, sn: SeqNum, x: nat)
  {
    sn in insts && |insts[sn].info.dsts| > 0 && insts[sn].info.dsts[0].flat == x
  }

  /** The search of one queue's list by `getInstByDstReg`: the index of the first match, or
   *  the length of the list. */
  method FindDst(insts: map<SeqNum, Inst>, l: seq<SeqNum>, x: nat) returns (k: nat)
    ensures k <= |l| && (k < |l| ==> DstIs(insts, l[k], x)) && forall j :: 0 <= j < k ==> !DstIs(insts, l[j], x)
  {
    k := 0;
    while k < |l| && !DstIs(insts, l[k], x)
      invariant k <= |l| && forall j :: 0 <= j < k ==> !DstIs(insts, l[j], x)
    {
      k := k + 1;
    }
  }

  /** Instruction c is canceled in b and was not in a. */
  predicate NewlyCanceled(a: map<SeqNum, Inst>, b: map<SeqNum, Inst>, c: SeqNum)
  {
    c in a && c in b && b[c].status.canceled && !a[c].status.canceled
  }

  /** The references of queue j's instructions ps. */
  function Tag(j: nat, ps: seq<SeqNum>): (r: seq<InstRef>)
    ensures |r| == |ps| && forall i :: 0 <= i < |ps| ==> r[i] == (j, ps[i])
    ensures forall c :: c in ps ==> (j, c) in r
  {
    if ps == [] then [] else [(j, ps[0])] + Tag(j, ps[1..])
  }

  // ---------------------------------------------------------------------
  // `hasReadyInsts`

  /** What `IssueQue::idle()` returns for a queue with these ready queues and replay queue:
   *  whether it holds work. */
  predicate QueueBusy(readyQs: seq<seq<SeqNum>>, replayQ: seq<SeqNum>)
  {
    replayQ != [] || exists q :: 0 <= q < |readyQs| && readyQs[q] != []
  }

  /** `hasReadyInsts` as written: true when some queue's `idle()` is false, that is, when
   *  some queue has no work. */
  predicate HasReadyInstsAsWritten(qs: seq<(seq<seq<SeqNum>>, seq<SeqNum>)>)
  {
    exists j :: 0 <= j < |qs| && !QueueBusy(qs[j].0, qs[j].1)
  }

  /** The intended `hasReadyInsts`: some queue holds work. */
  predicate HasReadyInstsIntended(qs: seq<(seq<seq<SeqNum>>, seq<SeqNum>)>)
  {
    exists j :: 0 <= j < |qs| && QueueBusy(qs[j].0, qs[j].1)
  }

  /** A single queue holding one ready instruction: the scheduler as written reports no
   *  ready instruction, and a single empty queue is reported as having one. */
  lemma HasReadyInstsInverted()
    ensures var busy := [([[7]], [])];
      HasReadyInstsIntended(busy) && !HasReadyInstsAsWritten(busy)
    ensures var empty: seq<(seq<seq<SeqNum>>, seq<SeqNum>)> := [([[]], [])];
      !HasReadyInstsIntended(empty) && HasReadyInstsAsWritten(empty)
  {
    var busy: seq<(seq<seq<SeqNum>>, seq<SeqNum>)> := [([[7]], [])];
    assert busy[0].0[0] != [];
    var empty: seq<(seq<seq<SeqNum>>, seq<SeqNum>)> := [([[]], [])];
    assert !QueueBusy(empty[0].0, empty[0].1);
  }

  /** The sum of the queues' `instNum`, kept in the 32 bits of `getIQInsts`'s result. */
  const U32: nat := 0x1_0000_0000

  function SumNat(s: seq<nat>): nat
  {
    if s == [] then 0 else SumNat(s[..|s| - 1]) + s[|s| - 1]
  }

  lemma SumNatUpdate(s: seq<nat>, j: nat, v: nat)
    requires j < |s|
    ensures SumNat(s[j := v]) + s[j] == SumNat(s) + v
  {
    if |s| - 1 != j {
      SumNatUpdate(s[..|s| - 1], j, v);
      assert s[j := v][..|s| - 1] == s[..|s| - 1][j := v];
    } else {
      assert s[j := v][..|s| - 1] == s[..|s| - 1];
    }
  }

  /** A scoreboard loop that marks the non-fixed destinations ready: they leave the set of
   *  registers that are not. */
  method ClearRegs(s: set<nat>, dsts: seq<PhysReg>) returns (r: set<nat>)
    ensures r == s - NonFixedRegs(dsts)
  {
    r := s;
    for k := 0 to |dsts|
      invariant r == s - NonFixedRegs(dsts[..k])
    {
      NonFixedRegsSnoc(dsts, k);
      if !dsts[k].fixed {
        r := r - {dsts[k].flat};
      }
    }
    assert dsts[..|dsts|] == dsts;
  }

  // ---------------------------------------------------------------------
  // The search of `loadCancel`, on the records of every queue

  /** The ready-marked sources of each queue's records: what the search uses up. */
  ghost function Counts(ins: seq<map<SeqNum, Inst>>): (r: seq<nat>)
    ensures |r| == |ins| && forall j :: 0 <= j < |ins| ==> r[j] == |ReadyBits(ins[j])|
  {
    seq(|ins|, j requires 0 <= j < |ins| => |ReadyBits(ins[j])|)
  }

  /** Queue by queue, b comes from a by canceling. */
  predicate CancelSteps(a: seq<map<SeqNum, Inst>>, b: seq<map<SeqNum, Inst>>)
  {
    |a| == |b| && forall j :: 0 <= j < |a| ==> CancelStep(a[j], b[j])
  }

  lemma CancelStepsTrans(a: seq<map<SeqNum, Inst>>, b: seq<map<SeqNum, Inst>>, c: seq<map<SeqNum, Inst>>)
    requires CancelSteps(a, b) && CancelSteps(b, c)
    ensures CancelSteps(a, c)
  {
    forall j | 0 <= j < |a| ensures CancelStep(a[j], c[j]) {
      CancelStepTrans(a[j], b[j], c[j]);
    }
  }

  /** No dependency entry of a register in `cl`, in any queue, is left to revoke. */
  predicate ClosedFor(ins: seq<map<SeqNum, Inst>>, gs: seq<map<nat, seq<Edge>>>, cl: set<nat>)
  {
    forall j, x :: 0 <= j < |ins| && j < |gs| && x in cl ==> Closed(ins[j], gs[j], x)
  }

  lemma ClosedForAdd(ins: seq<map<SeqNum, Inst>>, gs: seq<map<nat, seq<Edge>>>, cl: set<nat>, x: nat)
    requires ClosedFor(ins, gs, cl) && forall j :: 0 <= j < |ins| && j < |gs| ==> Closed(ins[j], gs[j], x)
    ensures ClosedFor(ins, gs, cl + {x})
  {
  }

  lemma ClosedForStep(a: seq<map<SeqNum, Inst>>, b: seq<map<SeqNum, Inst>>, gs: seq<map<nat, seq<Edge>>>, cl: set<nat>)
    requires CancelSteps(a, b) && ClosedFor(a, gs, cl)
    ensures ClosedFor(b, gs, cl)
  {
    forall j, x | 0 <= j < |b| && j < |gs| && x in cl ensures Closed(b[j], gs[j], x) {
      ClosedStep(a[j], b[j], gs[j], x);
    }
  }

  /** Reference r names an instruction of the records. */
  predicate RefIn(ins: seq<map<SeqNum, Inst>>, r: InstRef)
  {
    r.0 < |ins| && r.1 in ins[r.0]
  }

  /** The consumers named on a dependency list. */
  function Consumers(es: seq<Edge>): (r: set<SeqNum>)
    ensures forall i :: 0 <= i < |es| ==> es[i].1 in r
    ensures forall c :: c in r ==> exists i :: 0 <= i < |es| && es[i].1 == c
  {
    set i | 0 <= i < |es| :: es[i].1
  }

  /** Instruction c of queue j is on the dependency list, in queue j, of a register of regs. */
  ghost predicate Fed(gs: seq<map<nat, seq<Edge>>>, j: nat, c: SeqNum, regs: set<nat>)
    requires j < |gs|
  {
    exists x :: x in regs && c in Consumers(Edges(gs[j], x))
  }

  /** Every instruction whose record differs from a to b is the root r or is fed by regs. */
  ghost predicate ChangedFed(a: seq<map<SeqNum, Inst>>, b: seq<map<SeqNum, Inst>>, gs: seq<map<nat, seq<Edge>>>,
                             r: InstRef, regs: set<nat>)
    requires |a| == |b| == |gs|
  {
    forall j, c: SeqNum :: 0 <= j < |a| && c in a[j] && c in b[j] && b[j][c] != a[j][c] ==> (j, c) == r || Fed(gs, j, c, regs)
  }

  /** The destinations, outside the fixed ones, of the instructions of chain that name
   *  instructions of the records. */
  ghost function ChainRegs(ins: seq<map<SeqNum, Inst>>, chain: seq<InstRef>): set<nat>
  {
    if chain == [] then {}
    else
      var last := chain[|chain| - 1];
      ChainRegs(ins, chain[..|chain| - 1]) + (if RefIn(ins, last) then NonFixedRegs(DstsOf(ins, last)) else {})
  }

  /** An order of search from the root r: every instruction of chain names an instruction of
   *  the records and is r or is on the dependency list of a destination of an instruction
   *  before it. */
  ghost predicate Chain(ins: seq<map<SeqNum, Inst>>, gs: seq<map<nat, seq<Edge>>>, r: InstRef, chain: seq<InstRef>)
  {
    && |ins| == |gs|
    && (chain != [] ==>
          var last := chain[|chain| - 1];
          && Chain(ins, gs, r, chain[..|chain| - 1])
          && RefIn(ins, last)
          && (last == r || Fed(gs, last.0, last.1, ChainRegs(ins, chain[..|chain| - 1]))))
  }

  /** `CancelAll` changes, and pushes, only consumers on the list it walks. */
  lemma {:induction false} CancelAllFed(insts: map<SeqNum, Inst>, es: seq<Edge>)
    ensures var r := CancelAll(insts, es);
      && (forall c :: c in insts && c in r.0 && r.0[c] != insts[c] ==> c in Consumers(es))
      && forall i :: 0 <= i < |r.1| ==> r.1[i] in Consumers(es)
  {
    if es != [] {
      var init := es[..|es| - 1];
      CancelAllFed(insts, init);
      assert forall i :: 0 <= i < |init| ==> init[i] == es[i];
    }
  }

  /** The instructions of `pushed` are those canceled on the way from a to b. */
  ghost predicate PushedAll(a: seq<map<SeqNum, Inst>>, b: seq<map<SeqNum, Inst>>, pushed: seq<InstRef>)
    requires |a| == |b|
  {
    forall j, c: SeqNum :: 0 <= j < |a| && NewlyCanceled(a[j], b[j], c) ==> (j, c) in pushed
  }

  /** The innermost loops of `loadCancel` for register x, done for the queues before j. */
  ghost predicate RegDone(ins: seq<map<SeqNum, Inst>>, gs: seq<map<nat, seq<Edge>>>, x: nat, j: nat,
                          out: seq<map<SeqNum, Inst>>, pushed: seq<InstRef>)
  {
    && |gs| == |ins| == |out| && j <= |ins|
    && SumNat(Counts(out)) + |pushed| == SumNat(Counts(ins))
    && PushedBefore(ins, j, pushed)
    && RegSteps(ins, gs, x, j, out)
    && PushedAllBefore(ins, out, j, pushed)
  }

  /** The references pushed so far name instructions of the queues before j. */
  predicate PushedBefore(ins: seq<map<SeqNum, Inst>>, j: nat, pushed: seq<InstRef>)
  {
    forall i :: 0 <= i < |pushed| ==> pushed[i].0 < j && RefIn(ins, pushed[i])
  }

  /** The queues before j are done for register x, the others untouched. */
  predicate RegSteps(ins: seq<map<SeqNum, Inst>>, gs: seq<map<nat, seq<Edge>>>, x: nat, j: nat, out: seq<map<SeqNum, Inst>>)
    requires |gs| == |ins| == |out|
  {
    forall p :: 0 <= p < |ins| ==>
      if p < j then CancelStep(ins[p], out[p]) && Closed(out[p], gs[p], x) else out[p] == ins[p]
  }

  /** Every instruction canceled in the queues before j was pushed. */
  ghost predicate PushedAllBefore(ins: seq<map<SeqNum, Inst>>, out: seq<map<SeqNum, Inst>>, j: nat, pushed: seq<InstRef>)
    requires |ins| == |out|
  {
    forall p, c: SeqNum :: 0 <= p < j && p < |ins| && NewlyCanceled(ins[p], out[p], c) ==> (p, c) in pushed
  }

  lemma RegCountNext(ins: seq<map<SeqNum, Inst>>, out: seq<map<SeqNum, Inst>>, pushed: seq<InstRef>, j: nat,
                     m: map<SeqNum, Inst>, ps: seq<SeqNum>)
    requires |out| == |ins| && j < |ins| && SumNat(Counts(out)) + |pushed| == SumNat(Counts(ins))
    requires |ReadyBits(m)| + |ps| == |ReadyBits(out[j])|
    ensures SumNat(Counts(out[j := m])) + |pushed + Tag(j, ps)| == SumNat(Counts(ins))
  {
    SumNatUpdate(Counts(out), j, |ReadyBits(m)|);
    assert Counts(out[j := m]) == Counts(out)[j := |ReadyBits(m)|];
  }

  lemma PushedBeforeNext(ins: seq<map<SeqNum, Inst>>, j: nat, pushed: seq<InstRef>, ps: seq<SeqNum>)
    requires PushedBefore(ins, j, pushed) && j < |ins| && forall i :: 0 <= i < |ps| ==> ps[i] in ins[j]
    ensures PushedBefore(ins, j + 1, pushed + Tag(j, ps))
  {
    var pushed' := pushed + Tag(j, ps);
    forall i | 0 <= i < |pushed'| ensures pushed'[i].0 < j + 1 && RefIn(ins, pushed'[i]) {
      if i >= |pushed| {
        assert pushed'[i] == (j, ps[i - |pushed|]);
      }
    }
  }

  lemma RegStepsNext(ins: seq<map<SeqNum, Inst>>, gs: seq<map<nat, seq<Edge>>>, x: nat, j: nat,
                     out: seq<map<SeqNum, Inst>>, m: map<SeqNum, Inst>)
    requires |gs| == |ins| == |out| && j < |ins| && RegSteps(ins, gs, x, j, out)
    requires CancelStep(out[j], m) && Closed(m, gs[j], x)
    ensures RegSteps(ins, gs, x, j + 1, out[j := m])
  {
    assert out[j] == ins[j];
  }

  lemma PushedAllNext(ins: seq<map<SeqNum, Inst>>, out: seq<map<SeqNum, Inst>>, j: nat, pushed: seq<InstRef>,
                      m: map<SeqNum, Inst>, ps: seq<SeqNum>)
    requires |ins| == |out| && j < |ins| && out[j] == ins[j] && PushedAllBefore(ins, out, j, pushed)
    requires forall c :: NewlyCanceled(out[j], m, c) ==> c in ps
    ensures PushedAllBefore(ins, out[j := m], j + 1, pushed + Tag(j, ps))
  {
    var out', pushed' := out[j := m], pushed + Tag(j, ps);
    forall p, c: SeqNum | 0 <= p < j + 1 && p < |ins| && NewlyCanceled(ins[p], out'[p], c) ensures (p, c) in pushed' {
      if p < j {
        assert NewlyCanceled(ins[p], out[p], c);
        assert (p, c) in pushed;
      } else {
        assert c in ps;
      }
    }
  }

  lemma RegDoneNext(ins: seq<map<SeqNum, Inst>>, gs: seq<map<nat, seq<Edge>>>, x: nat, j: nat,
                    out: seq<map<SeqNum, Inst>>, pushed: seq<InstRef>)
    requires RegDone(ins, gs, x, j, out, pushed) && j < |ins|
    ensures var r := CancelAll(out[j], Edges(gs[j], x));
      RegDone(ins, gs, x, j + 1, out[j := r.0], pushed + Tag(j, r.1))
  {
    var es := Edges(gs[j], x);
    var r := CancelAll(out[j], es);
    assert out[j] == ins[j];
    CancelAllFacts(out[j], es);
    CancelAllBits(out[j], es);
    RegCountNext(ins, out, pushed, j, r.0, r.1);
    PushedBeforeNext(ins, j, pushed, r.1);
    RegStepsNext(ins, gs, x, j, out, r.0);
    PushedAllNext(ins, out, j, pushed, r.0, r.1);
  }

  lemma RegDoneStart(ins: seq<map<SeqNum, Inst>>, gs: seq<map<nat, seq<Edge>>>, x: nat)
    requires |gs| == |ins|
    ensures RegDone(ins, gs, x, 0, ins, [])
  {
  }

  lemma RegDoneEnd(ins: seq<map<SeqNum, Inst>>, gs: seq<map<nat, seq<Edge>>>, x: nat,
                   out: seq<map<SeqNum, Inst>>, pushed: seq<InstRef>)
    requires RegDone(ins, gs, x, |ins|, out, pushed)
    ensures CancelSteps(ins, out) && forall j :: 0 <= j < |out| ==> Closed(out[j], gs[j], x)
    ensures SumNat(Counts(out)) + |pushed| == SumNat(Counts(ins))
    ensures (forall i :: 0 <= i < |pushed| ==> RefIn(ins, pushed[i])) && PushedAll(ins, out, pushed)
  {
    assert RegSteps(ins, gs, x, |ins|, out);
    assert PushedAllBefore(ins, out, |ins|, pushed);
  }

  /** The innermost loops of `loadCancel` for register x: every queue's dependency entries of x
   *  whose source is still ready are revoked, and their consumers are pushed, queue by queue. */
  method CancelRegVals(ins: seq<map<SeqNum, Inst>>, gs: seq<map<nat, seq<Edge>>>, x: nat)
    returns (out: seq<map<SeqNum, Inst>>, pushed: seq<InstRef>)
    requires |gs| == |ins|
    ensures CancelSteps(ins, out) && forall j :: 0 <= j < |out| ==> Closed(out[j], gs[j], x)
    ensures SumNat(Counts(out)) + |pushed| == SumNat(Counts(ins))
    ensures (forall i :: 0 <= i < |pushed| ==> RefIn(ins, pushed[i])) && PushedAll(ins, out, pushed)
    ensures RegFed(ins, gs, x, |ins|, out, pushed)
  {
    out, pushed := ins, [];
    RegDoneStart(ins, gs, x);
    for j := 0 to |ins|
      invariant RegDone(ins, gs, x, j, out, pushed)
      invariant RegFed(ins, gs, x, j, out, pushed)
    {
      RegDoneNext(ins, gs, x, j, out, pushed);
      RegFedNext(ins, gs, x, j, out, pushed);
      var m, ps := CancelLoop(out[j], Edges(gs[j], x));
      out, pushed := out[j := m], pushed + Tag(j, ps);
    }
    RegDoneEnd(ins, gs, x, out, pushed);
  }

  /** The queues before j changed, and pushed, only consumers on the lists of x; the others
   *  are untouched. */
  ghost predicate RegFed(ins: seq<map<SeqNum, Inst>>, gs: seq<map<nat, seq<Edge>>>, x: nat, j: nat,
                         out: seq<map<SeqNum, Inst>>, pushed: seq<InstRef>)
  {
    && |gs| == |ins| == |out| && j <= |ins|
    && (forall p :: j <= p < |ins| ==> out[p] == ins[p])
    && (forall p, c: SeqNum :: 0 <= p < j && c in ins[p] && c in out[p] && out[p][c] != ins[p][c] ==> c in Consumers(Edges(gs[p], x)))
    && forall i :: 0 <= i < |pushed| ==> pushed[i].0 < j && pushed[i].1 in Consumers(Edges(gs[pushed[i].0], x))
  }

  lemma RegFedNext(ins: seq<map<SeqNum, Inst>>, gs: seq<map<nat, seq<Edge>>>, x: nat, j: nat,
                   out: seq<map<SeqNum, Inst>>, pushed: seq<InstRef>)
    requires RegFed(ins, gs, x, j, out, pushed) && j < |ins|
    ensures var r := CancelAll(out[j], Edges(gs[j], x));
      RegFed(ins, gs, x, j + 1, out[j := r.0], pushed + Tag(j, r.1))
  {
    var r := CancelAll(out[j], Edges(gs[j], x));
    CancelAllFed(out[j], Edges(gs[j], x));
    var pushed' := pushed + Tag(j, r.1);
    forall i | 0 <= i < |pushed'| ensures pushed'[i].0 < j + 1 && pushed'[i].1 in Consumers(Edges(gs[pushed'[i].0], x)) {
      if i >= |pushed| {
        assert pushed'[i] == (j, r.1[i - |pushed|]);
      }
    }
  }

  /** The loop of `loadCancel` over the destinations of one popped instruction, done for the
   *  first k of them. */
  ghost predicate TopDone(ins: seq<map<SeqNum, Inst>>, gs: seq<map<nat, seq<Edge>>>, dsts: seq<PhysReg>, k: nat,
                          out: seq<map<SeqNum, Inst>>, pushed: seq<InstRef>)
  {
    && |gs| == |ins| && k <= |dsts| && CancelSteps(ins, out) && ClosedFor(out, gs, NonFixedRegs(dsts[..k]))
    && SumNat(Counts(out)) + |pushed| == SumNat(Counts(ins))
    && (forall i :: 0 <= i < |pushed| ==> RefIn(ins, pushed[i]))
    && PushedAll(ins, out, pushed)
  }

  lemma TopDoneNext(ins: seq<map<SeqNum, Inst>>, gs: seq<map<nat, seq<Edge>>>, dsts: seq<PhysReg>, k: nat,
                    out: seq<map<SeqNum, Inst>>, pushed: seq<InstRef>, out2: seq<map<SeqNum, Inst>>, p2: seq<InstRef>)
    requires TopDone(ins, gs, dsts, k, out, pushed) && k < |dsts|
    requires dsts[k].fixed ==> out2 == out && p2 == []
    requires !dsts[k].fixed ==>
      && CancelSteps(out, out2) && (forall j :: 0 <= j < |out2| ==> Closed(out2[j], gs[j], dsts[k].flat))
      && SumNat(Counts(out2)) + |p2| == SumNat(Counts(out))
      && (forall i :: 0 <= i < |p2| ==> RefIn(out, p2[i])) && PushedAll(out, out2, p2)
    ensures TopDone(ins, gs, dsts, k + 1, out2, pushed + p2)
  {
    NonFixedRegsSnoc(dsts, k);
    if !dsts[k].fixed {
      CancelStepsTrans(ins, out, out2);
      ClosedForStep(out, out2, gs, NonFixedRegs(dsts[..k]));
      PushedRefsAppend(ins, out, pushed, p2);
      PushedAllAppend(ins, out, out2, pushed, p2);
      ClosedForAdd(out2, gs, NonFixedRegs(dsts[..k]), dsts[k].flat);
    }
  }

  /** Instructions pushed after a cancel step were already there before it. */
  lemma PushedRefsAppend(ins: seq<map<SeqNum, Inst>>, out: seq<map<SeqNum, Inst>>, pushed: seq<InstRef>, p2: seq<InstRef>)
    requires CancelSteps(ins, out)
    requires (forall i :: 0 <= i < |pushed| ==> RefIn(ins, pushed[i])) && forall i :: 0 <= i < |p2| ==> RefIn(out, p2[i])
    ensures forall i :: 0 <= i < |pushed + p2| ==> RefIn(ins, (pushed + p2)[i])
  {
    var pushed' := pushed + p2;
    forall i | 0 <= i < |pushed'| ensures RefIn(ins, pushed'[i]) {
      if i >= |pushed| {
        assert pushed'[i] == p2[i - |pushed|];
      }
    }
  }

  /** Two cancel steps, each of which pushed every instruction it canceled, pushed together
   *  every instruction canceled by both. */
  lemma PushedAllAppend(ins: seq<map<SeqNum, Inst>>, out: seq<map<SeqNum, Inst>>, out2: seq<map<SeqNum, Inst>>,
                        pushed: seq<InstRef>, p2: seq<InstRef>)
    requires CancelSteps(ins, out) && CancelSteps(out, out2)
    requires PushedAll(ins, out, pushed) && PushedAll(out, out2, p2)
    ensures PushedAll(ins, out2, pushed + p2)
  {
    forall j, c: SeqNum | 0 <= j < |ins| && NewlyCanceled(ins[j], out2[j], c) ensures (j, c) in pushed + p2 {
      if out[j][c].status.canceled {
        assert NewlyCanceled(ins[j], out[j], c);
      } else {
        assert NewlyCanceled(out[j], out2[j], c);
      }
    }
  }

  /** The loop of `loadCancel` over the destinations of one popped instruction: each that is
   *  not fixed-mapped loses its early-ready bit and has its dependency entries revoked. */
  method CancelTopVals(ins: seq<map<SeqNum, Inst>>, gs: seq<map<nat, seq<Edge>>>, dsts: seq<PhysReg>, early: set<nat>)
    returns (out: seq<map<SeqNum, Inst>>, early': set<nat>, pushed: seq<InstRef>)
    requires |gs| == |ins|
    ensures CancelSteps(ins, out) && ClosedFor(out, gs, NonFixedRegs(dsts)) && early' == early + NonFixedRegs(dsts)
    ensures SumNat(Counts(out)) + |pushed| == SumNat(Counts(ins))
    ensures (forall i :: 0 <= i < |pushed| ==> RefIn(ins, pushed[i])) && PushedAll(ins, out, pushed)
    ensures TopFed(ins, gs, NonFixedRegs(dsts), out, pushed)
  {
    out, early', pushed := ins, early, [];
    for k := 0 to |dsts|
      invariant TopDone(ins, gs, dsts, k, out, pushed) && early' == early + NonFixedRegs(dsts[..k])
      invariant TopFed(ins, gs, NonFixedRegs(dsts[..k]), out, pushed)
    {
      NonFixedRegsSnoc(dsts, k);
      var out2, p2 := out, [];
      if !dsts[k].fixed {
        early' := early' + {dsts[k].flat};
        out2, p2 := CancelRegVals(out, gs, dsts[k].flat);
      }
      TopDoneNext(ins, gs, dsts, k, out, pushed, out2, p2);
      TopFedStep(ins, gs, dsts, k, out, pushed, out2, p2);
      out, pushed := out2, pushed + p2;
    }
    assert dsts[..|dsts|] == dsts;
  }

  /** What the loop over the destinations has changed, and pushed, is fed by regs. */
  ghost predicate TopFed(ins: seq<map<SeqNum, Inst>>, gs: seq<map<nat, seq<Edge>>>, regs: set<nat>,
                         out: seq<map<SeqNum, Inst>>, pushed: seq<InstRef>)
  {
    && |gs| == |ins| == |out|
    && (forall j, c: SeqNum :: 0 <= j < |ins| && c in ins[j] && c in out[j] && out[j][c] != ins[j][c] ==> Fed(gs, j, c, regs))
    && forall i :: 0 <= i < |pushed| ==> pushed[i].0 < |gs| && Fed(gs, pushed[i].0, pushed[i].1, regs)
  }

  lemma TopFedStep(ins: seq<map<SeqNum, Inst>>, gs: seq<map<nat, seq<Edge>>>, dsts: seq<PhysReg>, k: nat,
                   out: seq<map<SeqNum, Inst>>, pushed: seq<InstRef>, out2: seq<map<SeqNum, Inst>>, p2: seq<InstRef>)
    requires k < |dsts| && TopFed(ins, gs, NonFixedRegs(dsts[..k]), out, pushed)
    requires dsts[k].fixed ==> out2 == out && p2 == []
    requires !dsts[k].fixed ==> RegFed(out, gs, dsts[k].flat, |out|, out2, p2) && CancelSteps(out, out2)
    ensures TopFed(ins, gs, NonFixedRegs(dsts[..k + 1]), out2, pushed + p2)
  {
    NonFixedRegsSnoc(dsts, k);
    if dsts[k].fixed {
      assert pushed + p2 == pushed;
    } else {
      TopFedNext(ins, gs, NonFixedRegs(dsts[..k]), out, pushed, dsts[k].flat, out2, p2);
    }
  }

  lemma TopFedNext(ins: seq<map<SeqNum, Inst>>, gs: seq<map<nat, seq<Edge>>>, regs: set<nat>,
                   out: seq<map<SeqNum, Inst>>, pushed: seq<InstRef>, x: nat, out2: seq<map<SeqNum, Inst>>, p2: seq<InstRef>)
    requires TopFed(ins, gs, regs, out, pushed) && RegFed(out, gs, x, |out|, out2, p2)
    requires CancelSteps(out, out2)
    ensures TopFed(ins, gs, regs + {x}, out2, pushed + p2)
  {
    forall j, c: SeqNum | 0 <= j < |ins| && c in ins[j] && c in out2[j] && out2[j][c] != ins[j][c]
      ensures Fed(gs, j, c, regs + {x})
    {
      assert c in out[j];
      if out[j][c] != ins[j][c] {
        var y :| y in regs && c in Consumers(Edges(gs[j], y));
      } else {
        assert c in Consumers(Edges(gs[j], x));
      }
    }
    var pushed' := pushed + p2;
    forall i | 0 <= i < |pushed'| ensures pushed'[i].0 < |gs| && Fed(gs, pushed'[i].0, pushed'[i].1, regs + {x}) {
      if i < |pushed| {
        var y :| y in regs && pushed[i].1 in Consumers(Edges(gs[pushed[i].0], y));
      } else {
        assert pushed'[i] == p2[i - |pushed|];
        assert pushed'[i].1 in Consumers(Edges(gs[pushed'[i].0], x));
      }
    }
  }

  /** The destinations of instruction r, of the records ins. */
  function DstsOf(ins: seq<map<SeqNum, Inst>>, r: InstRef): seq<PhysReg>
    requires RefIn(ins, r)
  {
    ins[r.0][r.1].info.dsts
  }

  /** References into records stay valid across canceling. */
  lemma RefsAppend(ins: seq<map<SeqNum, Inst>>, out: seq<map<SeqNum, Inst>>, rest: seq<InstRef>, p: seq<InstRef>)
    requires CancelSteps(ins, out)
    requires (forall i :: 0 <= i < |rest| ==> RefIn(ins, rest[i])) && forall i :: 0 <= i < |p| ==> RefIn(out, p[i])
    ensures StackRefs(ins, rest + p)
  {
    forall i | 0 <= i < |rest + p| ensures RefIn(ins, (rest + p)[i]) {
      if i >= |rest| {
        var r := p[i - |rest|];
        assert RefIn(out, r) && out[r.0].Keys == ins[r.0].Keys;
      }
    }
  }

  /** Popping the top and pushing p keeps every other reference on the stack. */
  lemma PopKeeps(stack: seq<InstRef>, p: seq<InstRef>)
    requires stack != []
    ensures forall r :: r in stack ==> r == stack[|stack| - 1] || r in stack[..|stack| - 1] + p
    ensures forall r :: r in p ==> r in stack[..|stack| - 1] + p
  {
    forall r | r in stack && r != stack[|stack| - 1] ensures r in stack[..|stack| - 1] + p {
      var i :| 0 <= i < |stack| && stack[i] == r;
      assert (stack[..|stack| - 1] + p)[i] == r;
    }
    forall r | r in p ensures r in stack[..|stack| - 1] + p {
      var i :| 0 <= i < |p| && p[i] == r;
      assert (stack[..|stack| - 1] + p)[|stack| - 1 + i] == r;
    }
  }

  lemma ClosedForUnion(ins: seq<map<SeqNum, Inst>>, gs: seq<map<nat, seq<Edge>>>, a: set<nat>, b: set<nat>)
    requires ClosedFor(ins, gs, a) && ClosedFor(ins, gs, b)
    ensures ClosedFor(ins, gs, a + b)
  {
  }

  /** One step of the search keeps every canceled instruction on the stack or cleared. */
  lemma NewlyKept(ins: seq<map<SeqNum, Inst>>, out: seq<map<SeqNum, Inst>>, out2: seq<map<SeqNum, Inst>>,
                  stack: seq<InstRef>, p: seq<InstRef>, cleared: set<nat>, topRegs: set<nat>)
    requires CancelSteps(ins, out) && CancelSteps(out, out2) && PushedAll(out, out2, p) && stack != []
    requires CanceledKept(ins, out, stack, cleared)
    requires RefIn(ins, stack[|stack| - 1]) && topRegs == NonFixedRegs(DstsOf(ins, stack[|stack| - 1]))
    requires forall r :: r in stack ==> r == stack[|stack| - 1] || r in stack[..|stack| - 1] + p
    requires forall r :: r in p ==> r in stack[..|stack| - 1] + p
    ensures CanceledKept(ins, out2, stack[..|stack| - 1] + p, cleared + topRegs)
  {
    forall j, c: SeqNum | 0 <= j < |ins| && NewlyCanceled(ins[j], out2[j], c)
      ensures (j, c) in stack[..|stack| - 1] + p || NonFixedRegs(DstsOf(ins, (j, c))) <= cleared + topRegs
    {
      if !out[j][c].status.canceled {
        assert NewlyCanceled(out[j], out2[j], c);
      } else {
        assert NewlyCanceled(ins[j], out[j], c);
      }
    }
  }

  /** What holds at the head of the search loop of `loadCancel`: every instruction it has
   *  canceled, and `start`, is still on the stack or has had its destinations cleared. */
  ghost predicate SearchInv(ins: seq<map<SeqNum, Inst>>, gs: seq<map<nat, seq<Edge>>>, start: InstRef, early: set<nat>,
                            out: seq<map<SeqNum, Inst>>, early': set<nat>, cleared: set<nat>, stack: seq<InstRef>)
  {
    && |gs| == |ins| && RefIn(ins, start) && CancelSteps(ins, out) && ClosedFor(out, gs, cleared)
    && early' == early + cleared
    && StackRefs(ins, stack)
    && (start in stack || NonFixedRegs(DstsOf(ins, start)) <= cleared)
    && CanceledKept(ins, out, stack, cleared)
  }

  /** Every reference on the stack names an instruction of the records. */
  predicate StackRefs(ins: seq<map<SeqNum, Inst>>, stack: seq<InstRef>)
  {
    forall i :: 0 <= i < |stack| ==> RefIn(ins, stack[i])
  }

  /** Every instruction canceled on the way from ins to out is on the stack or has its
   *  destinations among `cleared`. */
  ghost predicate CanceledKept(ins: seq<map<SeqNum, Inst>>, out: seq<map<SeqNum, Inst>>, stack: seq<InstRef>, cleared: set<nat>)
    requires |out| == |ins|
  {
    forall j, c: SeqNum :: 0 <= j < |ins| && NewlyCanceled(ins[j], out[j], c) ==>
      (j, c) in stack || NonFixedRegs(DstsOf(ins, (j, c))) <= cleared
  }

  lemma SearchNext(ins: seq<map<SeqNum, Inst>>, gs: seq<map<nat, seq<Edge>>>, start: InstRef, early: set<nat>,
                   out: seq<map<SeqNum, Inst>>, early': set<nat>, cleared: set<nat>, stack: seq<InstRef>,
                   regs: set<nat>, out2: seq<map<SeqNum, Inst>>, early2: set<nat>, p: seq<InstRef>)
    requires SearchInv(ins, gs, start, early, out, early', cleared, stack) && stack != []
    requires regs == NonFixedRegs(DstsOf(ins, stack[|stack| - 1]))
    requires CancelSteps(out, out2) && ClosedFor(out2, gs, regs) && early2 == early' + regs
    requires (forall i :: 0 <= i < |p| ==> RefIn(out, p[i])) && PushedAll(out, out2, p)
    ensures SearchInv(ins, gs, start, early, out2, early2, cleared + regs, stack[..|stack| - 1] + p)
  {
    var stack' := stack[..|stack| - 1] + p;
    SearchNextRecords(ins, gs, out, cleared, out2, regs);
    SearchNextStack(ins, start, out, cleared, stack, regs, out2, p);
    SearchInvIntro(ins, gs, start, early, out2, early2, cleared + regs, stack');
  }

  /** `SearchInv` from its parts. */
  lemma SearchInvIntro(ins: seq<map<SeqNum, Inst>>, gs: seq<map<nat, seq<Edge>>>, start: InstRef, early: set<nat>,
                       out: seq<map<SeqNum, Inst>>, early': set<nat>, cleared: set<nat>, stack: seq<InstRef>)
    requires |gs| == |ins| && RefIn(ins, start) && CancelSteps(ins, out) && ClosedFor(out, gs, cleared)
    requires early' == early + cleared && StackRefs(ins, stack)
    requires start in stack || NonFixedRegs(DstsOf(ins, start)) <= cleared
    requires CanceledKept(ins, out, stack, cleared)
    ensures SearchInv(ins, gs, start, early, out, early', cleared, stack)
  {
  }

  /** The records part of `SearchNext`. */
  lemma SearchNextRecords(ins: seq<map<SeqNum, Inst>>, gs: seq<map<nat, seq<Edge>>>, out: seq<map<SeqNum, Inst>>,
                          cleared: set<nat>, out2: seq<map<SeqNum, Inst>>, regs: set<nat>)
    requires CancelSteps(ins, out) && ClosedFor(out, gs, cleared)
    requires CancelSteps(out, out2) && ClosedFor(out2, gs, regs)
    ensures CancelSteps(ins, out2) && ClosedFor(out2, gs, cleared + regs)
  {
    CancelStepsTrans(ins, out, out2);
    ClosedForStep(out, out2, gs, cleared);
    ClosedForUnion(out2, gs, cleared, regs);
  }

  /** The stack part of `SearchNext`. */
  lemma SearchNextStack(ins: seq<map<SeqNum, Inst>>, start: InstRef, out: seq<map<SeqNum, Inst>>, cleared: set<nat>,
                        stack: seq<InstRef>, regs: set<nat>, out2: seq<map<SeqNum, Inst>>, p: seq<InstRef>)
    requires CancelSteps(ins, out) && CancelSteps(out, out2) && stack != [] && RefIn(ins, start)
    requires StackRefs(ins, stack) && (start in stack || NonFixedRegs(DstsOf(ins, start)) <= cleared)
    requires CanceledKept(ins, out, stack, cleared)
    requires regs == NonFixedRegs(DstsOf(ins, stack[|stack| - 1]))
    requires (forall i :: 0 <= i < |p| ==> RefIn(out, p[i])) && PushedAll(out, out2, p)
    ensures StackRefs(ins, stack[..|stack| - 1] + p)
    ensures start in stack[..|stack| - 1] + p || NonFixedRegs(DstsOf(ins, start)) <= cleared + regs
    ensures CanceledKept(ins, out2, stack[..|stack| - 1] + p, cleared + regs)
  {
    assert RefIn(ins, stack[|stack| - 1]);
    RefsAppend(ins, out, stack[..|stack| - 1], p);
    PopKeeps(stack, p);
    NewlyKept(ins, out, out2, stack, p, cleared, regs);
  }

  /** The search of `loadCancel` from the instruction `start`, already canceled, with a stack
   *  whose top is its last element: each popped instruction has its destinations canceled.
   *  Every instruction canceled on the way has its destinations among `cleared`, as `start`
   *  does; the early scoreboard loses exactly `cleared`; and no dependency entry of a
   *  register in `cleared`, in any queue, is left to revoke. The search ends because each
   *  push uses up a ready bit. */
  method CancelSearch(ins: seq<map<SeqNum, Inst>>, gs: seq<map<nat, seq<Edge>>>, start: InstRef, early: set<nat>)
    returns (out: seq<map<SeqNum, Inst>>, early': set<nat>, ghost cleared: set<nat>, ghost chain: seq<InstRef>)
    requires |gs| == |ins| && RefIn(ins, start)
    ensures CancelSteps(ins, out) && ClosedFor(out, gs, cleared) && early' == early + cleared
    ensures NonFixedRegs(DstsOf(ins, start)) <= cleared
    ensures forall j, c: SeqNum :: 0 <= j < |ins| && NewlyCanceled(ins[j], out[j], c) ==> NonFixedRegs(DstsOf(ins, (j, c))) <= cleared
    ensures ChangedFed(ins, out, gs, start, cleared) && Chain(ins, gs, start, chain) && cleared == ChainRegs(ins, chain)
  {
    out, early', cleared, chain := ins, early, {}, [];
    var stack := [start];
    while stack != []
      invariant SearchInv(ins, gs, start, early, out, early', cleared, stack)
      invariant SearchFed(ins, gs, start, out, cleared, stack, chain)
      decreases SumNat(Counts(out)), |stack|
    {
      out, early', cleared, stack, chain := SearchStep(ins, gs, start, early, out, early', cleared, stack, chain);
    }
  }

  /** One round of the search loop of `loadCancel`: the top of the stack is popped and its
   *  destinations canceled, which pushes the consumers it cancels. */
  method SearchStep(ins: seq<map<SeqNum, Inst>>, gs: seq<map<nat, seq<Edge>>>, start: InstRef, early: set<nat>,
                    out: seq<map<SeqNum, Inst>>, early': set<nat>, ghost cleared: set<nat>, stack: seq<InstRef>,
                    ghost chain: seq<InstRef>)
    returns (out2: seq<map<SeqNum, Inst>>, early2: set<nat>, ghost cleared2: set<nat>, stack2: seq<InstRef>,
             ghost chain2: seq<InstRef>)
    requires stack != []
    requires SearchInv(ins, gs, start, early, out, early', cleared, stack)
    requires SearchFed(ins, gs, start, out, cleared, stack, chain)
    ensures SearchInv(ins, gs, start, early, out2, early2, cleared2, stack2)
    ensures SearchFed(ins, gs, start, out2, cleared2, stack2, chain2)
    ensures SumNat(Counts(out2)) < SumNat(Counts(out)) || (SumNat(Counts(out2)) == SumNat(Counts(out)) && |stack2| < |stack|)
  {
    var top := stack[|stack| - 1];
    assert RefIn(ins, top);
    // The records only lose ready bits and gain cancel flags, so the snapshot's
    // destinations are those of the current records.
    var dsts := DstsOf(ins, top);
    var p;
    out2, early2, p := CancelTopVals(out, gs, dsts, early');
    SearchNext(ins, gs, start, early, out, early', cleared, stack, NonFixedRegs(dsts), out2, early2, p);
    SearchFedNext(ins, gs, start, out, cleared, stack, chain, NonFixedRegs(dsts), out2, p);
    cleared2, chain2 := cleared + NonFixedRegs(dsts), chain + [top];
    stack2 := stack[..|stack| - 1] + p;
  }

  /** The search so far has changed only `start` and instructions fed by `cleared`, every
   *  instruction on the stack is `start` or fed by `cleared`, and `cleared` holds exactly the
   *  destinations of the instructions popped so far, in the order `chain`. */
  ghost predicate SearchFed(ins: seq<map<SeqNum, Inst>>, gs: seq<map<nat, seq<Edge>>>, start: InstRef,
                            out: seq<map<SeqNum, Inst>>, cleared: set<nat>, stack: seq<InstRef>, chain: seq<InstRef>)
  {
    && |gs| == |ins| == |out| && RefIn(ins, start)
    && ChangedFed(ins, out, gs, start, cleared)
    && (forall i :: 0 <= i < |stack| ==> stack[i] == start || (stack[i].0 < |gs| && Fed(gs, stack[i].0, stack[i].1, cleared)))
    && Chain(ins, gs, start, chain) && cleared == ChainRegs(ins, chain)
  }

  lemma FedMono(gs: seq<map<nat, seq<Edge>>>, j: nat, c: SeqNum, a: set<nat>, b: set<nat>)
    requires j < |gs| && Fed(gs, j, c, a) && a <= b
    ensures Fed(gs, j, c, b)
  {
    var x :| x in a && c in Consumers(Edges(gs[j], x));
    assert x in b;
  }

  lemma SearchFedNext(ins: seq<map<SeqNum, Inst>>, gs: seq<map<nat, seq<Edge>>>, start: InstRef,
                      out: seq<map<SeqNum, Inst>>, cleared: set<nat>, stack: seq<InstRef>, chain: seq<InstRef>,
                      regs: set<nat>, out2: seq<map<SeqNum, Inst>>, p: seq<InstRef>)
    requires SearchFed(ins, gs, start, out, cleared, stack, chain) && stack != [] && RefIn(ins, stack[|stack| - 1])
    requires regs == NonFixedRegs(DstsOf(ins, stack[|stack| - 1]))
    requires CancelSteps(ins, out) && CancelSteps(out, out2) && TopFed(out, gs, regs, out2, p)
    ensures SearchFed(ins, gs, start, out2, cleared + regs, stack[..|stack| - 1] + p, chain + [stack[|stack| - 1]])
  {
    ChangedFedNext(ins, gs, start, out, cleared, regs, out2);
    StackFedNext(gs, start, cleared, stack, regs, p);
    var top := stack[|stack| - 1];
    assert top == start || (top.0 < |gs| && Fed(gs, top.0, top.1, cleared));
    ChainNext(ins, gs, start, chain, top);
  }

  /** The records part of `SearchFedNext`. */
  lemma ChangedFedNext(ins: seq<map<SeqNum, Inst>>, gs: seq<map<nat, seq<Edge>>>, start: InstRef,
                       out: seq<map<SeqNum, Inst>>, cleared: set<nat>, regs: set<nat>, out2: seq<map<SeqNum, Inst>>)
    requires |gs| == |ins| == |out| && ChangedFed(ins, out, gs, start, cleared)
    requires CancelSteps(ins, out) && CancelSteps(out, out2) && TopFed(out, gs, regs, out2, [])
    ensures ChangedFed(ins, out2, gs, start, cleared + regs)
  {
    forall j, c: SeqNum | 0 <= j < |ins| && c in ins[j] && c in out2[j] && out2[j][c] != ins[j][c]
      ensures (j, c) == start || Fed(gs, j, c, cleared + regs)
    {
      assert c in out[j];
      if out[j][c] != ins[j][c] {
        if (j, c) != start {
          FedMono(gs, j, c, cleared, cleared + regs);
        }
      } else {
        FedMono(gs, j, c, regs, cleared + regs);
      }
    }
  }

  /** The stack part of `SearchFedNext`. */
  lemma StackFedNext(gs: seq<map<nat, seq<Edge>>>, start: InstRef, cleared: set<nat>, stack: seq<InstRef>,
                     regs: set<nat>, p: seq<InstRef>)
    requires stack != []
    requires forall i :: 0 <= i < |stack| ==> stack[i] == start || (stack[i].0 < |gs| && Fed(gs, stack[i].0, stack[i].1, cleared))
    requires forall i :: 0 <= i < |p| ==> p[i].0 < |gs| && Fed(gs, p[i].0, p[i].1, regs)
    ensures var st := stack[..|stack| - 1] + p;
      forall i :: 0 <= i < |st| ==> st[i] == start || (st[i].0 < |gs| && Fed(gs, st[i].0, st[i].1, cleared + regs))
  {
    var st := stack[..|stack| - 1] + p;
    forall i | 0 <= i < |st| ensures st[i] == start || (st[i].0 < |gs| && Fed(gs, st[i].0, st[i].1, cleared + regs)) {
      if i < |stack| - 1 {
        assert st[i] == stack[i];
        if stack[i] != start {
          FedMono(gs, stack[i].0, stack[i].1, cleared, cleared + regs);
        }
      } else {
        assert st[i] == p[i - (|stack| - 1)];
        FedMono(gs, st[i].0, st[i].1, regs, cleared + regs);
      }
    }
  }

  /** The chain part of `SearchFedNext`: the popped instruction top is `start` or fed by
   *  the destinations of the chain so far, so it extends the chain. */
  lemma ChainNext(ins: seq<map<SeqNum, Inst>>, gs: seq<map<nat, seq<Edge>>>, start: InstRef, chain: seq<InstRef>, top: InstRef)
    requires Chain(ins, gs, start, chain) && RefIn(ins, top)
    requires top == start || Fed(gs, top.0, top.1, ChainRegs(ins, chain))
    ensures Chain(ins, gs, start, chain + [top])
    ensures ChainRegs(ins, chain + [top]) == ChainRegs(ins, chain) + NonFixedRegs(DstsOf(ins, top))
  {
    assert (chain + [top])[..|chain|] == chain;
  }

  ghost function RecordsOf(qs: seq<IssueQue>): (r: seq<map<SeqNum, Inst>>)
    reads qs`insts
    ensures |r| == |qs| && forall j :: 0 <= j < |qs| ==> r[j] == qs[j].insts
  {
    if qs == [] then [] else RecordsOf(qs[..|qs| - 1]) + [qs[|qs| - 1].insts]
  }

  ghost function KeysOf(qs: seq<IssueQue>): (r: seq<set<SeqNum>>)
    reads qs`insts
    ensures |r| == |qs| && forall j :: 0 <= j < |qs| ==> r[j] == qs[j].insts.Keys
  {
    if qs == [] then [] else KeysOf(qs[..|qs| - 1]) + [qs[|qs| - 1].insts.Keys]
  }

  ghost function SizesOf(qs: seq<IssueQue>): (r: seq<seq<nat>>)
    reads qs`inflight
    ensures |r| == |qs| && forall j :: 0 <= j < |qs| ==> r[j] == StageSizes(qs[j].inflight)
  {
    if qs == [] then [] else SizesOf(qs[..|qs| - 1]) + [StageSizes(qs[|qs| - 1].inflight)]
  }

  ghost function StagesOf(qs: seq<IssueQue>): (r: seq<seq<IssueStream>>)
    reads qs`inflight
    ensures |r| == |qs| && forall j :: 0 <= j < |qs| ==> r[j] == qs[j].inflight
  {
    if qs == [] then [] else StagesOf(qs[..|qs| - 1]) + [qs[|qs| - 1].inflight]
  }

  ghost function ReadyQsOf(qs: seq<IssueQue>): (r: seq<seq<seq<SeqNum>>>)
    reads qs`readyQs
    ensures |r| == |qs| && forall j :: 0 <= j < |qs| ==> r[j] == qs[j].readyQs
  {
    if qs == [] then [] else ReadyQsOf(qs[..|qs| - 1]) + [qs[|qs| - 1].readyQs]
  }

  ghost function GraphsOf(qs: seq<IssueQue>): (r: seq<map<nat, seq<Edge>>>)
    reads qs`subDepGraph
    ensures |r| == |qs| && forall j :: 0 <= j < |qs| ==> r[j] == qs[j].subDepGraph
  {
    if qs == [] then [] else GraphsOf(qs[..|qs| - 1]) + [qs[|qs| - 1].subDepGraph]
  }

  /** The sizes of the issue stages. */
  function StageSizes(st: seq<IssueStream>): (r: seq<nat>)
    ensures |r| == |st| && forall i :: 0 <= i < |st| ==> r[i] == st[i].size
  {
    seq(|st|, i requires 0 <= i < |st| => st[i].size)
  }

  lemma CancelStepsRefl(a: seq<map<SeqNum, Inst>>)
    ensures CancelSteps(a, a)
  {
    forall j | 0 <= j < |a| ensures CancelStep(a[j], a[j]) {
      CancelStepRefl(a[j]);
    }
  }

  /** No issue stage holds a canceled instruction of insts. */
  /** Slots b are slots a, some of them emptied. */
  predicate SlotsNulled(a: seq<Option<SeqNum>>, b: seq<Option<SeqNum>>)
  {
    |a| == |b| && forall k :: 0 <= k < |a| ==> b[k] == a[k] || b[k] == None
  }

  lemma SlotsNulledTrans(a: seq<Option<SeqNum>>, b: seq<Option<SeqNum>>, c: seq<Option<SeqNum>>)
    requires SlotsNulled(a, b) && SlotsNulled(b, c)
    ensures SlotsNulled(a, c)
  {
  }

  /** The issue stages of every queue, b after a: the same sizes, and each slot kept or
   *  emptied. */
  predicate StagesNulled(a: seq<seq<IssueStream>>, b: seq<seq<IssueStream>>)
  {
    && |a| == |b|
    && forall j :: 0 <= j < |a| ==> |a[j]| == |b[j]| && forall i :: 0 <= i < |a[j]| ==>
         a[j][i].size == b[j][i].size && SlotsNulled(a[j][i].insts, b[j][i].insts)
  }

  /** Emptying slots of queue j's stages, where queue j still had its stages of `s`,
   *  keeps every queue's stages `s` with slots emptied. */
  lemma NulledAt(s: seq<seq<IssueStream>>, a: seq<seq<IssueStream>>, b: seq<seq<IssueStream>>, j: nat)
    requires StagesNulled(s, a) && j < |a| == |b| && s[j] == a[j]
    requires forall p :: 0 <= p < |a| && p != j ==> b[p] == a[p]
    requires |b[j]| == |a[j]| && forall i :: 0 <= i < |a[j]| ==>
      a[j][i].size == b[j][i].size && SlotsNulled(a[j][i].insts, b[j][i].insts)
    ensures StagesNulled(s, b)
  {
  }

  lemma NulledSizes(a: seq<seq<IssueStream>>, b: seq<seq<IssueStream>>)
    requires StagesNulled(a, b)
    ensures forall j :: 0 <= j < |a| ==> StageSizes(a[j]) == StageSizes(b[j])
  {
    forall j | 0 <= j < |a|
      ensures StageSizes(a[j]) == StageSizes(b[j])
    {
      assert forall i :: 0 <= i < |a[j]| ==> StageSizes(a[j])[i] == StageSizes(b[j])[i];
    }
  }

  lemma StagesNulledTrans(a: seq<seq<IssueStream>>, b: seq<seq<IssueStream>>, c: seq<seq<IssueStream>>)
    requires StagesNulled(a, b) && StagesNulled(b, c)
    ensures StagesNulled(a, c)
  {
    forall j, i | 0 <= j < |a| && 0 <= i < |a[j]|
      ensures SlotsNulled(a[j][i].insts, c[j][i].insts)
    {
      SlotsNulledTrans(a[j][i].insts, b[j][i].insts, c[j][i].insts);
    }
  }

  /** A stage whose slots were emptied keeps its live slots or empties them. */
  lemma LiveNulled(a: IssueStream, b: IssueStream)
    requires StreamOk(a) && StreamOk(b) && a.size == b.size && SlotsNulled(a.insts, b.insts)
    ensures SlotsNulled(Live(a), Live(b))
  {
  }

  ghost predicate StagesFree(stages: seq<IssueStream>, insts: map<SeqNum, Inst>)
  {
    forall i, k :: 0 <= i < |stages| && 0 <= k < stages[i].size && k < |stages[i].insts| ==>
      stages[i].insts[k] == None || stages[i].insts[k].value !in CanceledSet(insts)
  }

  /** Instruction sn of m with its cancel flag set (`setCancel`). */
  function CancelFlag(m: map<SeqNum, Inst>, sn: SeqNum): map<SeqNum, Inst>
    requires sn in m
  {
    m[sn := m[sn].(status := m[sn].status.(canceled := true))]
  }

  /** Setting a cancel flag is a canceling step. */
  lemma CancelFlagStep(m: map<SeqNum, Inst>, sn: SeqNum)
    requires sn in m
    ensures CancelStep(m, CancelFlag(m, sn))
  {
    assert m[sn].status == m[sn].status.(canceled := m[sn].status.canceled);
  }

  /** Changing nothing is a canceling step. */
  lemma CancelStepRefl(m: map<SeqNum, Inst>)
    ensures CancelStep(m, m)
  {
    forall c | c in m ensures LessReady(m[c], m[c]) {
      assert m[c].status == m[c].status.(canceled := m[c].status.canceled);
    }
  }

  /**
   * What `loadCancel` of instruction sn of queue q leaves, from the records `before` and the
   * early-ready scoreboard `early`: the records only lose ready bits and gain cancel flags,
   * sn is canceled, the scoreboard loses exactly `cleared`, which holds the destinations of sn
   * and of every instruction canceled, and no dependency entry of a register in `cleared`, in
   * any queue, is left to revoke.
   */
  ghost predicate LoadCanceled(before: seq<map<SeqNum, Inst>>, after: seq<map<SeqNum, Inst>>, gs: seq<map<nat, seq<Edge>>>,
                               early: set<nat>, early': set<nat>, q: nat, sn: SeqNum, cleared: set<nat>, chain: seq<InstRef>)
  {
    && |before| == |after| == |gs| && q < |before| && sn in before[q]
    && CancelSteps(before, after) && after[q][sn].status.canceled
    && early' == early + cleared && ClosedFor(after, gs, cleared)
    && NonFixedRegs(before[q][sn].info.dsts) <= cleared
    && (forall j, c: SeqNum :: 0 <= j < |before| && NewlyCanceled(before[j], after[j], c) ==> NonFixedRegs(after[j][c].info.dsts) <= cleared)
    && ChangedFed(before, after, gs, (q, sn), cleared)
    && Chain(before, gs, (q, sn), chain) && cleared == ChainRegs(before, chain)
  }

  /** A load that writes x, canceled by `loadCancel` or canceled already, is what
   *  `CancelProducer` promises for x. */
  lemma LoadProducer(before: seq<map<SeqNum, Inst>>, after: seq<map<SeqNum, Inst>>, gs: seq<map<nat, seq<Edge>>>,
                     early: set<nat>, early': set<nat>, q: nat, sn: SeqNum, x: nat, c: bool, cleared: set<nat>, chain: seq<InstRef>)
    requires q < |before| && sn in before[q] && before[q][sn].info.isLoad && DstIs(before[q], sn, x)
    requires c == before[q][sn].status.canceled
    requires c ==> after == before
    requires !c ==> LoadCanceled(before, after, gs, early, early', q, sn, cleared, chain)
    ensures ProducerCanceled(before, after, x, true, Some((q, sn)))
  {
  }

  /** The search of `loadCancel` from instruction sn of queue q, whose cancel flag is set in
   *  `ins` and was not in `before`. */
  method LoadCancelSearch(before: seq<map<SeqNum, Inst>>, ins: seq<map<SeqNum, Inst>>, gs: seq<map<nat, seq<Edge>>>,
                          q: nat, sn: SeqNum, early: set<nat>)
    returns (out: seq<map<SeqNum, Inst>>, early': set<nat>, ghost cleared: set<nat>, ghost chain: seq<InstRef>)
    requires q < |before| == |ins| == |gs| && sn in before[q] && !before[q][sn].status.canceled
    requires ins == before[q := CancelFlag(before[q], sn)]
    ensures CancelSteps(before, out) && LoadCanceled(before, out, gs, early, early', q, sn, cleared, chain)
  {
    out, early', cleared, chain := CancelSearch(ins, gs, (q, sn), early);
    LoadCancelFacts(before, ins, out, q, sn, cleared);
    LoadFedFacts(before, ins, out, gs, q, sn, cleared, chain);
  }

  /** The upper bound of the search, seen from the records before the load's own flag. */
  lemma LoadFedFacts(before: seq<map<SeqNum, Inst>>, ins: seq<map<SeqNum, Inst>>, out: seq<map<SeqNum, Inst>>,
                     gs: seq<map<nat, seq<Edge>>>, q: nat, sn: SeqNum, cleared: set<nat>, chain: seq<InstRef>)
    requires q < |before| == |ins| == |gs| == |out| && sn in before[q]
    requires ins == before[q := CancelFlag(before[q], sn)]
    requires ChangedFed(ins, out, gs, (q, sn), cleared) && Chain(ins, gs, (q, sn), chain) && cleared == ChainRegs(ins, chain)
    ensures ChangedFed(before, out, gs, (q, sn), cleared) && Chain(before, gs, (q, sn), chain) && cleared == ChainRegs(before, chain)
  {
    LoadChangedFed(before, ins, out, gs, q, sn, cleared);
    LoadChain(before, ins, gs, q, sn, chain);
  }

  lemma LoadChangedFed(before: seq<map<SeqNum, Inst>>, ins: seq<map<SeqNum, Inst>>, out: seq<map<SeqNum, Inst>>,
                       gs: seq<map<nat, seq<Edge>>>, q: nat, sn: SeqNum, cleared: set<nat>)
    requires q < |before| == |ins| == |gs| == |out| && sn in before[q]
    requires ins == before[q := CancelFlag(before[q], sn)] && ChangedFed(ins, out, gs, (q, sn), cleared)
    ensures ChangedFed(before, out, gs, (q, sn), cleared)
  {
    forall j, c: SeqNum | 0 <= j < |before| && c in before[j] && c in out[j] && out[j][c] != before[j][c]
      ensures (j, c) == (q, sn) || Fed(gs, j, c, cleared)
    {
      if (j, c) != (q, sn) {
        assert c in ins[j] && ins[j][c] == before[j][c];
      }
    }
  }

  /** The chain of the search, seen from the records before the load's own flag. */
  lemma {:induction false} LoadChain(before: seq<map<SeqNum, Inst>>, ins: seq<map<SeqNum, Inst>>,
                                     gs: seq<map<nat, seq<Edge>>>, q: nat, sn: SeqNum, chain: seq<InstRef>)
    requires q < |before| == |ins| == |gs| && sn in before[q]
    requires ins == before[q := CancelFlag(before[q], sn)] && Chain(ins, gs, (q, sn), chain)
    ensures Chain(before, gs, (q, sn), chain) && ChainRegs(before, chain) == ChainRegs(ins, chain)
  {
    if chain != [] {
      var last := chain[|chain| - 1];
      LoadChain(before, ins, gs, q, sn, chain[..|chain| - 1]);
      CancelFlagInfo(before, q, sn, last.0, last.1);
    }
  }

  /** Setting a cancel flag keeps every record's key and description. */
  lemma CancelFlagInfo(before: seq<map<SeqNum, Inst>>, q: nat, sn: SeqNum, j: nat, c: SeqNum)
    requires q < |before| && sn in before[q] && j < |before|
    ensures var ins := before[q := CancelFlag(before[q], sn)];
      && (c in ins[j] <==> c in before[j])
      && (c in before[j] ==> ins[j][c].info == before[j][c].info)
  {
  }

  lemma LoadCancelFacts(before: seq<map<SeqNum, Inst>>, ins: seq<map<SeqNum, Inst>>, out: seq<map<SeqNum, Inst>>,
                        q: nat, sn: SeqNum, cleared: set<nat>)
    requires q < |before| == |ins| && sn in before[q] && !before[q][sn].status.canceled
    requires ins == before[q := CancelFlag(before[q], sn)]
    requires CancelSteps(ins, out) && NonFixedRegs(DstsOf(ins, (q, sn))) <= cleared
    requires forall j, c: SeqNum :: 0 <= j < |ins| && NewlyCanceled(ins[j], out[j], c) ==> NonFixedRegs(DstsOf(ins, (j, c))) <= cleared
    ensures CancelSteps(before, out) && out[q][sn].status.canceled
    ensures forall j, c: SeqNum :: 0 <= j < |before| && NewlyCanceled(before[j], out[j], c) ==> NonFixedRegs(out[j][c].info.dsts) <= cleared
  {
    assert CancelSteps(before, ins) by {
      forall j | 0 <= j < |before| ensures CancelStep(before[j], ins[j]) {
        if j == q {
          CancelFlagStep(before[j], sn);
        } else {
          CancelStepRefl(before[j]);
        }
      }
    }
    CancelStepsTrans(before, ins, out);
    forall j, c: SeqNum | 0 <= j < |before| && NewlyCanceled(before[j], out[j], c)
      ensures NonFixedRegs(out[j][c].info.dsts) <= cleared
    {
      if j != q || c != sn {
        assert NewlyCanceled(ins[j], out[j], c);
      }
    }
  }

  /** The wake-ups of `row`, by a producer `src` of corrected latency `lat` in a queue of
   *  `stages[from]` issue stages, that are left to events, in order. */
  function Delayed(lat: nat, src: InstRef, stages: seq<nat>, from: nat, row: seq<nat>): seq<WakeEvent>
    requires from < |stages| && forall k :: 0 <= k < |row| ==> row[k] < |stages|
  {
    if row == [] then []
    else
      var to := row[|row| - 1];
      var d := WakeDelay(lat, stages[from], stages[to]);
      Delayed(lat, src, stages, from, row[..|row| - 1]) + (if d != 0 then [WakeEvent(d, to, src)] else [])
  }

  lemma DelayedSnoc(lat: nat, src: InstRef, stages: seq<nat>, from: nat, row: seq<nat>, k: nat)
    requires from < |stages| && k < |row| && forall j :: 0 <= j < |row| ==> row[j] < |stages|
    ensures var d := WakeDelay(lat, stages[from], stages[row[k]]);
      Delayed(lat, src, stages, from, row[..k + 1]) == Delayed(lat, src, stages, from, row[..k]) + (if d != 0 then [WakeEvent(d, row[k], src)] else [])
  {
    assert row[..k + 1][..k] == row[..k];
  }

  /** The loop of `specWakeUpDependents` that creates the events. */
  method DelayedLoop(lat: nat, src: InstRef, stages: seq<nat>, from: nat, row: seq<nat>) returns (events: seq<WakeEvent>)
    requires from < |stages| && forall k :: 0 <= k < |row| ==> row[k] < |stages|
    ensures events == Delayed(lat, src, stages, from, row)
  {
    events := [];
    for k := 0 to |row|
      invariant events == Delayed(lat, src, stages, from, row[..k])
    {
      DelayedSnoc(lat, src, stages, from, row, k);
      var d := WakeDelay(lat, stages[from], stages[row[k]]);
      if d != 0 {
        events := events + [WakeEvent(d, row[k], src)];
      }
    }
    assert row[..|row|] == row;
  }

  /** The queues of `row` woken at once. */
  function Immediate(lat: nat, stages: seq<nat>, from: nat, row: seq<nat>): set<nat>
    requires from < |stages| && forall k :: 0 <= k < |row| ==> row[k] < |stages|
  {
    set k | 0 <= k < |row| && WakeDelay(lat, stages[from], stages[row[k]]) == 0 :: row[k]
  }

  lemma ImmediateSnoc(lat: nat, stages: seq<nat>, from: nat, row: seq<nat>, k: nat)
    requires from < |stages| && k < |row| && forall j :: 0 <= j < |row| ==> row[j] < |stages|
    ensures Immediate(lat, stages, from, row[..k + 1])
      == Immediate(lat, stages, from, row[..k]) + (if WakeDelay(lat, stages[from], stages[row[k]]) == 0 then {row[k]} else {})
  {
    var a, b := row[..k + 1], row[..k];
    forall t | t in Immediate(lat, stages, from, a)
      ensures t in Immediate(lat, stages, from, b) + (if WakeDelay(lat, stages[from], stages[row[k]]) == 0 then {row[k]} else {})
    {
      var j :| 0 <= j < |a| && WakeDelay(lat, stages[from], stages[a[j]]) == 0 && a[j] == t;
      if j < k {
        assert b[j] == a[j];
      }
    }
    forall t | t in Immediate(lat, stages, from, b) ensures t in Immediate(lat, stages, from, a) {
      var j :| 0 <= j < |b| && WakeDelay(lat, stages[from], stages[b[j]]) == 0 && b[j] == t;
      assert a[j] == b[j];
    }
  }

  // ---------------------------------------------------------------------
  // `issueToFu`

  /** Every source of `srcs` that is not fixed-mapped has its bypass scoreboard entry set. */
  predicate OnBypass(srcs: seq<PhysReg>, notBypassed: set<nat>)
  {
    forall k :: 0 <= k < |srcs| && !srcs[k].fixed ==> srcs[k].flat !in notBypassed
  }

  /** The loop of `checkScoreboard`: the first source, fixed-mapped ones skipped, whose bypass
   *  scoreboard entry is false, or the number of sources when there is none. */
  method FirstOffBypass(srcs: seq<PhysReg>, notBypassed: set<nat>) returns (k: nat)
    ensures k <= |srcs| && OnBypass(srcs[..k], notBypassed)
    ensures k < |srcs| ==> !srcs[k].fixed && srcs[k].flat in notBypassed
    ensures k == |srcs| <==> OnBypass(srcs, notBypassed)
  {
    for i := 0 to |srcs|
      invariant OnBypass(srcs[..i], notBypassed)
    {
      if !srcs[i].fixed && srcs[i].flat in notBypassed {
        return i;
      }
    }
    assert srcs[..|srcs|] == srcs;
    return |srcs|;
  }

  /** Records b keep every instruction of a, and every one issued in a is still issued. */
  predicate IssuedKept(a: map<SeqNum, Inst>, b: map<SeqNum, Inst>)
  {
    a.Keys <= b.Keys && forall c :: c in a && a[c].status.issued ==> b[c].status.issued
  }

  /** The outcome of `CancelProducer` for a register x, between the records before and after:
   *  `found` is an instruction whose first destination is x; the call succeeds exactly when
   *  it is a load, which is then canceled; otherwise nothing changes. */
  ghost predicate ProducerCanceled(before: seq<map<SeqNum, Inst>>, after: seq<map<SeqNum, Inst>>, x: nat,
                                   ok: bool, found: Option<(nat, SeqNum)>)
  {
    && (found.Some? ==> RefIn(before, found.value) && DstIs(before[found.value.0], found.value.1, x))
    && (ok <==> found.Some? && RefIn(before, found.value) && before[found.value.0][found.value.1].info.isLoad)
    && (!ok ==> after == before)
    && (ok ==> RefIn(after, found.value) && after[found.value.0][found.value.1].status.canceled)
  }

  /** The outcome of `checkScoreboard` and `addToFu` on the records of a queue, from a to b,
   *  for instruction sn whose sources are all on the bypass network (`pass`) or not: it is
   *  sent to the units (`went`) exactly when it passes and was not issued, and is then
   *  issued; one that passes but was issued is the panic of `addToFu`; no issued flag is
   *  lost. */
  ghost predicate Sent(a: map<SeqNum, Inst>, b: map<SeqNum, Inst>, sn: SeqNum, pass: bool, ok: bool, went: bool)
  {
    && sn in a && IssuedKept(a, b)
    && (went ==> ok && b[sn].status.issued)
    && (went <==> pass && !a[sn].status.issued)
    && (pass && a[sn].status.issued ==> !ok)
  }

  /** An instruction refused by `checkScoreboard`, or the panic of `checkScoreboard`, is not sent. */
  lemma SentRefused(a: map<SeqNum, Inst>, b: map<SeqNum, Inst>, sn: SeqNum, pass: bool, ok: bool)
    requires sn in a && IssuedKept(a, b) && (!ok || !pass) && (pass ==> ok)
    ensures Sent(a, b, sn, pass, ok, false)
  {
  }

  lemma IssuedKeptTrans(a: map<SeqNum, Inst>, b: map<SeqNum, Inst>, c: map<SeqNum, Inst>)
    requires IssuedKept(a, b) && IssuedKept(b, c)
    ensures IssuedKept(a, c)
  {
  }

  /** One round of the first loop of `issueToFu`, from records `a` to `b`: what was issued
   *  stays issued, and sn joins `issued` when it went to the units. */
  lemma IssuedStep(insts0: map<SeqNum, Inst>, a: map<SeqNum, Inst>, b: map<SeqNum, Inst>, issued: seq<SeqNum>, sn: SeqNum, went: bool)
    requires IssuedKept(insts0, a) && forall c :: c in issued ==> c in a && a[c].status.issued
    requires IssuedKept(a, b) && (went ==> sn in b && b[sn].status.issued)
    ensures IssuedKept(insts0, b)
    ensures forall c :: c in (if went then issued + [sn] else issued) ==> c in b && b[c].status.issued
  {
  }

  /** Canceling keeps every record's description and issue port. */
  lemma CancelStepSteady(a: map<SeqNum, Inst>, b: map<SeqNum, Inst>)
    requires CancelStep(a, b)
    ensures Steady(a, b)
  {
    forall c | c in a ensures b[c].info == a[c].info && b[c].status.issuePort == a[c].status.issuePort {
      assert LessReady(a[c], b[c]);
    }
  }

  /** What became of one slot popped by `issueToFu`: it was empty, its instruction was
   *  replayed (its port busy), refused by `checkScoreboard`, or issued. */
  datatype Fate = Empty | Replayed | Refused | Issued

  /** One pop of `issueToFu`: the slot and what became of it. */
  datatype Pop = Pop(slot: Option<SeqNum>, fate: Fate)

  /** The records keep their instructions, and each its description and issue port. */
  predicate Steady(a: map<SeqNum, Inst>, b: map<SeqNum, Inst>)
  {
    a.Keys == b.Keys && forall c :: c in a ==> b[c].info == a[c].info && b[c].status.issuePort == a[c].status.issuePort
  }

  /** Why pop p had its fate, with the ports of the queue as busy as `busy`: an empty slot
   *  does nothing; otherwise the instruction is replayed exactly when its port is busy, and,
   *  its port free, issued exactly when all its sources are on the bypass network. */
  predicate FateOk(p: Pop, insts: map<SeqNum, Inst>, busy: seq<int>, notBypassed: set<nat>)
  {
    match p.slot
    case None => p.fate == Empty
    case Some(x) =>
      && x in insts && p.fate != Empty
      && var pi := insts[x].status.issuePort;
         && 0 <= pi < |busy|
         && (busy[pi] != 0 <==> p.fate == Replayed)
         && (busy[pi] == 0 ==> (p.fate == Issued <==> OnBypass(insts[x].info.srcs, notBypassed)))
  }

  /** The ready queues after pop p: a replayed instruction goes back to its class's queue. */
  function ReplayStep(qs: seq<seq<SeqNum>>, classify: map<OpClass, nat>, insts: map<SeqNum, Inst>, p: Pop): (r: seq<seq<SeqNum>>)
    requires QueuesOk(qs, classify)
    ensures QueuesOk(r, classify)
  {
    if p.fate == Replayed && p.slot.Some? && p.slot.value in insts
    then PushClass(qs, classify, insts[p.slot.value].info.opClass, p.slot.value)
    else qs
  }

  /** The busy counters after pop p: an issued op that is not pipelined holds its port for its
   *  latency less one cycles. */
  function BusyStep(busy: seq<int>, piped: map<OpClass, bool>, lat: map<OpClass, nat>, insts: map<SeqNum, Inst>, p: Pop): (r: seq<int>)
    ensures |r| == |busy|
  {
    if p.fate == Issued && p.slot.Some? && p.slot.value in insts then
      var rec := insts[p.slot.value];
      var pi := rec.status.issuePort;
      if 0 <= pi < |busy| && !OpPipelined(piped, rec.info.opClass) then busy[pi := OpLatency(lat, rec.info.opClass) - 1] else busy
    else busy
  }

  /** The popped slots in stage order: the last popped first. */
  function StageOrder(pops: seq<Pop>): (r: seq<Option<SeqNum>>)
    ensures |r| == |pops|
  {
    if pops == [] then [] else [pops[|pops| - 1].slot] + StageOrder(pops[..|pops| - 1])
  }

  /** The instructions issued, in pop order. */
  function IssuedOf(pops: seq<Pop>): seq<SeqNum>
  {
    if pops == [] then []
    else
      var p := pops[|pops| - 1];
      IssuedOf(pops[..|pops| - 1]) + if p.fate == Issued && p.slot.Some? then [p.slot.value] else []
  }

  /** The ready queues after the pops, replays pushed in pop order. */
  function Replays(qs: seq<seq<SeqNum>>, classify: map<OpClass, nat>, insts: map<SeqNum, Inst>, pops: seq<Pop>): (r: seq<seq<SeqNum>>)
    requires QueuesOk(qs, classify)
    ensures QueuesOk(r, classify)
  {
    if pops == [] then qs else ReplayStep(Replays(qs, classify, insts, pops[..|pops| - 1]), classify, insts, pops[|pops| - 1])
  }

  /** The busy counters after the pops. */
  function BusyAfter(busy: seq<int>, piped: map<OpClass, bool>, lat: map<OpClass, nat>, insts: map<SeqNum, Inst>, pops: seq<Pop>): (r: seq<int>)
    ensures |r| == |busy|
  {
    if pops == [] then busy else BusyStep(BusyAfter(busy, piped, lat, insts, pops[..|pops| - 1]), piped, lat, insts, pops[|pops| - 1])
  }

  /** Every pop had its fate for its reason, the ports as busy as the pops before it left them. */
  predicate Fated(pops: seq<Pop>, busy: seq<int>, piped: map<OpClass, bool>, lat: map<OpClass, nat>,
                  insts: map<SeqNum, Inst>, notBypassed: set<nat>)
  {
    pops != [] ==>
      var init := pops[..|pops| - 1];
      Fated(init, busy, piped, lat, insts, notBypassed) && FateOk(pops[|pops| - 1], insts, BusyAfter(busy, piped, lat, insts, init), notBypassed)
  }

  /** The first loop of `issueToFu` so far, from a stage whose live slots were `stage0`, records
   *  `insts0`, ready queues `ready0` and busy counters `busy0`: `live` is what is left of the
   *  stage, and the ready queues, the busy counters and the instructions issued are what the
   *  pops made of them. */
  predicate PopsHold(stage0: seq<Option<SeqNum>>, live: seq<Option<SeqNum>>, insts0: map<SeqNum, Inst>, insts: map<SeqNum, Inst>,
                     classify: map<OpClass, nat>, ready0: seq<seq<SeqNum>>, ready: seq<seq<SeqNum>>,
                     piped: map<OpClass, bool>, lat: map<OpClass, nat>, busy0: seq<int>, busy: seq<int>,
                     notBypassed: set<nat>, pops: seq<Pop>, issued: seq<SeqNum>)
  {
    && SlotsNulled(stage0, live + StageOrder(pops))
    && Steady(insts0, insts)
    && QueuesOk(ready0, classify) && ready == Replays(ready0, classify, insts0, pops)
    && busy == BusyAfter(busy0, piped, lat, insts0, pops)
    && Fated(pops, busy0, piped, lat, insts0, notBypassed)
    && issued == IssuedOf(pops)
  }

  /** One more pop keeps `PopsHold`: p was popped off `live`, leaving `live1`, and its
   *  instruction emptied some of those slots, leaving `live'`. */
  lemma PopsHoldNext(stage0: seq<Option<SeqNum>>, live: seq<Option<SeqNum>>, live1: seq<Option<SeqNum>>, live': seq<Option<SeqNum>>,
                     insts0: map<SeqNum, Inst>, insts: map<SeqNum, Inst>, insts': map<SeqNum, Inst>,
                     classify: map<OpClass, nat>, ready0: seq<seq<SeqNum>>, ready: seq<seq<SeqNum>>, ready': seq<seq<SeqNum>>,
                     piped: map<OpClass, bool>, lat: map<OpClass, nat>, busy0: seq<int>, busy: seq<int>, busy': seq<int>,
                     notBypassed: set<nat>, pops: seq<Pop>, issued: seq<SeqNum>, p: Pop)
    requires PopsHold(stage0, live, insts0, insts, classify, ready0, ready, piped, lat, busy0, busy, notBypassed, pops, issued)
    requires live == live1 + [p.slot] && SlotsNulled(live1, live') && Steady(insts, insts')
    requires FateOk(p, insts, busy, notBypassed)
    requires ready' == ReplayStep(ready, classify, insts, p) && busy' == BusyStep(busy, piped, lat, insts, p)
    ensures PopsHold(stage0, live', insts0, insts', classify, ready0, ready', piped, lat, busy0, busy', notBypassed, pops + [p],
                     issued + if p.fate == Issued && p.slot.Some? then [p.slot.value] else [])
  {
    var pops' := pops + [p];
    assert pops'[..|pops|] == pops;
    assert StageOrder(pops') == [p.slot] + StageOrder(pops);
    assert live + StageOrder(pops) == live1 + StageOrder(pops');
    assert SlotsNulled(live1 + StageOrder(pops'), live' + StageOrder(pops')) by {
      forall k | 0 <= k < |live1 + StageOrder(pops')|
        ensures (live' + StageOrder(pops'))[k] == (live1 + StageOrder(pops'))[k] || (live' + StageOrder(pops'))[k] == None
      {
        if k < |live1| {
          assert (live' + StageOrder(pops'))[k] == live'[k];
        }
      }
    }
    SlotsNulledTrans(stage0, live1 + StageOrder(pops'), live' + StageOrder(pops'));
    assert ReplayStep(ready, classify, insts, p) == ReplayStep(ready, classify, insts0, p);
    assert BusyStep(busy, piped, lat, insts, p) == BusyStep(busy, piped, lat, insts0, p);
    assert FateOk(p, insts0, busy, notBypassed);
  }

  lemma CancelStepsIssued(a: seq<map<SeqNum, Inst>>, b: seq<map<SeqNum, Inst>>, q: nat)
    requires CancelSteps(a, b) && q < |a|
    ensures IssuedKept(a[q], b[q])
  {
    assert CancelStep(a[q], b[q]);
  }

  lemma TagSnoc(j: nat, ps: seq<SeqNum>, c: SeqNum)
    ensures Tag(j, ps + [c]) == Tag(j, ps) + [(j, c)]
  {
    assert forall i :: 0 <= i < |ps| ==> (ps + [c])[i] == ps[i];
  }

  /** `instsToFu` after one more instruction of queue q may have been sent. */
  lemma TagStep(fu0: seq<InstRef>, fu: seq<InstRef>, fu': seq<InstRef>, q: nat, issued: seq<SeqNum>, sn: SeqNum, went: bool)
    requires fu == fu0 + Tag(q, issued) && fu' == fu + if went then [(q, sn)] else []
    ensures fu' == fu0 + Tag(q, if went then issued + [sn] else issued)
  {
    if went {
      TagSnoc(q, issued, sn);
      AppendAssoc(fu0, Tag(q, issued), [(q, sn)]);
    }
  }

  // ---------------------------------------------------------------------
  // `issueAndSelect`: the read-port arbitration names only existing instructions

  /** Every instruction the arbiter names (the holder of a port, or one that failed) is
   *  instruction `r.1` of queue `r.0`, with `keys[j]` the instructions of queue j. */
  predicate ArbRefsIn(a: RfArbiter, keys: seq<set<SeqNum>>)
  {
    && (forall k :: 0 <= k < |a.arbFailed| ==> a.arbFailed[k].0 < |keys| && a.arbFailed[k].1 in keys[a.arbFailed[k].0])
    && (forall tp :: tp in a.occupancy ==> a.occupancy[tp].0.0 < |keys| && a.occupancy[tp].0.1 in keys[a.occupancy[tp].0.0])
  }

  /** `ArbRefsIn`, stated on the instructions the arbiter names. */
  lemma ArbRefsNamed(a: RfArbiter, keys: seq<set<SeqNum>>)
    ensures ArbRefsIn(a, keys) <==> forall x :: x in Named(a) ==> x.0 < |keys| && x.1 in keys[x.0]
  {
    if ArbRefsIn(a, keys) {
      forall x | x in Named(a) ensures x.0 < |keys| && x.1 in keys[x.0] {
        if k :| 0 <= k < |a.arbFailed| && a.arbFailed[k] == x {
        } else {
          var tp :| tp in a.occupancy && a.occupancy[tp].0 == x;
        }
      }
    }
    if forall x :: x in Named(a) ==> x.0 < |keys| && x.1 in keys[x.0] {
      assert forall k :: 0 <= k < |a.arbFailed| ==> a.arbFailed[k] in Named(a);
      assert forall tp :: tp in a.occupancy ==> a.occupancy[tp].0 in Named(a);
    }
  }

  /** The read-port requests of the instructions queue `iqId` selected name only instructions
   *  of the queues. */
  lemma ArbitrateSelRefs(a: RfArbiter, insts: map<SeqNum, Inst>, sel: seq<(nat, SeqNum)>,
                         intIds: seq<seq<(nat, nat)>>, fpIds: seq<seq<(nat, nat)>>, iqId: nat,
                         keys: seq<set<SeqNum>>)
    requires forall k :: 0 <= k < |sel| ==> sel[k].1 in insts && sel[k].0 < |intIds| && sel[k].0 < |fpIds|
    requires ArbRefsIn(a, keys) && iqId < |keys| && insts.Keys <= keys[iqId]
    ensures ArbRefsIn(ArbitrateSel(a, insts, sel, intIds, fpIds, iqId), keys)
  {
    var r := ArbitrateSel(a, insts, sel, intIds, fpIds, iqId);
    ArbRefsNamed(a, keys);
    ArbRefsNamed(r, keys);
    forall x | x in Named(r) ensures x.0 < |keys| && x.1 in keys[x.0] {
      if x !in Named(a) {
        assert x in QueueRefs(iqId, insts.Keys);
      }
    }
  }

  /** The slots of an issue stage holding the instructions s, in push order. */
  function Wrap(s: seq<SeqNum>): (r: seq<Option<SeqNum>>)
    ensures |r| == |s| && forall i :: 0 <= i < |s| ==> r[i] == Some(s[i])
  {
    seq(|s|, i requires 0 <= i < |s| => Some(s[i]))
  }

  lemma WrapSnoc(s: seq<SeqNum>, x: SeqNum)
    ensures Wrap(s + [x]) == Wrap(s) + [Some(x)]
  {
  }

  // ---------------------------------------------------------------------
  // The scheduler

  /** A wake-up the scheduler leaves to an event: after `delay` cycles queue `to` is woken by
   *  the producer `inst`. */
  datatype WakeEvent = WakeEvent(delay: int, to: nat, inst: InstRef)

  /** Whether the selected instruction sn is scheduled by `scheduleInst`: it has a record
   *  whose cancel and arbitration-failed flags are both clear. */
  predicate Schedules(m: map<SeqNum, Inst>, sn: SeqNum)
  {
    sn in m && !m[sn].status.canceled && !m[sn].status.arbFailed
  }

  /** The records after `scheduleInst` handles the selection of sn on port pi: the arbitration
   *  flag is cleared; a retried instruction is marked as in a ready queue; a scheduled one
   *  leaves the queue and records its port. */
  function ScheduledRecords(m: map<SeqNum, Inst>, pi: nat, sn: SeqNum): map<SeqNum, Inst>
  {
    if sn !in m then m
    else
      var rec := m[sn];
      var st := rec.status.(arbFailed := false);
      if rec.status.canceled then m[sn := rec.(status := st)]
      else if rec.status.arbFailed then m[sn := rec.(status := st.(inReadyQ := true))]
      else m[sn := rec.(status := st.(inIQ := false, issuePort := pi))]
  }

  /** What `scheduleInst` of one queue changes, as values: every queue's records and ready
   *  queues, the early scoreboard, the delayed wake-ups collected and the instructions
   *  scheduled, in order. */
  datatype ScheduleState = ScheduleState(insts: seq<map<SeqNum, Inst>>, qs: seq<seq<seq<SeqNum>>>, notEarly: set<nat>,
                                         events: seq<WakeEvent>, scheduled: seq<SeqNum>)

  /** a is b with some of its elements left out, the others in order. */
  ghost predicate SubSeq<T>(a: seq<T>, b: seq<T>)
    decreases |b|
  {
    if a == [] then true
    else if b == [] then false
    else (a[|a| - 1] == b[|b| - 1] && SubSeq(a[..|a| - 1], b[..|b| - 1])) || SubSeq(a, b[..|b| - 1])
  }

  /** The instructions of a selection list, in order. */
  function SelectedSns(sel: seq<(nat, SeqNum)>): (r: seq<SeqNum>)
    ensures |r| == |sel| && forall k :: 0 <= k < |sel| ==> r[k] == sel[k].1
  {
    seq(|sel|, k requires 0 <= k < |sel| => sel[k].1)
  }

  lemma SubSeqSnoc<T>(a: seq<T>, b: seq<T>, x: T)
    requires SubSeq(a, b)
    ensures SubSeq(a + [x], b + [x]) && SubSeq(a, b + [x])
  {
    assert (a + [x])[..|a|] == a && (b + [x])[..|b|] == b;
  }

  /** The records of b keep every record of a, with no arbitration-failed or in-queue flag
   *  set that was clear in a. */
  ghost predicate FlagsKept(a: seq<map<SeqNum, Inst>>, b: seq<map<SeqNum, Inst>>)
  {
    && |b| == |a|
    && forall j, c :: 0 <= j < |a| && c in a[j] ==>
         && c in b[j]
         && (!a[j][c].status.arbFailed ==> !b[j][c].status.arbFailed)
         && (!a[j][c].status.inIQ ==> !b[j][c].status.inIQ)
  }

  lemma FlagsKeptTrans(a: seq<map<SeqNum, Inst>>, b: seq<map<SeqNum, Inst>>, c: seq<map<SeqNum, Inst>>)
    requires FlagsKept(a, b) && FlagsKept(b, c)
    ensures FlagsKept(a, c)
  {
  }

  class Scheduler {
    /** `issueQues`; queue i has index i (`setIQID`). */
    const queues: seq<IssueQue>
    const opLat: map<OpClass, nat>
    const pipelined: map<OpClass, bool>
    const wakeMatrix: seq<seq<nat>>
    /** `dispTable`, reordered by every `insert`. */
    var dispTable: map<OpClass, seq<nat>>
    /** The registers whose `scoreboard`, `bypassScoreboard` and `earlyScoreboard` entries
     *  are false. */
    var notReady: set<nat>
    var notBypassed: set<nat>
    var notEarly: set<nat>
    /** `rfPortOccupancy`, `arbFailedInsts` and the register cache. */
    var arb: RfArbiter
    var instsToFu: seq<InstRef>

    ghost predicate Tables()
      reads this`dispTable
    {
      && |wakeMatrix| == |queues|
      && (forall i, k :: 0 <= i < |wakeMatrix| && 0 <= k < |wakeMatrix[i]| ==> wakeMatrix[i][k] < |queues|)
      && (forall c, k :: c in dispTable && 0 <= k < |dispTable[c]| ==> dispTable[c][k] < |queues|)
    }

    /** Queue i has index i (so the queues are distinct objects). */
    predicate Indexed()
    {
      forall i :: 0 <= i < |queues| ==> queues[i].iqId == i
    }

    /** Every queue is consistent. */
    ghost predicate QueuesCore()
      reads queues
    {
      forall i :: 0 <= i < |queues| ==> queues[i].Core()
    }

    /** The scheduler at any point of a cycle. */
    ghost predicate Core()
      reads this`dispTable, queues
    {
      Tables() && Indexed() && QueuesCore()
    }

    /** `Core`, with the consistency of a queue drawn only where that queue's `Core` is
     *  named (it keeps the proofs of `scheduleInst` small). */
    ghost predicate CoreNamed()
      reads this`dispTable, queues
    {
      Tables() && Indexed() && forall i {:trigger queues[i].Core()} :: 0 <= i < |queues| ==> queues[i].Core()
    }

    lemma CoreIsNamed()
      requires Core()
      ensures CoreNamed()
    {
    }

    lemma NamedIsCore()
      requires CoreNamed()
      ensures Core()
    {
    }

    /** The scheduler between cycles: no port is claimed and no queue has a stage-0 issue. */
    ghost predicate Valid()
      reads this`dispTable, this`arb, queues
    {
      Core() && arb.occupancy == map[] && arb.arbFailed == [] && StagesClear()
    }

    /** No queue has an instruction in issue stage 0. */
    ghost predicate StagesClear()
      reads queues
    {
      forall i :: 0 <= i < |queues| && queues[i].inflight != [] ==> queues[i].inflight[0].size == 0
    }

    /**
     * The constructor with `resetDepGraph`: `ops[i]` is queue i's `fuDescs` with each op's
     * latency, and a queue without units is the panic; every scoreboard entry is ready; the
     * wake-up matrix is the cross-bar or the configured network.
     */
    constructor (queues: seq<IssueQue>, ops: seq<seq<OpDesc>>, xbar: bool, net: seq<(nat, seq<nat>)>)
      requires |ops| == |queues| && forall i :: 0 <= i < |queues| ==> queues[i].iqId == i && queues[i].Valid()
      requires forall i :: 0 <= i < |queues| ==> queues[i].fuDescs != [] && queues[i].DescsClassified()
      requires forall i :: 0 <= i < |queues| ==> DescribesUnits(ops[i], queues[i].fuDescs)
      ensures Valid() && this.queues == queues
      ensures OpTables(opLat, pipelined, dispTable) == BuildTables(ops)
      ensures forall c, k :: c in dispTable && 0 <= k < |dispTable[c]| ==> c in queues[dispTable[c][k]].classify
      ensures wakeMatrix == WakeMatrix(|queues|, xbar, net)
      ensures notReady == {} && notBypassed == {} && notEarly == {}
      ensures arb == RfArbiter(map[], [], []) && instsToFu == []
    {
      var t := BuildTablesLoop(ops);
      BuildTablesBounds(ops);
      forall c, k | c in t.disp && 0 <= k < |t.disp[c]| ensures c in queues[t.disp[c][k]].classify {
        var q := t.disp[c][k];
        BuildTablesDisp(ops, c, q);
        var j :| 0 <= j < |ops[q]| && ops[q][j].0 == c;
        assert queues[q].fuDescs[j].0 == c;
      }
      var m := BuildWakeMatrix(|queues|, xbar, net);
      this.queues := queues;
      opLat, pipelined, dispTable, wakeMatrix := t.lat, t.pipelined, t.disp, m;
      notReady, notBypassed, notEarly := {}, {}, {};
      arb, instsToFu := RfArbiter(map[], [], []), [];
    }

    /** `ready(inst)`: some queue of the class's dispatch list can take an instruction. */
    method ReadyFor(c: OpClass) returns (r: bool)
      requires Tables() && Disp(dispTable, c) != []
      ensures r <==> exists k :: 0 <= k < |dispTable[c]| && queues[dispTable[c][k]].Ready()
    {
      var iqs := dispTable[c];
      r := false;
      for k := 0 to |iqs|
        invariant r <==> exists j :: 0 <= j < k && queues[iqs[j]].Ready()
      {
        if queues[iqs[k]].Ready() {
          return true;
        }
      }
    }

    /** `full(inst)`: every queue of the class's dispatch list is full (so too when there is
     *  none). */
    method FullFor(c: OpClass) returns (r: bool)
      requires Tables()
      ensures r <==> forall k :: 0 <= k < |Disp(dispTable, c)| ==> queues[Disp(dispTable, c)[k]].Full()
    {
      var iqs := Disp(dispTable, c);
      for k := 0 to |iqs|
        invariant forall j :: 0 <= j < k ==> queues[iqs[j]].Full()
      {
        if !queues[iqs[k]].Full() {
          return false;
        }
      }
      return true;
    }

    /** `getInstByDstReg(x)`: the first instruction, queue by queue and in list order, whose
     *  first destination is x; none when no instruction has it. */
    method GetInstByDstReg(x: nat) returns (r: Option<InstRef>)
      requires Core()
      ensures r.Some? ==> var (q, k) := r.value;
        && q < |queues| && k < |queues[q].instList| && DstIs(queues[q].insts, queues[q].instList[k], x)
        && (forall j :: 0 <= j < k ==> !DstIs(queues[q].insts, queues[q].instList[j], x))
        && forall p, j :: 0 <= p < q && 0 <= j < |queues[p].instList| ==> !DstIs(queues[p].insts, queues[p].instList[j], x)
      ensures r.None? ==> forall p, j :: 0 <= p < |queues| && 0 <= j < |queues[p].instList| ==> !DstIs(queues[p].insts, queues[p].instList[j], x)
    {
      for q := 0 to |queues|
        invariant forall p, j :: 0 <= p < q && 0 <= j < |queues[p].instList| ==> !DstIs(queues[p].insts, queues[p].instList[j], x)
      {
        var k := FindDst(queues[q].insts, queues[q].instList, x);
        if k < |queues[q].instList| {
          return Some((q, k));
        }
      }
      return None;
    }

    /** `addProducer`: every destination that is not fixed-mapped becomes not ready in all
     *  three scoreboards. */
    method AddProducer(dsts: seq<PhysReg>)
      modifies this`notReady, this`notBypassed, this`notEarly
      ensures notReady == old(notReady) + NonFixedRegs(dsts)
      ensures notBypassed == old(notBypassed) + NonFixedRegs(dsts)
      ensures notEarly == old(notEarly) + NonFixedRegs(dsts)
    {
      for k := 0 to |dsts|
        invariant notReady == old(notReady) + NonFixedRegs(dsts[..k])
        invariant notBypassed == old(notBypassed) + NonFixedRegs(dsts[..k])
        invariant notEarly == old(notEarly) + NonFixedRegs(dsts[..k])
      {
        NonFixedRegsSnoc(dsts, k);
        if !dsts[k].fixed {
          var x := dsts[k].flat;
          notReady, notBypassed, notEarly := notReady + {x}, notBypassed + {x}, notEarly + {x};
        }
      }
      assert dsts[..|dsts|] == dsts;
    }

    /** `getInstToFU`: the last instruction added is handed out first; none when there is
     *  none. */
    method GetInstToFU() returns (r: Option<InstRef>)
      modifies this`instsToFu
      ensures old(instsToFu) == [] ==> r == None && instsToFu == []
      ensures old(instsToFu) != [] ==> r == Some(old(instsToFu)[|old(instsToFu)| - 1]) && old(instsToFu) == instsToFu + [r.value]
    {
      if instsToFu == [] {
        return None;
      }
      r := Some(instsToFu[|instsToFu| - 1]);
      instsToFu := instsToFu[..|instsToFu| - 1];
    }

    /** `isDrained`: no queue's instruction list holds anything. */
    method IsDrained() returns (r: bool)
      ensures r <==> forall j :: 0 <= j < |queues| ==> queues[j].instList == []
    {
      for j := 0 to |queues|
        invariant forall p :: 0 <= p < j ==> queues[p].instList == []
      {
        if queues[j].instList != [] {
          return false;
        }
      }
      return true;
    }

    /** `getIQInsts`: the queues' counted instructions, summed in 32 bits. */
    method GetIQInsts() returns (total: nat)
      ensures total == SumNat(seq(|queues|, j requires 0 <= j < |queues| reads queues => queues[j].instNum)) % U32
    {
      ghost var s := seq(|queues|, j requires 0 <= j < |queues| reads queues => queues[j].instNum);
      total := 0;
      for j := 0 to |queues|
        invariant total == SumNat(s[..j]) % U32
      {
        assert s[..j + 1][..j] == s[..j];
        total := (total + queues[j].instNum) % U32;
      }
      assert s[..|queues|] == s;
    }

    /** The intended `hasReadyInsts`: some queue has an instruction in a ready queue or in
     *  its replay queue. */
    method HasReadyInsts() returns (r: bool)
      requires Core()
      ensures r <==> exists j :: 0 <= j < |queues| && QueueBusy(queues[j].readyQs, queues[j].replayQ)
    {
      for j := 0 to |queues|
        invariant forall p :: 0 <= p < j ==> !QueueBusy(queues[p].readyQs, queues[p].replayQ)
      {
        var busy := queues[j].Idle();
        if busy {
          return true;
        }
      }
      return false;
    }

    /** The issue stages of every queue (`getIssueStages`). */
    function Stages(): (st: seq<nat>)
      ensures |st| == |queues| && forall j :: 0 <= j < |queues| ==> st[j] == queues[j].scheduleToExecDelay
    {
      seq(|queues|, j requires 0 <= j < |queues| => queues[j].scheduleToExecDelay)
    }

    /** `getCorrectedOpLat`. */
    function CorrectedLat(rec: Inst): nat
    {
      CorrectedOpLat(OpLatency(opLat, rec.info.opClass), rec.info.isLoad)
    }

    /** Queue j after a speculative wake-up by a producer with destinations `dsts`, from the
     *  records `insts0` and ready queues `qs0`: the entries of the dependency lists of the
     *  destinations are woken; a producer whose cancel flag is set (`canceled`) may instead
     *  have woken nothing. */
    ghost predicate SpecWoken(j: nat, insts0: map<SeqNum, Inst>, qs0: seq<seq<SeqNum>>, dsts: seq<PhysReg>, canceled: bool)
      requires j < |queues|
      reads queues[j]
    {
      && QueuesOk(qs0, queues[j].classify)
      && (|| WakeState(queues[j].insts, queues[j].readyQs)
               == WakeAll(WakeState(insts0, qs0), WokenEdges(queues[j].subDepGraph, dsts), queues[j].classify)
          || (canceled && queues[j].insts == insts0 && queues[j].readyQs == qs0))
    }

    /**
     * `specWakeUpDependents` for the instruction sn just scheduled in queue `from`: a
     * pipelined op with a destination, other than a vector load, wakes every queue of its
     * wake-up row. A queue whose delay is zero is woken now (`wakeUpDependents` with the
     * producer's cancel flag read at that moment) and the producer's destinations become
     * early-ready; the other wake-ups are returned as events, in row order. Every queue woken
     * now has the consumers of the producer's destinations woken (`SpecWoken`) and every other
     * queue is left alone; as the modifies clause says, no queue's dependency lists, issue
     * stages or counters change.
     */
    method SpecWakeUp(from: nat, sn: SeqNum) returns (events: seq<WakeEvent>)
      requires Core() && from < |queues| && sn in queues[from].insts
      modifies this`notEarly, queues`insts, queues`readyQs
      ensures Core()
      ensures var rec := old(queues[from].insts[sn]);
        if !SpecWakes(rec, OpPipelined(pipelined, rec.info.opClass)) then
          && events == [] && notEarly == old(notEarly)
          && forall j :: 0 <= j < |queues| ==> queues[j].insts == old(queues[j].insts) && queues[j].readyQs == old(queues[j].readyQs)
        else
          var imm := Immediate(CorrectedLat(rec), Stages(), from, wakeMatrix[from]);
          && events == Delayed(CorrectedLat(rec), (from, sn), Stages(), from, wakeMatrix[from])
          && notEarly == (if imm == {} then old(notEarly) else old(notEarly) - NonFixedRegs(rec.info.dsts))
          && forall j :: 0 <= j < |queues| ==>
               RowAccount(j, old(queues[j].insts), old(queues[j].readyQs), rec.info.dsts, rec.status.canceled, j in imm)
    {
      var rec := queues[from].insts[sn];
      if !SpecWakes(rec, OpPipelined(pipelined, rec.info.opClass)) {
        return [];
      }
      var row, lat, st := wakeMatrix[from], CorrectedLat(rec), Stages();
      // The events only fire in later cycles: they are collected apart from the wake-ups.
      events := DelayedLoop(lat, (from, sn), st, from, row);
      // No wake-up reads the early scoreboard, so marking the destinations once before the
      // row is the same as marking them at every immediate wake-up.
      if Immediate(lat, st, from, row) != {} {
        MarkEarly(rec.info.dsts);
      }
      WakeRow(lat, from, row, sn, rec.info.dsts);
    }

    /** The non-fixed destinations `dsts` become early-ready. */
    method MarkEarly(dsts: seq<PhysReg>)
      modifies this`notEarly
      ensures notEarly == old(notEarly) - NonFixedRegs(dsts)
    {
      notEarly := ClearRegs(notEarly, dsts);
    }

    /** The immediate wake-ups of one row: each queue of `row` whose delay is zero is woken
     *  now, by the producer's destinations; the other queues are left as they were. */
    method WakeRow(lat: nat, from: nat, row: seq<nat>, sn: SeqNum, dsts: seq<PhysReg>)
      requires Core() && from < |queues| && sn in queues[from].insts
      requires forall k :: 0 <= k < |row| ==> row[k] < |queues|
      modifies queues`insts, queues`readyQs
      ensures Core()
      ensures forall j :: 0 <= j < |queues| ==>
        RowAccount(j, old(queues[j].insts), old(queues[j].readyQs), dsts, old(queues[from].insts[sn].status.canceled),
                   j in Immediate(lat, Stages(), from, row))
    {
      var st := Stages();
      ghost var c0 := queues[from].insts[sn].status.canceled;
      ghost var insts0 := seq(|queues|, j requires 0 <= j < |queues| reads queues => queues[j].insts);
      ghost var qs0 := seq(|queues|, j requires 0 <= j < |queues| reads queues => queues[j].readyQs);
      for k := 0 to |row|
        invariant RowTo(Immediate(lat, st, from, row[..k]), from, sn, dsts, c0, insts0, qs0)
      {
        WakeRowNext(lat, st, from, row, k, sn, dsts, c0, insts0, qs0);
      }
      assert row[..|row|] == row;
    }

    /** The loop of `WakeRow` once the queues of `woken` have been reached. */
    ghost predicate RowTo(woken: set<nat>, from: nat, sn: SeqNum, dsts: seq<PhysReg>, c0: bool,
                          insts0: seq<map<SeqNum, Inst>>, qs0: seq<seq<seq<SeqNum>>>)
      reads this`dispTable, queues
    {
      && Core() && from < |queues| && sn in queues[from].insts
      && (!c0 ==> !queues[from].insts[sn].status.canceled)
      && |insts0| == |queues| && |qs0| == |queues|
      && forall j :: 0 <= j < |queues| ==> RowAccount(j, insts0[j], qs0[j], dsts, c0, j in woken)
    }

    /** One round of `WakeRow`: the k-th queue of the row is woken when its delay is zero. */
    method WakeRowNext(lat: nat, st: seq<nat>, from: nat, row: seq<nat>, k: nat, sn: SeqNum, dsts: seq<PhysReg>, ghost c0: bool,
                       ghost insts0: seq<map<SeqNum, Inst>>, ghost qs0: seq<seq<seq<SeqNum>>>)
      requires k < |row| && from < |st| == |queues| && (forall j :: 0 <= j < |row| ==> row[j] < |queues|)
      requires RowTo(Immediate(lat, st, from, row[..k]), from, sn, dsts, c0, insts0, qs0)
      modifies queues`insts, queues`readyQs
      ensures RowTo(Immediate(lat, st, from, row[..k + 1]), from, sn, dsts, c0, insts0, qs0)
    {
      ImmediateSnoc(lat, st, from, row, k);
      if WakeDelay(lat, st[from], st[row[k]]) == 0 {
        WakeRowStep(row[k], from, sn, dsts, c0, insts0, qs0, Immediate(lat, st, from, row[..k]));
      }
    }

    /** Queue j during the immediate wake-ups of a row, from the records `insts0` and ready
     *  queues `qs0`: woken when the row has reached it, untouched otherwise. */
    ghost predicate RowAccount(j: nat, insts0: map<SeqNum, Inst>, qs0: seq<seq<SeqNum>>, dsts: seq<PhysReg>,
                               canceled: bool, woken: bool)
      requires j < |queues|
      reads queues[j]
    {
      if woken then SpecWoken(j, insts0, qs0, dsts, canceled)
      else queues[j].insts == insts0 && queues[j].readyQs == qs0
    }

    /** One immediate wake-up of the row, of queue t, keeps the loop's account of every queue:
     *  queue j had the records `insts0[j]` and ready queues `qs0[j]` before the row, and the
     *  queues of `woken` have been reached. */
    method WakeRowStep(t: nat, from: nat, sn: SeqNum, dsts: seq<PhysReg>, ghost c0: bool,
                       ghost insts0: seq<map<SeqNum, Inst>>, ghost qs0: seq<seq<seq<SeqNum>>>, ghost woken: set<nat>)
      requires Core() && t < |queues| && from < |queues| && sn in queues[from].insts
      requires |insts0| == |queues| && |qs0| == |queues|
      requires !c0 ==> !queues[from].insts[sn].status.canceled
      requires forall j :: 0 <= j < |queues| ==> RowAccount(j, insts0[j], qs0[j], dsts, c0, j in woken)
      modifies {queues[t]}`insts, {queues[t]}`readyQs
      ensures Core() && sn in queues[from].insts
      ensures !c0 ==> !queues[from].insts[sn].status.canceled
      ensures forall j :: 0 <= j < |queues| ==> RowAccount(j, insts0[j], qs0[j], dsts, c0, j in woken + {t})
    {
      assert forall p :: 0 <= p < |queues| && p != t ==> queues[p] != queues[t] by {
        assert Indexed();
      }
      assert RowAccount(t, insts0[t], qs0[t], dsts, c0, t in woken);
      WakeAt(t, from, sn, dsts, c0, insts0[t], qs0[t], t in woken);
    }

    /** `WakeRowStep` for queue t itself. */
    method WakeAt(t: nat, from: nat, sn: SeqNum, dsts: seq<PhysReg>, ghost c0: bool,
                  ghost insts0: map<SeqNum, Inst>, ghost qs0: seq<seq<SeqNum>>, ghost woken: bool)
      requires Core() && t < |queues| && from < |queues| && sn in queues[from].insts
      requires !c0 ==> !queues[from].insts[sn].status.canceled
      requires RowAccount(t, insts0, qs0, dsts, c0, woken)
      modifies {queues[t]}`insts, {queues[t]}`readyQs
      ensures Core() && sn in queues[from].insts
      ensures !c0 ==> !queues[from].insts[sn].status.canceled
      ensures RowAccount(t, insts0, qs0, dsts, c0, true)
    {
      assert queues[t].Core();
      ghost var es, cls := WokenEdges(queues[t].subDepGraph, dsts), queues[t].classify;
      if QueuesOk(qs0, cls) {
        WakeAllIdempotent(WakeState(insts0, qs0), es, cls);
      }
      WakeNow(t, dsts, from, sn);
    }

    /** One immediate speculative wake-up of queue t by the producer sn of queue `from`, with
     *  the producer's cancel flag as it is at that moment: a canceled producer wakes nothing,
     *  any other wakes the consumers of its destinations, and its flag stays clear. */
    method WakeNow(t: nat, dsts: seq<PhysReg>, from: nat, sn: SeqNum)
      requires Core() && t < |queues| && from < |queues| && sn in queues[from].insts
      modifies {queues[t]}`insts, {queues[t]}`readyQs
      ensures Core() && sn in queues[from].insts
      ensures var f := old(queues[from].insts[sn].status.canceled);
        && (f ==> queues[t].insts == old(queues[t].insts) && queues[t].readyQs == old(queues[t].readyQs))
        && (!f ==> (&& QueuesOk(old(queues[t].readyQs), queues[t].classify)
                    && WakeState(queues[t].insts, queues[t].readyQs)
                       == WakeAll(WakeState(old(queues[t].insts), old(queues[t].readyQs)), WokenEdges(queues[t].subDepGraph, dsts), queues[t].classify)))
        && (!f ==> !queues[from].insts[sn].status.canceled)
    {
      assert queues[t].Core();
      var f := queues[from].insts[sn].status.canceled;
      queues[t].SpecWake(dsts, f);
      if !f && t == from {
        WakeAllUncanceled(WakeState(old(queues[t].insts), old(queues[t].readyQs)), WokenEdges(queues[t].subDepGraph, dsts), queues[t].classify, sn);
      }
    }

    /** Queue j and the writeback of destinations `dsts`, from the records `insts0`, ready
     *  queues `qs0` and dependency lists `g0`: once done, the consumers on the lists of the
     *  destinations are woken (whatever the producer's cancel flag) and those lists are
     *  emptied; before, the queue is as it was. */
    ghost predicate WritebackAccount(j: nat, insts0: map<SeqNum, Inst>, qs0: seq<seq<SeqNum>>, g0: map<nat, seq<Edge>>,
                                     dsts: seq<PhysReg>, done: bool)
      requires j < |queues|
      reads queues[j]
    {
      if done then
        && QueuesOk(qs0, queues[j].classify)
        && WakeState(queues[j].insts, queues[j].readyQs) == WakeAll(WakeState(insts0, qs0), WokenEdges(g0, dsts), queues[j].classify)
        && queues[j].subDepGraph == ClearWoken(g0, dsts)
      else queues[j].insts == insts0 && queues[j].readyQs == qs0 && queues[j].subDepGraph == g0
    }

    /** `writebackWakeup` for an instruction with destinations `dsts`: they become ready in
     *  the scoreboard, and every queue wakes their consumers and clears their lists. */
    method WritebackWakeup(dsts: seq<PhysReg>)
      requires Core()
      modifies this`notReady, queues`insts, queues`readyQs, queues`subDepGraph
      ensures Core() && notReady == old(notReady) - NonFixedRegs(dsts)
      ensures forall j :: 0 <= j < |queues| ==> queues[j].subDepGraph == ClearWoken(old(queues[j].subDepGraph), dsts)
      ensures forall j :: 0 <= j < |queues| ==>
        WritebackAccount(j, old(queues[j].insts), old(queues[j].readyQs), old(queues[j].subDepGraph), dsts, true)
    {
      notReady := ClearRegs(notReady, dsts);
      ghost var insts0 := seq(|queues|, j requires 0 <= j < |queues| reads queues => queues[j].insts);
      ghost var qs0 := seq(|queues|, j requires 0 <= j < |queues| reads queues => queues[j].readyQs);
      ghost var g0 := seq(|queues|, j requires 0 <= j < |queues| reads queues => queues[j].subDepGraph);
      assert forall p :: 0 <= p < |queues| ==>
        insts0[p] == old(queues[p].insts) && qs0[p] == old(queues[p].readyQs) && g0[p] == old(queues[p].subDepGraph);
      WritebackQueues(dsts, insts0, qs0, g0);
      forall p | 0 <= p < |queues|
        ensures queues[p].subDepGraph == ClearWoken(old(queues[p].subDepGraph), dsts)
      {
        assert WritebackAccount(p, insts0[p], qs0[p], g0[p], dsts, true);
      }
    }

    /** The loop of `writebackWakeup` over the queues, from their records `insts0`, `qs0`
     *  and `g0`. */
    method WritebackQueues(dsts: seq<PhysReg>, ghost insts0: seq<map<SeqNum, Inst>>,
                           ghost qs0: seq<seq<seq<SeqNum>>>, ghost g0: seq<map<nat, seq<Edge>>>)
      requires Core() && |insts0| == |queues| && |qs0| == |queues| && |g0| == |queues|
      requires forall p :: 0 <= p < |queues| ==> WritebackAccount(p, insts0[p], qs0[p], g0[p], dsts, false)
      modifies queues`insts, queues`readyQs, queues`subDepGraph
      ensures Core() && forall p :: 0 <= p < |queues| ==> WritebackAccount(p, insts0[p], qs0[p], g0[p], dsts, true)
    {
      for j := 0 to |queues|
        invariant Core()
        invariant forall p :: 0 <= p < |queues| ==> WritebackAccount(p, insts0[p], qs0[p], g0[p], dsts, p < j)
      {
        WritebackOne(j, dsts, insts0, qs0, g0);
      }
    }

    /** The writeback wake-up of queue t alone, seen from every queue. */
    method WritebackOne(t: nat, dsts: seq<PhysReg>, ghost insts0: seq<map<SeqNum, Inst>>,
                        ghost qs0: seq<seq<seq<SeqNum>>>, ghost g0: seq<map<nat, seq<Edge>>>)
      requires Core() && t < |queues| && |insts0| == |queues| && |qs0| == |queues| && |g0| == |queues|
      requires forall p :: 0 <= p < |queues| ==> WritebackAccount(p, insts0[p], qs0[p], g0[p], dsts, p < t)
      modifies {queues[t]}`insts, {queues[t]}`readyQs, {queues[t]}`subDepGraph
      ensures Core() && queues[t].subDepGraph == ClearWoken(old(queues[t].subDepGraph), dsts)
      ensures forall p :: 0 <= p < |queues| ==> WritebackAccount(p, insts0[p], qs0[p], g0[p], dsts, p <= t)
    {
      assert forall p :: 0 <= p < |queues| && p != t ==> queues[p] != queues[t] by {
        assert Indexed();
      }
      assert WritebackAccount(t, insts0[t], qs0[t], g0[t], dsts, false);
      assert queues[t].Core();
      queues[t].WritebackWake(dsts);
      assert WritebackAccount(t, insts0[t], qs0[t], g0[t], dsts, true);
    }

    /** `bypassWriteback` for an instruction of queue q issued on port `port` (negative when it
     *  had none) with destinations `dsts`: the port is freed and the destinations become
     *  readable from the bypass network. */
    method BypassWriteback(q: nat, port: int, dsts: seq<PhysReg>)
      requires Core() && q < |queues| && port < queues[q].outports
      modifies this`notBypassed, {queues[q]}`portBusy
      ensures Core() && notBypassed == old(notBypassed) - NonFixedRegs(dsts)
      ensures queues[q].portBusy == if port >= 0 then old(queues[q].portBusy)[port := 0] else old(queues[q].portBusy)
    {
      if port >= 0 {
        FreePort(q, port);
      }
      notBypassed := ClearRegs(notBypassed, dsts);
    }

    /** Port `port` of queue q is free again. */
    method FreePort(q: nat, port: nat)
      requires Core() && q < |queues| && port < queues[q].outports
      modifies {queues[q]}`portBusy
      ensures Core() && queues[q].portBusy == old(queues[q].portBusy)[port := 0]
    {
      assert forall p :: 0 <= p < |queues| && p != q ==> queues[p] != queues[q] by {
        assert Indexed();
      }
      var ok := queues[q].ClearBusy(port);
    }

    /** `insertNonSpec`: the first ready queue of the class's dispatch list takes the
     *  instruction; none may. */
    method InsertNonSpec(c: OpClass) returns (r: Option<nat>)
      requires Tables()
      ensures r.Some? <==> exists k :: 0 <= k < |Disp(dispTable, c)| && queues[Disp(dispTable, c)[k]].Ready()
      ensures r.Some? ==> exists k :: (0 <= k < |Disp(dispTable, c)| && Disp(dispTable, c)[k] == r.value
        && queues[r.value].Ready() && forall p :: 0 <= p < k ==> !queues[Disp(dispTable, c)[p]].Ready())
    {
      var iqs := Disp(dispTable, c);
      for k := 0 to |iqs|
        invariant forall p :: 0 <= p < k ==> !queues[iqs[p]].Ready()
      {
        if queues[iqs[k]].Ready() {
          return Some(iqs[k]);
        }
      }
      return None;
    }

    /** An order `insert` may leave in the dispatch list of class c: a reordering of the list
     *  (`std::sort` or `std::random_shuffle`), by ascending count of class-c instructions in
     *  the queue (`disp_policy`) for an integer op. */
    ghost predicate DispOrder(c: OpClass, order: seq<nat>, integer: bool)
      reads this, queues
    {
      && multiset(order) == multiset(Disp(dispTable, c))
      && (forall k :: 0 <= k < |order| ==> order[k] < |queues|)
      && (integer ==> forall i, j :: 0 <= i < j < |order| ==> OpCount(queues[order[i]].opNum, c) <= OpCount(queues[order[j]].opNum, c))
    }

    /**
     * `insert`: the dispatch list of the instruction's class is reordered (to `order`, the
     * outcome of the sort or the shuffle), and the first ready queue in the new order takes
     * the instruction, marked as in an issue queue. Some queue must be ready (the source
     * asserts it). For an integer op the chosen queue holds the fewest class-c instructions
     * among the ready ones.
     */
    method Insert(rec: Inst, order: seq<nat>) returns (k: nat)
      requires Valid() && WellFormed(rec) && !rec.status.issued && rec.status.issuePort < 0
      requires forall j :: 0 <= j < |queues| ==> rec.info.seqNum !in queues[j].insts
      requires DispOrder(rec.info.opClass, order, rec.info.isInteger)
      requires exists p :: 0 <= p < |order| && queues[order[p]].Ready()
      modifies this`dispTable, queues`insts, queues`instList, queues`instNum, queues`instNumInsert, queues`opNum
      modifies queues`subDepGraph, queues`readyQs
      ensures Valid() && dispTable == old(dispTable)[rec.info.opClass := order]
      ensures k < |order| && order[k] < |queues|
      ensures old(Chosen(rec.info.opClass, order, rec.info.isInteger, k))
      ensures var t := order[k];
        Placed(t, rec.(status := rec.status.(inIQ := true)), notReady, notEarly, old(queues[t].insts), old(queues[t].instList),
               old(queues[t].instNum), old(queues[t].instNumInsert), old(queues[t].opNum), old(queues[t].subDepGraph), old(queues[t].readyQs))
      ensures forall j :: 0 <= j < |queues| && j != order[k] ==> QueueKept(j, old(queues[j].insts), old(queues[j].instList),
        old(queues[j].instNum), old(queues[j].instNumInsert), old(queues[j].opNum), old(queues[j].subDepGraph), old(queues[j].readyQs))
    {
      k := InsertFirstReady(rec, order);
      SetOrder(rec.info.opClass, order);
    }

    /** `insert` in the dispatch order `order`, before the order is stored. */
    method InsertFirstReady(rec: Inst, order: seq<nat>) returns (k: nat)
      requires Valid() && WellFormed(rec) && !rec.status.issued && rec.status.issuePort < 0
      requires forall j :: 0 <= j < |queues| ==> rec.info.seqNum !in queues[j].insts
      requires DispOrder(rec.info.opClass, order, rec.info.isInteger)
      requires exists p :: 0 <= p < |order| && queues[order[p]].Ready()
      modifies queues`insts, queues`instList, queues`instNum, queues`instNumInsert, queues`opNum
      modifies queues`subDepGraph, queues`readyQs
      ensures Valid()
      ensures k < |order| && order[k] < |queues|
      ensures old(Chosen(rec.info.opClass, order, rec.info.isInteger, k))
      ensures var t := order[k];
        Placed(t, rec.(status := rec.status.(inIQ := true)), notReady, notEarly, old(queues[t].insts), old(queues[t].instList),
               old(queues[t].instNum), old(queues[t].instNumInsert), old(queues[t].opNum), old(queues[t].subDepGraph), old(queues[t].readyQs))
      ensures forall j :: 0 <= j < |queues| && j != order[k] ==> QueueKept(j, old(queues[j].insts), old(queues[j].instList),
        old(queues[j].instNum), old(queues[j].instNumInsert), old(queues[j].opNum), old(queues[j].subDepGraph), old(queues[j].readyQs))
    {
      k := FirstReady(rec.info.opClass, order, rec.info.isInteger);
      InsertInto(order[k], rec.(status := rec.status.(inIQ := true)));
    }

    /** The dispatch list of class c becomes `order`. */
    method SetOrder(c: OpClass, order: seq<nat>)
      requires Valid() && forall k :: 0 <= k < |order| ==> order[k] < |queues|
      modifies this`dispTable
      ensures Valid() && dispTable == old(dispTable)[c := order]
    {
      dispTable := dispTable[c := order];
    }

    /** Position k of `order` names the first ready queue, and for an integer op one with the
     *  fewest class-c instructions among the ready queues. */
    ghost predicate Chosen(c: OpClass, order: seq<nat>, integer: bool, k: nat)
      reads queues
    {
      && k < |order| && (forall p :: 0 <= p < |order| ==> order[p] < |queues|)
      && queues[order[k]].Ready() && (forall p :: 0 <= p < k ==> !queues[order[p]].Ready())
      && (integer ==> forall p :: 0 <= p < |order| && queues[order[p]].Ready() ==>
            OpCount(queues[order[k]].opNum, c) <= OpCount(queues[order[p]].opNum, c))
    }

    /** The first ready queue of a dispatch order; for an integer op, one with the fewest
     *  class-c instructions among the ready queues. */
    method FirstReady(c: OpClass, order: seq<nat>, integer: bool) returns (k: nat)
      requires DispOrder(c, order, integer)
      requires exists p :: 0 <= p < |order| && queues[order[p]].Ready()
      ensures k < |order| && order[k] < |queues| && Chosen(c, order, integer, k)
    {
      k := 0;
      while !queues[order[k]].Ready()
        invariant k < |order| && forall p :: 0 <= p < k ==> !queues[order[p]].Ready()
        decreases |order| - k
      {
        k := k + 1;
      }
    }

    /** Queue t's `insert`, with the scoreboards as its pending and early sets. */
    method InsertInto(t: nat, rec: Inst)
      requires Valid() && t < |queues| && queues[t].Ready()
      requires WellFormed(rec) && !rec.status.issued && rec.status.issuePort < 0 && rec.info.seqNum !in queues[t].insts
      modifies {queues[t]}`insts, {queues[t]}`instList, {queues[t]}`instNum, {queues[t]}`instNumInsert, {queues[t]}`opNum
      modifies {queues[t]}`subDepGraph, {queues[t]}`readyQs
      ensures Valid()
      ensures Placed(t, rec, notReady, notEarly, old(queues[t].insts), old(queues[t].instList), old(queues[t].instNum),
                     old(queues[t].instNumInsert), old(queues[t].opNum), old(queues[t].subDepGraph), old(queues[t].readyQs))
      ensures forall j :: 0 <= j < |queues| && j != t ==> QueueKept(j, old(queues[j].insts), old(queues[j].instList),
        old(queues[j].instNum), old(queues[j].instNumInsert), old(queues[j].opNum), old(queues[j].subDepGraph), old(queues[j].readyQs))
    {
      assert Indexed();
      queues[t].Insert(rec, notReady, notEarly);
    }

    /** Queue t holds rec as its `insert` leaves it, from the given earlier state: appended to the
     *  instruction list, recorded with its own information, assigned to queue t, and the rest
     *  of the queue as the queue's `InsertDone` says. */
    ghost predicate Placed(t: nat, rec: Inst, pending: set<nat>, early: set<nat>, insts0: map<SeqNum, Inst>,
                           instList0: seq<SeqNum>, instNum0: nat, instNumInsert0: nat, opNum0: map<OpClass, nat>,
                           g0: map<nat, seq<Edge>>, qs0: seq<seq<SeqNum>>)
      requires t < |queues|
      reads queues[t]
    {
      var q, sn := queues[t], rec.info.seqNum;
      && q.instList == instList0 + [sn]
      && sn in q.insts && q.insts[sn].info == rec.info
      && q.insts[sn].status.issueQue == t && q.insts[sn].status.inIQ == rec.status.inIQ
      && q.InsertDone(rec, pending, early, insts0, instNum0, instNumInsert0, opNum0, g0, qs0)
    }

    /** Queue j's record-keeping state is as it was. */
    ghost predicate QueueKept(j: nat, insts0: map<SeqNum, Inst>, instList0: seq<SeqNum>, instNum0: nat, instNumInsert0: nat,
                              opNum0: map<OpClass, nat>, g0: map<nat, seq<Edge>>, qs0: seq<seq<SeqNum>>)
      requires j < |queues|
      reads queues[j]
    {
      var q := queues[j];
      && q.insts == insts0 && q.instList == instList0 && q.instNum == instNum0 && q.instNumInsert == instNumInsert0
      && q.opNum == opNum0 && q.subDepGraph == g0 && q.readyQs == qs0
    }

    /** Every instruction of the leading run up to n of list l was issued. */
    predicate RunIssued(insts: map<SeqNum, Inst>, l: seq<SeqNum>, n: SeqNum)
    {
      forall k :: 0 <= k < CommitRun(l, n) ==> l[k] in insts && insts[l[k]].status.issued
    }

    /** What `doCommit` leaves of an instruction list. */
    function Committed(l: seq<SeqNum>, n: SeqNum): seq<SeqNum>
    {
      l[CommitRun(l, n)..]
    }

    /** `doCommit`: every queue drops the leading run of its instruction list up to n; the
     *  source asserts that each of them was issued. */
    method DoCommit(n: SeqNum)
      requires Core()
      requires forall j :: 0 <= j < |queues| ==> RunIssued(queues[j].insts, queues[j].instList, n)
      modifies queues`instList
      ensures Core()
      ensures forall j :: 0 <= j < |queues| ==> queues[j].instList == Committed(old(queues[j].instList), n)
    {
      for j := 0 to |queues|
        invariant Core()
        invariant forall p :: 0 <= p < |queues| ==> queues[p].instList == if p < j then Committed(old(queues[p].instList), n) else old(queues[p].instList)
      {
        assert forall p :: 0 <= p < |queues| && p != j ==> queues[p] != queues[j] by {
          assert Indexed();
        }
        CommitOne(j, n);
      }
    }

    /** Queue t's `doCommit`. */
    method CommitOne(t: nat, n: SeqNum)
      requires Core() && t < |queues| && RunIssued(queues[t].insts, queues[t].instList, n)
      modifies {queues[t]}`instList
      ensures Core() && queues[t].instList == Committed(old(queues[t].instList), n)
    {
      queues[t].DoCommit(n);
    }

    /** Queue j's part in a squash of everything younger than n, from its fields v0: once
     *  done, the queue's `doSquash` outcome; before, the fields as they were. */
    ghost predicate SquashAccount(j: nat, n: SeqNum, v0: SquashFields, done: bool)
      requires j < |queues|
      reads queues[j]
    {
      if done then queues[j].SquashDone(n, v0) else queues[j].Squashable() == v0
    }

    /** `doSquash`: every queue squashes its instructions younger than n, as its own
     *  `doSquash` does. */
    method DoSquash(n: SeqNum)
      requires Core()
      modifies queues`insts, queues`instList, queues`instNum, queues`opNum, queues`portBusy, queues`inflight, queues`subDepGraph
      ensures Core()
      ensures forall j :: 0 <= j < |queues| ==> queues[j].SquashDone(n, old(queues[j].Squashable()))
    {
      ghost var v0 := seq(|queues|, j requires 0 <= j < |queues| reads queues => queues[j].Squashable());
      for j := 0 to |queues|
        invariant Core()
        invariant forall p :: 0 <= p < |queues| ==> v0[p] == old(queues[p].Squashable())
        invariant forall p :: 0 <= p < |queues| ==> SquashAccount(p, n, v0[p], p < j)
      {
        SquashOne(j, n, v0);
      }
    }

    /** Queue t's `doSquash`, seen from every queue. */
    method SquashOne(t: nat, n: SeqNum, ghost v0: seq<SquashFields>)
      requires Core() && t < |queues| && |v0| == |queues|
      requires forall p :: 0 <= p < |queues| ==> SquashAccount(p, n, v0[p], p < t)
      modifies {queues[t]}`insts, {queues[t]}`instList, {queues[t]}`instNum, {queues[t]}`opNum, {queues[t]}`portBusy
      modifies {queues[t]}`inflight, {queues[t]}`subDepGraph
      ensures Core()
      ensures forall p :: 0 <= p < |queues| ==> SquashAccount(p, n, v0[p], p <= t)
    {
      assert forall p :: 0 <= p < |queues| && p != t ==> queues[p] != queues[t] by {
        assert Indexed();
      }
      assert SquashAccount(t, n, v0[t], false);
      assert queues[t].Core();
      queues[t].DoSquash(n);
      assert SquashAccount(t, n, v0[t], true);
    }

    /** The sizes of every queue's issue stages. */
    /** The issue stages of every queue. */
    ghost function AllStages(): (r: seq<seq<IssueStream>>)
      reads queues`inflight
      ensures |r| == |queues| && forall j :: 0 <= j < |queues| ==> r[j] == queues[j].inflight
    {
      StagesOf(queues)
    }

    ghost function AllSizes(): (r: seq<seq<nat>>)
      reads queues`inflight
      ensures |r| == |queues| && forall j :: 0 <= j < |queues| ==> r[j] == StageSizes(queues[j].inflight)
    {
      SizesOf(queues)
    }

    /** No issue stage holds a canceled instruction, and the stages, which had the sizes
     *  `sizes`, are `stages` with some slots emptied. */
    ghost predicate StagesCleared(stages: seq<seq<IssueStream>>)
      reads queues`inflight, queues`insts
    {
      && (forall j :: 0 <= j < |queues| ==> StagesFree(queues[j].inflight, queues[j].insts))
      && StagesNulled(stages, AllStages())
    }

    /** The live slots of stage `scheduleToExecDelay` (`toFu`) of queue q. */
    ghost function ToFu(q: nat): seq<Option<SeqNum>>
      reads queues`inflight
      requires q < |queues|
    {
      var d := queues[q].scheduleToExecDelay;
      if d < |queues[q].inflight| && StreamOk(queues[q].inflight[d]) then Live(queues[q].inflight[d]) else []
    }

    /** The records of every queue. */
    ghost function Records(): (r: seq<map<SeqNum, Inst>>)
      reads queues`insts
      ensures |r| == |queues| && forall j :: 0 <= j < |queues| ==> r[j] == queues[j].insts
    {
      RecordsOf(queues)
    }

    /** gs are the dependency lists of every queue. */
    ghost predicate GraphsAre(gs: seq<map<nat, seq<Edge>>>)
      reads queues`subDepGraph
    {
      |gs| == |queues| && forall j :: 0 <= j < |queues| ==> gs[j] == queues[j].subDepGraph
    }

    /** The dependency lists of every queue. */
    ghost function Graphs(): (r: seq<map<nat, seq<Edge>>>)
      reads queues`subDepGraph
      ensures |r| == |queues| && forall j :: 0 <= j < |queues| ==> r[j] == queues[j].subDepGraph
    {
      GraphsOf(queues)
    }

    /**
     * `loadCancel` for instruction sn of queue q, a load that missed: nothing happens when it
     * is already canceled. Otherwise it is canceled, and the search (see `CancelSearch`)
     * cancels, transitively, every consumer that had a source marked ready by it; the
     * destinations of every instruction canceled lose their early-ready bit and no dependency
     * entry of theirs is left to revoke; then the issue stages of every queue drop their
     * canceled instructions.
     */
    method LoadCancel(q: nat, sn: SeqNum) returns (ghost cleared: set<nat>, ghost chain: seq<InstRef>)
      requires Core() && q < |queues| && sn in queues[q].insts
      modifies this`notEarly, queues`insts, queues`inflight
      ensures Core() && CancelSteps(old(Records()), Records())
      ensures StagesNulled(old(AllStages()), AllStages())
      ensures old(queues[q].insts[sn].status.canceled) ==>
        && notEarly == old(notEarly) && Records() == old(Records())
        && forall j :: 0 <= j < |queues| ==> queues[j].inflight == old(queues[j].inflight)
      ensures !old(queues[q].insts[sn].status.canceled) ==>
        && LoadCanceled(old(Records()), Records(), old(Graphs()), old(notEarly), notEarly, q, sn, cleared, chain)
        && StagesCleared(old(AllStages()))
    {
      if queues[q].insts[sn].status.canceled {
        CancelStepsRefl(Records());
        cleared, chain := {}, [];
        return;
      }
      cleared, chain := CancelFrom(q, sn);
      ClearStages();
    }

    /** `loadCancel` for instruction sn of queue q, not yet canceled. */
    method CancelFrom(q: nat, sn: SeqNum) returns (ghost cleared: set<nat>, ghost chain: seq<InstRef>)
      requires Core() && q < |queues| && sn in queues[q].insts && !queues[q].insts[sn].status.canceled
      modifies this`notEarly, queues`insts
      ensures Core() && CancelSteps(old(Records()), Records())
      ensures LoadCanceled(old(Records()), Records(), old(Graphs()), old(notEarly), notEarly, q, sn, cleared, chain)
    {
      var before, gs := Snapshot();
      var ins := before[q := CancelFlag(before[q], sn)];
      var out, early;
      out, early, cleared, chain := LoadCancelSearch(before, ins, gs, q, sn, notEarly);
      ApplyFound(out, early, before, gs, q, sn, cleared, chain);
    }

    /** `Apply`, with what the search established about its result. */
    method ApplyFound(out: seq<map<SeqNum, Inst>>, early: set<nat>, ghost before: seq<map<SeqNum, Inst>>, ghost gs: seq<map<nat, seq<Edge>>>,
                      ghost q: nat, ghost sn: SeqNum, ghost cleared: set<nat>, ghost chain: seq<InstRef>)
      requires Core() && before == Records() && gs == Graphs()
      requires CancelSteps(before, out) && LoadCanceled(before, out, gs, notEarly, early, q, sn, cleared, chain)
      modifies this`notEarly, queues`insts
      ensures Core() && CancelSteps(old(Records()), Records())
      ensures LoadCanceled(old(Records()), Records(), old(Graphs()), old(notEarly), notEarly, q, sn, cleared, chain)
    {
      Apply(out, early);
    }

    /** After the search of `loadCancel`: the scoreboard and the records it computed are
     *  stored. */
    method Apply(out: seq<map<SeqNum, Inst>>, early: set<nat>)
      requires Core() && CancelSteps(Records(), out)
      modifies this`notEarly, queues`insts
      ensures Core() && Records() == out && notEarly == early
    {
      notEarly := early;
      StoreAll(out);
    }


    /** The records and the dependency lists of every queue, as values. */
    method Snapshot() returns (ins: seq<map<SeqNum, Inst>>, gs: seq<map<nat, seq<Edge>>>)
      ensures ins == Records() && gs == Graphs()
    {
      ins := seq(|queues|, j requires 0 <= j < |queues| reads queues`insts => queues[j].insts);
      gs := seq(|queues|, j requires 0 <= j < |queues| reads queues`subDepGraph => queues[j].subDepGraph);
    }

    /** Every queue takes its records after the search. */
    method StoreAll(out: seq<map<SeqNum, Inst>>)
      requires Core() && CancelSteps(Records(), out)
      modifies queues`insts
      ensures Core() && Records() == out
    {
      for j := 0 to |queues|
        invariant Core()
        invariant forall p :: 0 <= p < |queues| ==> if p < j then queues[p].insts == out[p] else CancelStep(queues[p].insts, out[p])
      {
        assert forall p :: 0 <= p < |queues| && p != j ==> queues[p] != queues[j] by {
          assert Indexed();
        }
        queues[j].StoreCanceled(out[j]);
      }
    }

    /** The last loop of `loadCancel`: every queue's issue stages drop their canceled
     *  instructions. */
    method ClearStages()
      requires Core()
      modifies queues`inflight
      ensures Core() && StagesCleared(old(AllStages()))
    {
      ghost var stages := AllStages();
      for j := 0 to |queues|
        invariant ClearedTo(j, stages)
      {
        ClearNext(j, stages);
      }
    }

    /** The loop of `ClearStages` before queue j: queues below j are cleared, and the stages
     *  are `stages` with some slots emptied, those of queue j and above untouched. */
    ghost predicate ClearedTo(j: nat, stages: seq<seq<IssueStream>>)
      reads this`dispTable, queues
    {
      && Core() && j <= |queues|
      && (forall p :: 0 <= p < j ==> StagesFree(queues[p].inflight, queues[p].insts))
      && StagesNulled(stages, AllStages())
      && forall p :: j <= p < |queues| ==> queues[p].inflight == stages[p]
    }

    /** One round of `ClearStages`. */
    method ClearNext(j: nat, ghost stages: seq<seq<IssueStream>>)
      requires j < |queues| && ClearedTo(j, stages)
      modifies queues`inflight
      ensures ClearedTo(j + 1, stages)
    {
      ghost var before := AllStages();
      ClearOne(j);
      NulledAt(stages, before, AllStages(), j);
    }

    /**
     * `checkScoreboard` for instruction sn of queue q: it passes when every source that is not
     * fixed-mapped can be read from the bypass network. Otherwise the producer of the first
     * source that cannot (the k-th) is canceled (see `CancelProducer`).
     */
    method CheckScoreboard(q: nat, sn: SeqNum) returns (ok: bool, pass: bool, ghost k: nat, ghost found: Option<(nat, SeqNum)>)
      requires Core() && q < |queues| && sn in queues[q].insts
      modifies this`notEarly, queues`insts, queues`inflight
      ensures Core() && CancelSteps(old(Records()), Records())
      ensures StagesNulled(old(AllStages()), AllStages())
      ensures pass <==> OnBypass(old(queues[q].insts[sn].info.srcs), notBypassed)
      ensures pass ==> ok && Records() == old(Records()) && notEarly == old(notEarly) && AllStages() == old(AllStages())
      ensures !pass ==> var srcs := old(queues[q].insts[sn].info.srcs);
        && k < |srcs| && OnBypass(srcs[..k], notBypassed) && !srcs[k].fixed && srcs[k].flat in notBypassed
        && ProducerCanceled(old(Records()), Records(), srcs[k].flat, ok, found)
        && (found.None? ==> forall p, j :: 0 <= p < |queues| && 0 <= j < |queues[p].instList| ==>
              !DstIs(Records()[p], queues[p].instList[j], srcs[k].flat))
      ensures !ok ==> notEarly == old(notEarly)
    {
      var srcs := queues[q].insts[sn].info.srcs;
      var i := FirstOffBypass(srcs, notBypassed);
      k := i;
      if i == |srcs| {
        CancelStepsRefl(Records());
        ok, pass, found := true, true, None;
        return;
      }
      pass := false;
      ok, found := CancelProducer(srcs[i].flat);
    }

    /**
     * The panic and the `loadCancel` of `checkScoreboard` for a source x that cannot be read
     * from the bypass network: `found` is what `getInstByDstReg(x)` gives; none, or an
     * instruction that is not a load, is the panic (`ok` false, nothing changes); a load is
     * canceled.
     */
    method CancelProducer(x: nat) returns (ok: bool, ghost found: Option<(nat, SeqNum)>)
      requires Core()
      modifies this`notEarly, queues`insts, queues`inflight
      ensures Core() && CancelSteps(old(Records()), Records())
      ensures StagesNulled(old(AllStages()), AllStages())
      ensures ProducerCanceled(old(Records()), Records(), x, ok, found)
      ensures found.None? ==> forall p, j :: 0 <= p < |queues| && 0 <= j < |queues[p].instList| ==>
        !DstIs(Records()[p], queues[p].instList[j], x)
      ensures !ok ==> notEarly == old(notEarly)
    {
      CancelStepsRefl(Records());
      var r := GetInstByDstReg(x);
      if r.None? {
        return false, None;
      }
      var p, j := r.value.0, r.value.1;
      var psn := queues[p].instList[j];
      found := Some((p, psn));
      if !queues[p].insts[psn].info.isLoad {
        ok := false;
        return;
      }
      CancelLoad(x, p, psn);
      ok := true;
    }

    /** The `loadCancel` of `CancelProducer`, for the load psn of queue p that writes x. */
    method CancelLoad(x: nat, p: nat, psn: SeqNum)
      requires Core() && p < |queues| && psn in queues[p].insts && queues[p].insts[psn].info.isLoad
      requires DstIs(Records()[p], psn, x)
      modifies this`notEarly, queues`insts, queues`inflight
      ensures Core() && CancelSteps(old(Records()), Records())
      ensures StagesNulled(old(AllStages()), AllStages())
      ensures ProducerCanceled(old(Records()), Records(), x, true, Some((p, psn)))
    {
      ghost var before, gs, early := Records(), Graphs(), notEarly;
      ghost var c := queues[p].insts[psn].status.canceled;
      ghost var cleared, chain := LoadCancel(p, psn);
      LoadProducer(before, Records(), gs, early, notEarly, p, psn, x, c, cleared, chain);
    }

    /** The replay of `issueToFu` in queue q. */
    method ReplayIn(q: nat, sn: SeqNum)
      requires Core() && q < |queues| && sn in queues[q].insts
      modifies {queues[q]}`insts, {queues[q]}`readyQs
      ensures Core()
      ensures var rec := old(queues[q].insts)[sn];
        && queues[q].insts == old(queues[q].insts)[sn := rec.(status := rec.status.(inReadyQ := true))]
        && queues[q].readyQs == PushClass(old(queues[q].readyQs), queues[q].classify, rec.info.opClass, sn)
    {
      assert forall p :: 0 <= p < |queues| && p != q ==> queues[p] != queues[q] by {
        assert Indexed();
      }
      queues[q].Replay(sn);
    }

    /**
     * `addToFu` of queue q on port pi and what follows it in `issueToFu`: the instruction is
     * marked issued and appended to `instsToFu`, and a non-pipelined op keeps its port busy
     * for its latency less one; an instruction issued twice is the panic of `addToFu` (`ok`
     * false, nothing changes).
     */
    method SendToFu(q: nat, sn: SeqNum, pi: nat) returns (ok: bool)
      requires Core() && q < |queues| && sn in queues[q].insts && pi < queues[q].outports
      modifies this`instsToFu, {queues[q]}`insts, {queues[q]}`instNum, {queues[q]}`opNum, {queues[q]}`portBusy
      ensures Core() && IssuedKept(old(queues[q].insts), queues[q].insts)
      ensures ok <==> !old(queues[q].insts[sn].status.issued)
      ensures !ok ==> instsToFu == old(instsToFu) && queues[q].insts == old(queues[q].insts) && queues[q].portBusy == old(queues[q].portBusy)
      ensures ok ==> var rec, c := old(queues[q].insts[sn]), old(queues[q].insts[sn].info.opClass);
        && instsToFu == old(instsToFu) + [(q, sn)]
        && queues[q].insts == old(queues[q].insts)[sn := rec.(status := rec.status.(issued := true))]
        && queues[q].portBusy == if OpPipelined(queues[q].opPipelined, c) then old(queues[q].portBusy)
                                 else old(queues[q].portBusy)[pi := OpLatency(opLat, c) - 1]
    {
      var c := queues[q].insts[sn].info.opClass;
      ok := AddIn(q, sn);
      if ok {
        instsToFu := instsToFu + [(q, sn)];
        if !OpPipelined(queues[q].opPipelined, c) {
          BusyIn(q, pi, OpLatency(opLat, c));
        }
      }
    }

    /** `addToFu` of queue q. */
    method AddIn(q: nat, sn: SeqNum) returns (ok: bool)
      requires Core() && q < |queues| && sn in queues[q].insts
      modifies {queues[q]}`insts, {queues[q]}`instNum, {queues[q]}`opNum
      ensures Core() && (ok <==> !old(queues[q].insts[sn].status.issued))
      ensures queues[q].insts == if ok then old(queues[q].insts)[sn := old(queues[q].insts[sn]).(status := old(queues[q].insts[sn].status).(issued := true))]
                                 else old(queues[q].insts)
    {
      assert forall p :: 0 <= p < |queues| && p != q ==> queues[p] != queues[q] by {
        assert Indexed();
      }
      ok := queues[q].AddToFu(sn);
    }

    /** Port pi of queue q stays busy for `lat` less one cycles. */
    method BusyIn(q: nat, pi: nat, lat: nat)
      requires Core() && q < |queues| && pi < queues[q].outports
      modifies {queues[q]}`portBusy
      ensures Core() && queues[q].portBusy == old(queues[q].portBusy)[pi := lat - 1]
    {
      assert forall p :: 0 <= p < |queues| && p != q ==> queues[p] != queues[q] by {
        assert Indexed();
      }
      queues[q].SetPortBusy(pi, lat);
    }

    /**
     * The body of the first loop of `issueToFu` for instruction sn of queue q: an issue port
     * that was never set is a fault (`ok` false); when its port is busy the instruction is
     * replayed; otherwise it is sent to the units (`went`) when `checkScoreboard` passes, and
     * it was not issued before (an instruction issued twice is the panic of `addToFu`).
     */
    method IssueOne(q: nat, sn: SeqNum, ghost sizes: seq<seq<nat>>, ghost n: nat) returns (ok: bool, went: bool, ghost fate: Fate)
      requires Core() && q < |queues| && sn in queues[q].insts && SizesAt(sizes, q, queues[q].scheduleToExecDelay, n)
      modifies this`notEarly, this`instsToFu, queues`insts, queues`inflight,
        {queues[q]}`readyQs, {queues[q]}`instNum, {queues[q]}`opNum, {queues[q]}`portBusy
      ensures Core() && SizesAt(sizes, q, queues[q].scheduleToExecDelay, n)
      ensures instsToFu == old(instsToFu) + if went then [(q, sn)] else []
      ensures IssuedKept(old(queues[q].insts), queues[q].insts)
      ensures went ==> ok && queues[q].insts[sn].status.issued
      ensures old(queues[q].insts[sn].status.issuePort) < 0 ==> !ok && !went
      ensures ok ==>
        && (went <==> fate == Issued)
        && Stepped(q, Pop(Some(sn), fate), old(queues[q].insts), old(queues[q].readyQs), old(queues[q].portBusy), old(ToFu(q)))
    {
      var pi := queues[q].insts[sn].status.issuePort;
      fate := Refused;
      if pi < 0 {
        return false, false, fate;
      }
      if queues[q].portBusy[pi] != 0 {
        ReplayBusy(q, sn);
        return true, false, Replayed;
      }
      ok, went, fate := ScoreAndSend(q, sn, pi);
    }

    /** `IssueOne` when the instruction's port is busy: the replay. */
    method ReplayBusy(q: nat, sn: SeqNum)
      requires Core() && q < |queues| && sn in queues[q].insts
      requires var pi := queues[q].insts[sn].status.issuePort; 0 <= pi < |queues[q].portBusy| && queues[q].portBusy[pi] != 0
      modifies {queues[q]}`insts, {queues[q]}`readyQs
      ensures Core() && IssuedKept(old(queues[q].insts), queues[q].insts)
      ensures Stepped(q, Pop(Some(sn), Replayed), old(queues[q].insts), old(queues[q].readyQs), old(queues[q].portBusy), old(ToFu(q)))
    {
      ReplayIn(q, sn);
    }

    /** `IssueOne`, with what the loop of `issueToFu` keeps. */
    method IssueKept(q: nat, sn: SeqNum, ghost sizes: seq<seq<nat>>, ghost n: nat, ghost insts0: map<SeqNum, Inst>,
                     ghost issued: seq<SeqNum>) returns (ok: bool, went: bool, ghost fate: Fate)
      requires Core() && q < |queues| && sn in queues[q].insts
      requires SizesAt(sizes, q, queues[q].scheduleToExecDelay, n) && IssuedIn(q, insts0, issued)
      modifies this`notEarly, this`instsToFu, queues`insts, queues`inflight,
        {queues[q]}`readyQs, {queues[q]}`instNum, {queues[q]}`opNum, {queues[q]}`portBusy
      ensures Core() && SizesAt(sizes, q, queues[q].scheduleToExecDelay, n)
      ensures instsToFu == old(instsToFu) + if went then [(q, sn)] else []
      ensures IssuedIn(q, insts0, if went then issued + [sn] else issued)
      ensures went ==> ok
      ensures ok ==>
        && (went <==> fate == Issued)
        && Stepped(q, Pop(Some(sn), fate), old(queues[q].insts), old(queues[q].readyQs), old(queues[q].portBusy), old(ToFu(q)))
    {
      ok, went, fate := IssueOne(q, sn, sizes, n);
      IssuedStep(insts0, old(queues[q].insts), queues[q].insts, issued, sn, went);
    }

    /** `checkScoreboard` for instruction sn of queue q, as `issueToFu` uses it. */
    method Score(q: nat, sn: SeqNum) returns (ok: bool, pass: bool)
      requires Core() && q < |queues| && sn in queues[q].insts
      requires 0 <= queues[q].insts[sn].status.issuePort < |queues[q].portBusy|
      requires queues[q].portBusy[queues[q].insts[sn].status.issuePort] == 0
      modifies this`notEarly, queues`insts, queues`inflight
      ensures Core() && forall j :: 0 <= j < |queues| ==> StageSizes(queues[j].inflight) == old(StageSizes(queues[j].inflight))
      ensures IssuedKept(old(queues[q].insts), queues[q].insts)
      ensures (pass <==> OnBypass(old(queues[q].insts[sn].info.srcs), notBypassed)) && (pass ==> ok)
      ensures sn in queues[q].insts && queues[q].insts[sn].status.issued == old(queues[q].insts[sn].status.issued)
      ensures Steady(old(queues[q].insts), queues[q].insts) && SlotsNulled(old(ToFu(q)), ToFu(q))
      ensures pass ==> queues[q].insts == old(queues[q].insts) && ToFu(q) == old(ToFu(q))
      ensures ok && !pass ==>
        Stepped(q, Pop(Some(sn), Refused), old(queues[q].insts), old(queues[q].readyQs), old(queues[q].portBusy), old(ToFu(q)))
    {
      ok, pass := ScoreSteady(q, sn);
    }

    /** What `checkScoreboard` keeps of queue q and instruction sn. */
    method ScoreSteady(q: nat, sn: SeqNum) returns (ok: bool, pass: bool)
      requires Core() && q < |queues| && sn in queues[q].insts
      modifies this`notEarly, queues`insts, queues`inflight
      ensures Core() && forall j :: 0 <= j < |queues| ==> StageSizes(queues[j].inflight) == old(StageSizes(queues[j].inflight))
      ensures IssuedKept(old(queues[q].insts), queues[q].insts)
      ensures (pass <==> OnBypass(old(queues[q].insts[sn].info.srcs), notBypassed)) && (pass ==> ok)
      ensures sn in queues[q].insts && queues[q].insts[sn].status.issued == old(queues[q].insts[sn].status.issued)
      ensures Steady(old(queues[q].insts), queues[q].insts) && SlotsNulled(old(ToFu(q)), ToFu(q))
      ensures pass ==> queues[q].insts == old(queues[q].insts) && ToFu(q) == old(ToFu(q))
    {
      ghost var k, found;
      ok, pass, k, found := CheckScoreboard(q, sn);
      NulledSizes(old(AllStages()), AllStages());
      CancelStepsIssued(old(Records()), Records(), q);
      assert CancelStep(old(Records())[q], Records()[q]);
      CancelStepSteady(old(Records())[q], Records()[q]);
      ghost var d := queues[q].scheduleToExecDelay;
      LiveNulled(old(queues[q].inflight[d]), queues[q].inflight[d]);
    }

    /** `checkScoreboard` and, when it passes, `addToFu` for instruction sn of queue q on port
     *  pi, which is free. */
    method ScoreAndSend(q: nat, sn: SeqNum, pi: nat) returns (ok: bool, went: bool, ghost fate: Fate)
      requires Core() && q < |queues| && sn in queues[q].insts && pi < queues[q].outports
      requires pi == queues[q].insts[sn].status.issuePort && queues[q].portBusy[pi] == 0
      modifies this`notEarly, this`instsToFu, queues`insts, queues`inflight,
        {queues[q]}`instNum, {queues[q]}`opNum, {queues[q]}`portBusy
      ensures Core() && forall j :: 0 <= j < |queues| ==> StageSizes(queues[j].inflight) == old(StageSizes(queues[j].inflight))
      ensures instsToFu == old(instsToFu) + if went then [(q, sn)] else []
      ensures Sent(old(queues[q].insts), queues[q].insts, sn, OnBypass(old(queues[q].insts[sn].info.srcs), notBypassed), ok, went)
      ensures ok ==>
        && (went <==> fate == Issued)
        && Stepped(q, Pop(Some(sn), fate), old(queues[q].insts), old(queues[q].readyQs), old(queues[q].portBusy), old(ToFu(q)))
    {
      var pass;
      fate := Refused;
      ghost var a, ready0, busy0, toFu0 := queues[q].insts, queues[q].readyQs, queues[q].portBusy, ToFu(q);
      ok, pass := Score(q, sn);
      if !ok || !pass {
        went := false;
        SentRefused(a, queues[q].insts, sn, pass, ok);
        return;
      }
      assert queues[q].insts == a && queues[q].readyQs == ready0 && queues[q].portBusy == busy0 && ToFu(q) == toFu0;
      ok, went, fate := SendPassed(q, sn, pi);
    }

    /** `addToFu` in `ScoreAndSend`, once `checkScoreboard` has passed. */
    method SendPassed(q: nat, sn: SeqNum, pi: nat) returns (ok: bool, went: bool, ghost fate: Fate)
      requires Core() && q < |queues| && sn in queues[q].insts && pi < queues[q].outports
      requires pi == queues[q].insts[sn].status.issuePort && queues[q].portBusy[pi] == 0
      requires OnBypass(queues[q].insts[sn].info.srcs, notBypassed)
      modifies this`instsToFu, {queues[q]}`insts, {queues[q]}`instNum, {queues[q]}`opNum, {queues[q]}`portBusy
      ensures Core() && instsToFu == old(instsToFu) + if went then [(q, sn)] else []
      ensures Sent(old(queues[q].insts), queues[q].insts, sn, true, ok, went)
      ensures ok ==>
        && (went <==> fate == Issued)
        && Stepped(q, Pop(Some(sn), fate), old(queues[q].insts), old(queues[q].readyQs), old(queues[q].portBusy), old(ToFu(q)))
    {
      ok := SendToFu(q, sn, pi);
      went := ok;
      fate := Issued;
    }

    /** One `toFu->pop()` of `issueToFu` in queue q. */
    method PopFrom(q: nat) returns (x: Option<SeqNum>)
      requires Core() && q < |queues| && queues[q].inflight[queues[q].scheduleToExecDelay].size > 0
      modifies {queues[q]}`inflight
      ensures Core() && (x.Some? ==> x.value in queues[q].insts)
      ensures var d := queues[q].scheduleToExecDelay;
        StageSizes(queues[q].inflight) == StageSizes(old(queues[q].inflight))[d := old(queues[q].inflight[d].size) - 1]
      ensures old(ToFu(q)) == ToFu(q) + [x]
    {
      assert forall p :: 0 <= p < |queues| && p != q ==> queues[p] != queues[q] by {
        assert Indexed();
      }
      x := queues[q].PopToFu();
    }

    /** `DrainFrom`, with what the first loop of `issueToFu` established (its `sizes`,
     *  `issued` and `pops`), which the drain keeps. */
    method DrainKept(q: nat, size: nat, ghost sizes: seq<seq<nat>>, ghost fu0: seq<InstRef>, ghost replay0: seq<SeqNum>,
                     ghost issued: seq<SeqNum>, ghost stage0: seq<Option<SeqNum>>, ghost insts0: map<SeqNum, Inst>,
                     ghost ready0: seq<seq<SeqNum>>, ghost busy0: seq<int>, ghost pops: seq<Pop>) returns (drained: seq<SeqNum>)
      requires Core() && q < |queues| && IssuedIn(q, insts0, issued) && queues[q].replayQ == replay0
      requires var d := queues[q].scheduleToExecDelay;
        && SizesAt(sizes, q, d, 0) && size == sizes[q][d] && |issued| <= size
        && instsToFu == fu0 + Tag(q, issued)
      requires ToFu(q) == [] && PopsNow(q, stage0, insts0, ready0, busy0, pops, issued)
      modifies this`instsToFu, {queues[q]}`replayQ
      ensures Core() && IssuedIn(q, insts0, issued)
      ensures var d := queues[q].scheduleToExecDelay;
        && SizesAt(sizes, q, d, 0)
        && |issued| <= sizes[q][d]
        && drained == replay0[..DrainCount(sizes[q][d], queues[q].outports, |replay0|)]
        && queues[q].replayQ == replay0[|drained|..]
        && instsToFu == fu0 + Tag(q, issued) + Tag(q, drained)
      ensures ToFu(q) == [] && PopsNow(q, stage0, insts0, ready0, busy0, pops, issued)
    {
      drained := DrainFrom(q, size);
    }

    /** The end of `issueToFu` in queue q: the replayed instructions it sends to the units. */
    method DrainFrom(q: nat, size: nat) returns (drained: seq<SeqNum>)
      requires Core() && q < |queues|
      modifies this`instsToFu, {queues[q]}`replayQ
      ensures Core()
      ensures drained == old(queues[q].replayQ)[..DrainCount(size, queues[q].outports, |old(queues[q].replayQ)|)]
      ensures queues[q].replayQ == old(queues[q].replayQ)[|drained|..]
      ensures instsToFu == old(instsToFu) + Tag(q, drained)
    {
      assert forall p :: 0 <= p < |queues| && p != q ==> queues[p] != queues[q] by {
        assert Indexed();
      }
      drained := queues[q].DrainReplay(size);
      instsToFu := instsToFu + Tag(q, drained);
    }

    /** What the instruction of pop p did to queue q, whose records, ready queues, busy
     *  counters and `toFu` slots were `insts`, `ready`, `busy` and `live`: the records keep
     *  their descriptions, some slots may have been emptied (by a load cancel), p had its fate
     *  for its reason, and the ready queues and the busy counters show it. */
    ghost predicate Stepped(q: nat, p: Pop, insts: map<SeqNum, Inst>, ready: seq<seq<SeqNum>>, busy: seq<int>,
                            live: seq<Option<SeqNum>>)
      reads this`notBypassed, queues`insts, queues`readyQs, queues`portBusy, queues`inflight
    {
      && q < |queues|
      && Steady(insts, queues[q].insts)
      && SlotsNulled(live, ToFu(q))
      && FateOk(p, insts, busy, notBypassed)
      && QueuesOk(ready, queues[q].classify)
      && queues[q].readyQs == ReplayStep(ready, queues[q].classify, insts, p)
      && queues[q].portBusy == BusyStep(busy, queues[q].opPipelined, opLat, insts, p)
    }

    /** `PopsHold` for queue q as it is now. */
    ghost predicate PopsNow(q: nat, stage0: seq<Option<SeqNum>>, insts0: map<SeqNum, Inst>, ready0: seq<seq<SeqNum>>,
                            busy0: seq<int>, pops: seq<Pop>, issued: seq<SeqNum>)
      reads this`notBypassed, queues`insts, queues`readyQs, queues`portBusy, queues`inflight
    {
      q < |queues| && PopsHold(stage0, ToFu(q), insts0, queues[q].insts, queues[q].classify, ready0, queues[q].readyQs,
                               queues[q].opPipelined, opLat, busy0, queues[q].portBusy, notBypassed, pops, issued)
    }

    /** `PopsHold` for queue q just after slot x was popped. */
    ghost predicate PoppedNow(q: nat, x: Option<SeqNum>, stage0: seq<Option<SeqNum>>, insts0: map<SeqNum, Inst>,
                              ready0: seq<seq<SeqNum>>, busy0: seq<int>, pops: seq<Pop>, issued: seq<SeqNum>)
      reads this`notBypassed, queues`insts, queues`readyQs, queues`portBusy, queues`inflight
    {
      q < |queues| && PopsHold(stage0, ToFu(q) + [x], insts0, queues[q].insts, queues[q].classify, ready0, queues[q].readyQs,
                               queues[q].opPipelined, opLat, busy0, queues[q].portBusy, notBypassed, pops, issued)
    }

    /** Every instruction of `issued` is in queue q and issued, and no issued flag of `insts0`
     *  is lost. */
    ghost predicate IssuedIn(q: nat, insts0: map<SeqNum, Inst>, issued: seq<SeqNum>)
      reads queues`insts
      requires q < |queues|
    {
      IssuedKept(insts0, queues[q].insts) && forall c :: c in issued ==> c in queues[q].insts && queues[q].insts[c].status.issued
    }

    /** The issue stages of every queue have the sizes `sizes`, but stage d of queue q has n
     *  entries. */
    ghost predicate SizesAt(sizes: seq<seq<nat>>, q: nat, d: nat, n: nat)
      reads queues`inflight
    {
      && |sizes| == |queues| && q < |queues| && d < |sizes[q]|
      && forall j :: 0 <= j < |queues| ==> StageSizes(queues[j].inflight) == if j == q then sizes[q][d := n] else sizes[j]
    }

    /** The invariant of the first loop of `issueToFu` in queue q, with n pops to go. */
    ghost predicate IssueInv(q: nat, sizes: seq<seq<nat>>, n: nat, fu0: seq<InstRef>, insts0: map<SeqNum, Inst>,
                             replay0: seq<SeqNum>, issued: seq<SeqNum>)
      reads this`instsToFu, queues`insts, queues`inflight, queues`replayQ
    {
      && q < |queues| && SizesAt(sizes, q, queues[q].scheduleToExecDelay, n)
      && queues[q].replayQ == replay0 && instsToFu == fu0 + Tag(q, issued)
      && |issued| + n <= sizes[q][queues[q].scheduleToExecDelay]
      && IssuedIn(q, insts0, issued)
    }

    /** One round of the first loop of `issueToFu` in queue q: a pop, and `IssueOne` for the
     *  instruction popped; those sent are appended to `issued`. */
    method IssueStep(q: nat, ghost sizes: seq<seq<nat>>, ghost n: nat, ghost fu0: seq<InstRef>, ghost insts0: map<SeqNum, Inst>,
                     ghost replay0: seq<SeqNum>, issued: seq<SeqNum>, ghost stage0: seq<Option<SeqNum>>, ghost ready0: seq<seq<SeqNum>>,
                     ghost busy0: seq<int>, ghost pops: seq<Pop>) returns (ok: bool, issued': seq<SeqNum>, ghost n': nat, ghost pops': seq<Pop>)
      requires Core() && q < |queues| && n > 0 && IssueInv(q, sizes, n, fu0, insts0, replay0, issued)
      requires PopsNow(q, stage0, insts0, ready0, busy0, pops, issued)
      modifies this`notEarly, this`instsToFu, queues`insts, queues`inflight,
        {queues[q]}`readyQs, {queues[q]}`instNum, {queues[q]}`opNum, {queues[q]}`portBusy
      ensures Core() && IssuedIn(q, insts0, issued')
      ensures n' == n - 1 && (ok ==> IssueInv(q, sizes, n', fu0, insts0, replay0, issued'))
      ensures ok ==> PopsNow(q, stage0, insts0, ready0, busy0, pops', issued')
    {
      n' := n - 1;
      var x := PopPopped(q, sizes, n, fu0, insts0, replay0, issued, stage0, ready0, busy0, pops);
      if x.Some? {
        ok, issued', pops' := SendPop(q, x.value, sizes, n - 1, fu0, insts0, replay0, issued, stage0, ready0, busy0, pops);
      } else {
        ok, issued', pops' := true, issued, pops + [Pop(None, Empty)];
        EmptyPopped(q, stage0, insts0, ready0, busy0, pops, issued);
      }
    }

    /** `PopNext`, with the pops so far. */
    method PopPopped(q: nat, ghost sizes: seq<seq<nat>>, ghost n: nat, ghost fu0: seq<InstRef>, ghost insts0: map<SeqNum, Inst>,
                     ghost replay0: seq<SeqNum>, ghost issued: seq<SeqNum>, ghost stage0: seq<Option<SeqNum>>, ghost ready0: seq<seq<SeqNum>>,
                     ghost busy0: seq<int>, ghost pops: seq<Pop>) returns (x: Option<SeqNum>)
      requires Core() && q < |queues| && n > 0 && IssueInv(q, sizes, n, fu0, insts0, replay0, issued)
      requires PopsNow(q, stage0, insts0, ready0, busy0, pops, issued)
      modifies {queues[q]}`inflight
      ensures Core() && IssueInv(q, sizes, n - 1, fu0, insts0, replay0, issued)
      ensures |issued| + (n - 1) < sizes[q][queues[q].scheduleToExecDelay]
      ensures x.Some? ==> x.value in queues[q].insts
      ensures PoppedNow(q, x, stage0, insts0, ready0, busy0, pops, issued)
    {
      x := PopNext(q, sizes, n, fu0, insts0, replay0, issued);
    }

    /** An empty slot popped is recorded as one more pop. */
    lemma EmptyPopped(q: nat, stage0: seq<Option<SeqNum>>, insts0: map<SeqNum, Inst>, ready0: seq<seq<SeqNum>>,
                      busy0: seq<int>, pops: seq<Pop>, issued: seq<SeqNum>)
      requires PoppedNow(q, None, stage0, insts0, ready0, busy0, pops, issued)
      ensures PopsNow(q, stage0, insts0, ready0, busy0, pops + [Pop(None, Empty)], issued)
    {
      PopsHoldNext(stage0, ToFu(q) + [None], ToFu(q), ToFu(q), insts0, queues[q].insts, queues[q].insts, queues[q].classify,
                   ready0, queues[q].readyQs, queues[q].readyQs, queues[q].opPipelined, opLat, busy0, queues[q].portBusy,
                   queues[q].portBusy, notBypassed, pops, issued, Pop(None, Empty));
    }

    /** `SendNext` for the instruction just popped, recorded as one more pop. */
    method SendPop(q: nat, sn: SeqNum, ghost sizes: seq<seq<nat>>, ghost n: nat, ghost fu0: seq<InstRef>, ghost insts0: map<SeqNum, Inst>,
                   ghost replay0: seq<SeqNum>, issued: seq<SeqNum>, ghost stage0: seq<Option<SeqNum>>, ghost ready0: seq<seq<SeqNum>>,
                   ghost busy0: seq<int>, ghost pops: seq<Pop>) returns (ok: bool, issued': seq<SeqNum>, ghost pops': seq<Pop>)
      requires Core() && q < |queues| && sn in queues[q].insts && IssueInv(q, sizes, n, fu0, insts0, replay0, issued)
      requires |issued| + n < sizes[q][queues[q].scheduleToExecDelay]
      requires PoppedNow(q, Some(sn), stage0, insts0, ready0, busy0, pops, issued)
      modifies this`notEarly, this`instsToFu, queues`insts, queues`inflight,
        {queues[q]}`readyQs, {queues[q]}`instNum, {queues[q]}`opNum, {queues[q]}`portBusy
      ensures Core() && IssuedIn(q, insts0, issued')
      ensures ok ==> IssueInv(q, sizes, n, fu0, insts0, replay0, issued') && PopsNow(q, stage0, insts0, ready0, busy0, pops', issued')
    {
      ghost var live, ins, rq, bz := ToFu(q), queues[q].insts, queues[q].readyQs, queues[q].portBusy;
      ghost var fate;
      ok, issued', fate := SendNext(q, sn, sizes, n, fu0, insts0, replay0, issued);
      pops' := pops + [Pop(Some(sn), fate)];
      if ok {
        PopsHoldNext(stage0, live + [Some(sn)], live, ToFu(q), insts0, ins, queues[q].insts, queues[q].classify, ready0, rq, queues[q].readyQs,
                     queues[q].opPipelined, opLat, busy0, bz, queues[q].portBusy, notBypassed, pops, issued, Pop(Some(sn), fate));
      }
    }

    /** The pop of `IssueStep`. */
    method PopNext(q: nat, ghost sizes: seq<seq<nat>>, ghost n: nat, ghost fu0: seq<InstRef>, ghost insts0: map<SeqNum, Inst>,
                   ghost replay0: seq<SeqNum>, ghost issued: seq<SeqNum>) returns (x: Option<SeqNum>)
      requires Core() && q < |queues| && n > 0 && IssueInv(q, sizes, n, fu0, insts0, replay0, issued)
      modifies {queues[q]}`inflight
      ensures Core() && IssueInv(q, sizes, n - 1, fu0, insts0, replay0, issued)
      ensures x.Some? ==> x.value in queues[q].insts
      ensures old(ToFu(q)) == ToFu(q) + [x]
    {
      x := PopFrom(q);
      assert sizes[q][queues[q].scheduleToExecDelay := n][queues[q].scheduleToExecDelay := n - 1]
          == sizes[q][queues[q].scheduleToExecDelay := n - 1];
    }

    /** `IssueOne` in `IssueStep`: an instruction sent is appended to `issued`. */
    method SendNext(q: nat, sn: SeqNum, ghost sizes: seq<seq<nat>>, ghost n: nat, ghost fu0: seq<InstRef>, ghost insts0: map<SeqNum, Inst>,
                    ghost replay0: seq<SeqNum>, issued: seq<SeqNum>) returns (ok: bool, issued': seq<SeqNum>, ghost fate: Fate)
      requires Core() && q < |queues| && sn in queues[q].insts && IssueInv(q, sizes, n, fu0, insts0, replay0, issued)
      requires |issued| + n < sizes[q][queues[q].scheduleToExecDelay]
      modifies this`notEarly, this`instsToFu, queues`insts, queues`inflight,
        {queues[q]}`readyQs, {queues[q]}`instNum, {queues[q]}`opNum, {queues[q]}`portBusy
      ensures Core() && IssuedIn(q, insts0, issued')
      ensures ok ==> IssueInv(q, sizes, n, fu0, insts0, replay0, issued')
      ensures ok ==>
        && issued' == issued + (if fate == Issued then [sn] else [])
        && Stepped(q, Pop(Some(sn), fate), old(queues[q].insts), old(queues[q].readyQs), old(queues[q].portBusy), old(ToFu(q)))
    {
      ok, issued', fate := SendKept(q, sn, sizes, n, fu0, insts0, issued);
      if ok {
        IssueInvIntro(q, sizes, n, fu0, insts0, replay0, issued');
      }
    }

    /** `IssueKept`, with `instsToFu` accounted for by `fu0` and the instructions sent. */
    method SendKept(q: nat, sn: SeqNum, ghost sizes: seq<seq<nat>>, ghost n: nat, ghost fu0: seq<InstRef>, ghost insts0: map<SeqNum, Inst>,
                    issued: seq<SeqNum>) returns (ok: bool, issued': seq<SeqNum>, ghost fate: Fate)
      requires Core() && q < |queues| && sn in queues[q].insts
      requires SizesAt(sizes, q, queues[q].scheduleToExecDelay, n) && IssuedIn(q, insts0, issued) && instsToFu == fu0 + Tag(q, issued)
      modifies this`notEarly, this`instsToFu, queues`insts, queues`inflight,
        {queues[q]}`readyQs, {queues[q]}`instNum, {queues[q]}`opNum, {queues[q]}`portBusy
      ensures Core() && SizesAt(sizes, q, queues[q].scheduleToExecDelay, n)
      ensures IssuedIn(q, insts0, issued') && instsToFu == fu0 + Tag(q, issued') && |issued'| <= |issued| + 1
      ensures ok ==>
        && issued' == issued + (if fate == Issued then [sn] else [])
        && Stepped(q, Pop(Some(sn), fate), old(queues[q].insts), old(queues[q].readyQs), old(queues[q].portBusy), old(ToFu(q)))
    {
      var went;
      ghost var fu := instsToFu;
      ok, went, fate := IssueKept(q, sn, sizes, n, insts0, issued);
      issued' := if went then issued + [sn] else issued;
      TagStep(fu0, fu, instsToFu, q, issued, sn, went);
    }

    lemma IssueInvIntro(q: nat, sizes: seq<seq<nat>>, n: nat, fu0: seq<InstRef>, insts0: map<SeqNum, Inst>,
                        replay0: seq<SeqNum>, issued: seq<SeqNum>)
      requires q < |queues| && SizesAt(sizes, q, queues[q].scheduleToExecDelay, n)
      requires queues[q].replayQ == replay0 && instsToFu == fu0 + Tag(q, issued)
      requires |issued| + n <= sizes[q][queues[q].scheduleToExecDelay] && IssuedIn(q, insts0, issued)
      ensures IssueInv(q, sizes, n, fu0, insts0, replay0, issued)
    {
    }

    /**
     * `issueToFu` of queue q: the instructions of the stage that reached the units are popped
     * one by one (see `IssueOne`); those sent are `issued`, in order. Then, counting on from
     * the stage's size while below the number of ports, the oldest replayed instructions are
     * sent too (`drained`). A fault ends it (`ok` false).
     */
    method IssueToFu(q: nat) returns (ok: bool, issued: seq<SeqNum>, drained: seq<SeqNum>, ghost pops: seq<Pop>)
      requires Core() && q < |queues|
      modifies this`notEarly, this`instsToFu, queues`insts, queues`inflight,
        {queues[q]}`readyQs, {queues[q]}`instNum, {queues[q]}`opNum, {queues[q]}`portBusy, {queues[q]}`replayQ
      ensures Core() && IssuedIn(q, old(queues[q].insts), issued)
      ensures ok ==> var d, sizes := queues[q].scheduleToExecDelay, old(AllSizes());
        && SizesAt(sizes, q, d, 0)
        && |issued| <= sizes[q][d]
        && drained == old(queues[q].replayQ)[..DrainCount(sizes[q][d], queues[q].outports, |old(queues[q].replayQ)|)]
        && queues[q].replayQ == old(queues[q].replayQ)[|drained|..]
        && instsToFu == old(instsToFu) + Tag(q, issued) + Tag(q, drained)
      ensures ok ==> ToFu(q) == [] && PopsNow(q, old(ToFu(q)), old(queues[q].insts), old(queues[q].readyQs), old(queues[q].portBusy), pops, issued)
    {
      var size;
      drained := [];
      ok, issued, size, pops := IssueFirst(q);
      if !ok {
        return;
      }
      drained := DrainKept(q, size, old(AllSizes()), old(instsToFu), old(queues[q].replayQ), issued,
                           old(ToFu(q)), old(queues[q].insts), old(queues[q].readyQs), old(queues[q].portBusy), pops);
    }

    /** `issueToFu` of queue q up to the drain of the replayed instructions: `size` is the size
     *  of the stage that reached the units. */
    method IssueFirst(q: nat) returns (ok: bool, issued: seq<SeqNum>, size: nat, ghost pops: seq<Pop>)
      requires Core() && q < |queues|
      modifies this`notEarly, this`instsToFu, queues`insts, queues`inflight,
        {queues[q]}`readyQs, {queues[q]}`instNum, {queues[q]}`opNum, {queues[q]}`portBusy
      ensures Core() && IssuedIn(q, old(queues[q].insts), issued) && queues[q].replayQ == old(queues[q].replayQ)
      ensures ok ==> var d, sizes := queues[q].scheduleToExecDelay, old(AllSizes());
        && SizesAt(sizes, q, d, 0) && size == sizes[q][d] && |issued| <= size
        && instsToFu == old(instsToFu) + Tag(q, issued)
      ensures ok ==> ToFu(q) == [] && PopsNow(q, old(ToFu(q)), old(queues[q].insts), old(queues[q].readyQs), old(queues[q].portBusy), pops, issued)
    {
      var d := queues[q].scheduleToExecDelay;
      size := queues[q].inflight[d].size;
      ghost var sizes: seq<seq<nat>> := AllSizes();
      assert sizes[q][d := size] == sizes[q];
      assert PopsNow(q, ToFu(q), queues[q].insts, queues[q].readyQs, queues[q].portBusy, [], []);
      ok, issued, pops := IssueLoop(q, size, sizes, instsToFu, queues[q].insts, queues[q].replayQ, queues[q].readyQs, queues[q].portBusy);
    }

    /** The first loop of `issueToFu` in queue q: `size` rounds of `IssueStep`. */
    method IssueLoop(q: nat, size: nat, ghost sizes: seq<seq<nat>>, ghost fu0: seq<InstRef>, ghost insts0: map<SeqNum, Inst>,
                     ghost replay0: seq<SeqNum>, ghost ready0: seq<seq<SeqNum>>, ghost busy0: seq<int>)
      returns (ok: bool, issued: seq<SeqNum>, ghost pops: seq<Pop>)
      requires Core() && q < |queues| && IssueInv(q, sizes, size, fu0, insts0, replay0, [])
      requires PopsNow(q, ToFu(q), insts0, ready0, busy0, [], [])
      modifies this`notEarly, this`instsToFu, queues`insts, queues`inflight,
        {queues[q]}`readyQs, {queues[q]}`instNum, {queues[q]}`opNum, {queues[q]}`portBusy
      ensures Core() && IssuedIn(q, insts0, issued)
      ensures ok ==> IssueInv(q, sizes, 0, fu0, insts0, replay0, issued)
      ensures ok ==> ToFu(q) == [] && PopsNow(q, old(ToFu(q)), insts0, ready0, busy0, pops, issued)
    {
      ghost var n: nat := size;
      ghost var stage0 := ToFu(q);
      issued, pops := [], [];
      for i := 0 to size
        invariant n == size - i
        invariant Core() && IssuedIn(q, insts0, issued)
        invariant IssueInv(q, sizes, n, fu0, insts0, replay0, issued)
        invariant PopsNow(q, stage0, insts0, ready0, busy0, pops, issued)
      {
        ok, issued, n, pops := IssueStep(q, sizes, n, fu0, insts0, replay0, issued, stage0, ready0, busy0, pops);
        if !ok {
          return;
        }
      }
      ok := true;
    }

    /** Stage `scheduleToExecDelay` (`toFu`) of queue p is empty. */
    ghost predicate ToFuEmpty(p: nat)
      reads queues`inflight
      requires p < |queues|
    {
      queues[p].scheduleToExecDelay < |queues[p].inflight| && queues[p].inflight[queues[p].scheduleToExecDelay].size == 0
    }

    /** Queue p holds the instructions `keys[p]`. */
    ghost predicate KeysAre(keys: seq<set<SeqNum>>)
      reads queues`insts
    {
      |keys| == |queues| && forall p :: 0 <= p < |queues| ==> queues[p].insts.Keys == keys[p]
    }

    /** Every instruction of `rs` is in its queue and is marked as having failed read-port
     *  arbitration. */
    ghost predicate Flagged(rs: seq<InstRef>)
      reads queues`insts
    {
      forall k :: 0 <= k < |rs| ==>
        rs[k].0 < |queues| && rs[k].1 in queues[rs[k].0].insts && queues[rs[k].0].insts[rs[k].1].status.arbFailed
    }

    /**
     * `issueAndSelect`: every queue sends its instructions to the units (`issueToFu`), then
     * every queue selects (`selectInst`), all competing for the register-file read ports;
     * every instruction that lost a port (`failed`) is marked, and the ports are free again.
     * A fault of `issueToFu` ends it (`ok` false).
     */
    method IssueAndSelect() returns (ok: bool, ghost failed: seq<InstRef>)
      requires Core() && arb.occupancy == map[] && arb.arbFailed == []
      modifies this`notEarly, this`instsToFu, this`arb, queues`insts, queues`inflight, queues`readyQs, queues`selectQ,
        queues`instNum, queues`opNum, queues`portBusy, queues`replayQ
      ensures Core()
      ensures ok ==>
        && (forall p :: 0 <= p < |queues| ==> ToFuEmpty(p))
        && old(instsToFu) <= instsToFu
        && Flagged(failed)
        && arb.occupancy == map[] && arb.arbFailed == []
    {
      failed := [];
      ok := IssueAll();
      if !ok {
        return;
      }
      label Issued:
      failed := SelectPhase();
      forall p | 0 <= p < |queues|
        ensures ToFuEmpty(p)
      {
        assert queues[p].inflight == old@Issued(queues[p].inflight);
      }
    }

    /** The second and third loops of `issueAndSelect`, and the release of the ports. */
    method SelectPhase() returns (ghost failed: seq<InstRef>)
      requires Core() && arb.occupancy == map[] && arb.arbFailed == []
      modifies this`arb, queues`insts, queues`readyQs, queues`selectQ
      ensures Core() && Flagged(failed) && arb.occupancy == map[] && arb.arbFailed == []
      ensures forall p :: 0 <= p < |queues| ==> queues[p].inflight == old(queues[p].inflight)
    {
      ghost var keys := SelectEvery();
      failed := FlagFailed(keys);
      ReleasePorts();
    }

    /** The end of `issueAndSelect`: no read port is claimed and no instruction has failed. */
    method ReleasePorts()
      modifies this`arb
      ensures arb == old(arb).(occupancy := map[], arbFailed := [])
    {
      arb := arb.(occupancy := map[], arbFailed := []);
    }

    /** The first loop of `issueAndSelect`: `issueToFu` of every queue in turn. */
    method IssueAll() returns (ok: bool)
      requires Core()
      modifies this`notEarly, this`instsToFu, queues`insts, queues`inflight, queues`readyQs,
        queues`instNum, queues`opNum, queues`portBusy, queues`replayQ
      ensures Core()
      ensures ok ==> old(instsToFu) <= instsToFu && forall p :: 0 <= p < |queues| ==> ToFuEmpty(p)
    {
      for j := 0 to |queues|
        invariant IssuedTo(j, old(instsToFu))
      {
        ok := IssueNext(j, old(instsToFu));
        if !ok {
          return;
        }
      }
      ok := true;
    }

    /** The loop of `IssueAll` before queue j: the queues below j have emptied the stage that
     *  reached the units, and `instsToFu` has only grown from fu0. */
    ghost predicate IssuedTo(j: nat, fu0: seq<InstRef>)
      reads this`dispTable, this`instsToFu, queues
    {
      Core() && j <= |queues| && fu0 <= instsToFu && forall p :: 0 <= p < j ==> ToFuEmpty(p)
    }

    /** `issueToFu` of queue j in the first loop of `issueAndSelect`. */
    method IssueNext(j: nat, ghost fu0: seq<InstRef>) returns (ok: bool)
      requires j < |queues| && IssuedTo(j, fu0)
      modifies this`notEarly, this`instsToFu, queues`insts, queues`inflight,
        {queues[j]}`readyQs, {queues[j]}`instNum, {queues[j]}`opNum, {queues[j]}`portBusy, {queues[j]}`replayQ
      ensures Core() && (ok ==> IssuedTo(j + 1, fu0))
    {
      ghost var sizes := AllSizes();
      ok := IssueSized(j);
      if ok {
        assert SizesAt(sizes, j, queues[j].scheduleToExecDelay, 0);
        forall p | 0 <= p < j
          ensures ToFuEmpty(p)
        {
          var d := queues[p].scheduleToExecDelay;
          assert old(ToFuEmpty(p));
          assert sizes[p] == old(StageSizes(queues[p].inflight)) && sizes[p][d] == 0;
          assert StageSizes(queues[p].inflight) == sizes[p];
        }
      }
    }

    /** `IssueToFu` of queue q, with what the first loop of `issueAndSelect` needs of it. */
    method IssueSized(q: nat) returns (ok: bool)
      requires Core() && q < |queues|
      modifies this`notEarly, this`instsToFu, queues`insts, queues`inflight,
        {queues[q]}`readyQs, {queues[q]}`instNum, {queues[q]}`opNum, {queues[q]}`portBusy, {queues[q]}`replayQ
      ensures Core()
      ensures ok ==> old(instsToFu) <= instsToFu && SizesAt(old(AllSizes()), q, queues[q].scheduleToExecDelay, 0)
    {
      var issued, drained;
      ghost var pops;
      ok, issued, drained, pops := IssueToFu(q);
    }

    /** The second loop of `issueAndSelect`: `selectInst` of every queue in turn, sharing the
     *  read-port arbiter. The instructions of every queue stay the same (`keys`). */
    method SelectEvery() returns (ghost keys: seq<set<SeqNum>>)
      requires Core() && ArbRefsIn(arb, KeysNow())
      modifies this`arb, queues`insts, queues`readyQs, queues`selectQ
      ensures Core() && KeysAre(keys) && keys == old(KeysNow()) && ArbRefsIn(arb, keys)
    {
      keys := KeysNow();
      for j := 0 to |queues|
        invariant Core() && KeysAre(keys) && ArbRefsIn(arb, keys)
      {
        SelectIn(j, keys);
      }
    }

    /** The instructions of every queue. */
    ghost function KeysNow(): (keys: seq<set<SeqNum>>)
      reads queues`insts
      ensures KeysAre(keys)
    {
      KeysOf(queues)
    }

    /** `selectInst` of queue j with the arbiter of the cycle. */
    method SelectIn(j: nat, ghost keys: seq<set<SeqNum>>)
      requires Core() && j < |queues| && KeysAre(keys) && ArbRefsIn(arb, keys)
      modifies this`arb, {queues[j]}`insts, {queues[j]}`readyQs, {queues[j]}`selectQ
      ensures Core() && KeysAre(keys) && ArbRefsIn(arb, keys)
      ensures arb == ArbitrateSel(old(arb), queues[j].insts, queues[j].selectQ, queues[j].intRfTypePortId, queues[j].fpRfTypePortId, j)
    {
      ghost var a0 := arb;
      SelectOne(j);
      ArbitrateSelRefs(a0, queues[j].insts, queues[j].selectQ, queues[j].intRfTypePortId, queues[j].fpRfTypePortId, j, keys);
    }

    /** `selectInst` of queue j. */
    method SelectOne(j: nat)
      requires Core() && j < |queues|
      modifies this`arb, {queues[j]}`insts, {queues[j]}`readyQs, {queues[j]}`selectQ
      ensures Core() && queues[j].insts.Keys == old(queues[j].insts.Keys)
      ensures forall k :: 0 <= k < |queues[j].selectQ| ==> queues[j].selectQ[k].1 in queues[j].insts && queues[j].selectQ[k].0 < queues[j].outports
      ensures arb == ArbitrateSel(old(arb), queues[j].insts, queues[j].selectQ, queues[j].intRfTypePortId, queues[j].fpRfTypePortId, j)
    {
      assert forall p :: 0 <= p < |queues| && p != j ==> queues[p] != queues[j] by {
        assert Indexed();
      }
      arb := queues[j].SelectInst(arb);
    }

    /** The third loop of `issueAndSelect`: every instruction that failed arbitration is
     *  marked. */
    method FlagFailed(ghost keys: seq<set<SeqNum>>) returns (ghost failed: seq<InstRef>)
      requires Core() && KeysAre(keys) && ArbRefsIn(arb, keys)
      modifies queues`insts
      ensures Core() && failed == arb.arbFailed && Flagged(failed)
    {
      var fs := arb.arbFailed;
      failed := fs;
      for k := 0 to |fs|
        invariant Core() && KeysAre(keys) && Flagged(fs[..k])
      {
        FlagNext(fs, k, keys);
      }
      assert fs[..|fs|] == fs;
    }

    /** One round of `FlagFailed`. */
    method FlagNext(fs: seq<InstRef>, k: nat, ghost keys: seq<set<SeqNum>>)
      requires Core() && KeysAre(keys) && k < |fs| && Flagged(fs[..k])
      requires forall i :: 0 <= i < |fs| ==> fs[i].0 < |keys| && fs[i].1 in keys[fs[i].0]
      modifies queues`insts
      ensures Core() && KeysAre(keys) && Flagged(fs[..k + 1])
    {
      SetArbIn(fs[k], keys, fs[..k]);
      assert fs[..k + 1] == fs[..k] + [fs[k]];
    }

    /** `setArbFailed` of instruction r.1 of queue r.0. */
    method SetArbIn(r: InstRef, ghost keys: seq<set<SeqNum>>, ghost done: seq<InstRef>)
      requires Core() && KeysAre(keys) && r.0 < |keys| && r.1 in keys[r.0] && Flagged(done)
      modifies {queues[r.0]}`insts
      ensures Core() && KeysAre(keys) && Flagged(done + [r])
    {
      assert forall p :: 0 <= p < |queues| && p != r.0 ==> queues[p] != queues[r.0] by {
        assert Indexed();
      }
      queues[r.0].SetArbFailed(r.1);
    }

    /**
     * `tick`: every queue in turn runs `IssueQue::tick` (see `TickQueue`); `events` are the
     * delayed wake-ups of all the instructions scheduled, queue by queue.
     */
    method Tick() returns (events: seq<WakeEvent>)
      requires Core() && StagesClear()
      modifies this`notEarly, queues`insts, queues`readyQs, queues`inflight, queues`instNumInsert, queues`portBusy
      ensures Core() && StagesClear()
      ensures forall p :: 0 <= p < |queues| ==> queues[p].instNumInsert == 0
    {
      events := [];
      for j := 0 to |queues|
        invariant Core() && StagesClear()
        invariant forall p :: 0 <= p < j ==> queues[p].instNumInsert == 0
      {
        var ev := TickAt(j);
        events := events + ev;
      }
    }

    /** Queue j's turn in `tick`, seen from the other queues. */
    method TickAt(j: nat) returns (events: seq<WakeEvent>)
      requires Core() && StagesClear() && j < |queues|
      modifies this`notEarly, queues`insts, queues`readyQs, queues`inflight, queues`instNumInsert, queues`portBusy
      ensures Core() && StagesClear()
      ensures forall p :: 0 <= p < |queues| ==> queues[p].instNumInsert == if p == j then 0 else old(queues[p].instNumInsert)
    {
      assert queues[j].Core();
      ghost var scheduled;
      events, scheduled := TickQueue(j);
    }

    /**
     * `IssueQue::tick` of queue q, whose issue stage 0 is empty: the insertions of the cycle
     * are forgotten and every busy port counts down; then `scheduleInst` pushes to stage 0,
     * in selection order, the selected instructions it schedules (`scheduled`), each waking
     * its consumers speculatively (`events` are the delayed wake-ups); then the stages
     * advance, so that stage 1 holds what stage 0 received.
     */
    method TickQueue(q: nat) returns (events: seq<WakeEvent>, ghost scheduled: seq<SeqNum>)
      requires Core() && q < |queues| && queues[q].inflight[0].size == 0
      modifies this`notEarly, queues`insts, queues`readyQs, {queues[q]}`inflight, {queues[q]}`instNumInsert, {queues[q]}`portBusy
      ensures Core() && queues[q].instNumInsert == 0 && queues[q].inflight[0].size == 0
      ensures |queues[q].portBusy| == |old(queues[q].portBusy)|
      ensures forall i :: 0 <= i < |queues[q].portBusy| ==> queues[q].portBusy[i] == CountDown(old(queues[q].portBusy)[i])
      ensures |scheduled| <= |queues[q].selectQ|
      ensures 0 < queues[q].scheduleToExecDelay ==> Live(queues[q].inflight[1]) == Wrap(scheduled)
      ensures forall i :: 1 < i < |queues[q].inflight| ==> queues[q].inflight[i] == old(queues[q].inflight[i - 1])
      ensures StateFits(old(Now())) && Holds(ScheduleAll(q, queues[q].selectQ, old(Graphs()), old(Now())), events, scheduled)
      ensures forall p :: 0 <= p < |queues| && p != q ==> queues[p].inflight == old(queues[p].inflight) && queues[p].instNumInsert == old(queues[p].instNumInsert)
    {
      CountersIn(q);
      events, scheduled := ScheduleAdvance(q);
    }

    /** The end of `IssueQue::tick` of queue q: `scheduleInst`, then the stages advance. */
    method ScheduleAdvance(q: nat) returns (events: seq<WakeEvent>, ghost scheduled: seq<SeqNum>)
      requires Core() && q < |queues| && queues[q].inflight[0].size == 0
      modifies this`notEarly, queues`insts, queues`readyQs, {queues[q]}`inflight
      ensures Core() && queues[q].inflight[0].size == 0
      ensures |scheduled| <= |queues[q].selectQ|
      ensures 0 < queues[q].scheduleToExecDelay ==> Live(queues[q].inflight[1]) == Wrap(scheduled)
      ensures forall i :: 1 < i < |queues[q].inflight| ==> queues[q].inflight[i] == old(queues[q].inflight[i - 1])
      ensures StateFits(old(Now())) && Holds(ScheduleAll(q, queues[q].selectQ, old(Graphs()), old(Now())), events, scheduled)
      ensures forall p :: 0 <= p < |queues| && p != q ==> queues[p].inflight == old(queues[p].inflight)
    {
      events, scheduled := ScheduleInst(q);
      AdvanceIn(q);
    }

    /** The counter part of `tick` for queue q. */
    method CountersIn(q: nat)
      requires Core() && q < |queues|
      modifies {queues[q]}`instNumInsert, {queues[q]}`portBusy
      ensures Core() && queues[q].instNumInsert == 0
      ensures |queues[q].portBusy| == |old(queues[q].portBusy)|
      ensures forall i :: 0 <= i < |queues[q].portBusy| ==> queues[q].portBusy[i] == CountDown(old(queues[q].portBusy)[i])
      ensures Now() == old(Now()) && Graphs() == old(Graphs())
      ensures forall p :: 0 <= p < |queues| && p != q ==> queues[p].instNumInsert == old(queues[p].instNumInsert)
    {
      assert forall p :: 0 <= p < |queues| && p != q ==> queues[p] != queues[q] by {
        assert Indexed();
      }
      queues[q].TickCounters();
    }

    /** The end of `tick` for queue q. */
    method AdvanceIn(q: nat)
      requires Core() && q < |queues|
      modifies {queues[q]}`inflight
      ensures Core() && queues[q].inflight == AdvanceStages(old(queues[q].inflight))
      ensures forall p :: 0 <= p < |queues| && p != q ==> queues[p].inflight == old(queues[p].inflight)
    {
      assert forall p :: 0 <= p < |queues| && p != q ==> queues[p] != queues[q] by {
        assert Indexed();
      }
      queues[q].Advance();
    }

    /** The values of s fit the queues: one record map and one set of ready queues each. */
    ghost predicate StateFits(s: ScheduleState)
    {
      && |s.insts| == |queues| && |s.qs| == |queues| && |wakeMatrix| == |queues|
      && (forall i, k :: 0 <= i < |wakeMatrix| && 0 <= k < |wakeMatrix[i]| ==> wakeMatrix[i][k] < |queues|)
      && forall j {:trigger s.qs[j]} :: 0 <= j < |queues| ==> QueuesOk(s.qs[j], queues[j].classify)
    }

    /** The scheduler holds the values of s, with the wake-ups `events` and the instructions
     *  `scheduled` collected so far. */
    ghost predicate Holds(s: ScheduleState, events: seq<WakeEvent>, scheduled: seq<SeqNum>)
      reads this`notEarly, queues`insts, queues`readyQs
    {
      && |s.insts| == |queues| && |s.qs| == |queues|
      && notEarly == s.notEarly && events == s.events && scheduled == s.scheduled
      && forall j :: 0 <= j < |queues| ==> queues[j].insts == s.insts[j] && queues[j].readyQs == s.qs[j]
    }

    /** The current records, ready queues and early scoreboard. */
    ghost function Now(): (s: ScheduleState)
      reads this`notEarly, queues`insts, queues`readyQs
      ensures Holds(s, [], [])
    {
      ScheduleState(Records(), ReadyQsOf(queues), notEarly, [], [])
    }

    lemma NowFits()
      requires Core()
      ensures StateFits(Now())
    {
      assert forall j :: 0 <= j < |queues| ==> queues[j].Core();
    }

    /** Queue j woken by a producer with destinations `dsts`, through its dependency lists g. */
    ghost function WokenIn(j: nat, s: ScheduleState, g: map<nat, seq<Edge>>, dsts: seq<PhysReg>): (r: WakeState)
      requires StateFits(s) && j < |queues|
      ensures QueuesOk(r.qs, queues[j].classify)
    {
      WakeAll(WakeState(s.insts[j], s.qs[j]), WokenEdges(g, dsts), queues[j].classify)
    }

    /** `specWakeUpDependents` on values, for the record `rec` of instruction sn of queue
     *  `from`, whose cancel flag is clear: the queues of its row woken now wake the consumers
     *  of its destinations, which then become early-ready, and the row's delayed wake-ups are
     *  collected; an instruction that does not wake changes nothing. */
    ghost function SpecWakeState(from: nat, sn: SeqNum, rec: Inst, gs: seq<map<nat, seq<Edge>>>, s: ScheduleState): (r: ScheduleState)
      requires StateFits(s) && from < |queues| && |gs| == |queues|
      ensures StateFits(r) && r.scheduled == s.scheduled
    {
      if !SpecWakes(rec, OpPipelined(pipelined, rec.info.opClass)) then s
      else
        var lat := CorrectedLat(rec);
        var imm := Immediate(lat, Stages(), from, wakeMatrix[from]);
        var w := seq(|queues|, j requires 0 <= j < |queues| =>
          if j in imm then WokenIn(j, s, gs[j], rec.info.dsts) else WakeState(s.insts[j], s.qs[j]));
        ScheduleState(seq(|queues|, j requires 0 <= j < |queues| => w[j].insts),
                      seq(|queues|, j requires 0 <= j < |queues| => w[j].qs),
                      if imm == {} then s.notEarly else s.notEarly - NonFixedRegs(rec.info.dsts),
                      s.events + Delayed(lat, (from, sn), Stages(), from, wakeMatrix[from]), s.scheduled)
    }

    /** The k-th entry of `scheduleInst` of queue q on values, for the selection of sn on
     *  port pi, before its wake-up: the records as `ScheduledRecords` leaves them, a retried
     *  instruction pushed back to its ready queue, and a scheduled one appended. */
    ghost function ScheduleEntry(q: nat, pi: nat, sn: SeqNum, s: ScheduleState): (r: ScheduleState)
      requires StateFits(s) && q < |queues|
      ensures StateFits(r)
    {
      var m := s.insts[q];
      var ins := s.insts[q := ScheduledRecords(m, pi, sn)];
      if Schedules(m, sn) then s.(insts := ins, scheduled := s.scheduled + [sn])
      else if sn in m && !m[sn].status.canceled then
        s.(insts := ins, qs := s.qs[q := PushClass(s.qs[q], queues[q].classify, m[sn].info.opClass, sn)])
      else s.(insts := ins)
    }

    /** One entry of `scheduleInst` of queue q on values: a scheduled instruction then wakes
     *  its consumers speculatively, with the record it has once scheduled. */
    ghost function ScheduleStep(q: nat, pi: nat, sn: SeqNum, gs: seq<map<nat, seq<Edge>>>, s: ScheduleState): (r: ScheduleState)
      requires StateFits(s) && q < |queues| && |gs| == |queues|
      ensures StateFits(r)
    {
      var e := ScheduleEntry(q, pi, sn, s);
      if Schedules(s.insts[q], sn) then SpecWakeState(q, sn, e.insts[q][sn], gs, e) else e
    }

    /** `scheduleInst` of queue q on values: the entries of `sel` in order, from s. */
    ghost function ScheduleAll(q: nat, sel: seq<(nat, SeqNum)>, gs: seq<map<nat, seq<Edge>>>, s: ScheduleState): (r: ScheduleState)
      requires StateFits(s) && q < |queues| && |gs| == |queues|
      ensures StateFits(r)
      decreases |sel|
    {
      if sel == [] then s
      else ScheduleStep(q, sel[|sel| - 1].0, sel[|sel| - 1].1, gs, ScheduleAll(q, sel[..|sel| - 1], gs, s))
    }

    /** A scheduled instruction is appended to `scheduled`, and nothing else is. */
    lemma StepScheduled(q: nat, pi: nat, sn: SeqNum, gs: seq<map<nat, seq<Edge>>>, s: ScheduleState)
      requires StateFits(s) && q < |queues| && |gs| == |queues|
      ensures ScheduleStep(q, pi, sn, gs, s).scheduled == s.scheduled + if Schedules(s.insts[q], sn) then [sn] else []
    {
    }

    /** A speculative wake-up changes no arbitration-failed or in-queue flag and removes no
     *  record. */
    lemma SpecWakeKeeps(from: nat, sn: SeqNum, rec: Inst, gs: seq<map<nat, seq<Edge>>>, s: ScheduleState)
      requires StateFits(s) && from < |queues| && |gs| == |queues|
      ensures var r := SpecWakeState(from, sn, rec, gs, s);
        |r.insts| == |s.insts| &&
        forall j, c :: 0 <= j < |s.insts| && c in s.insts[j] ==>
          c in r.insts[j] && r.insts[j][c].status.arbFailed == s.insts[j][c].status.arbFailed
          && r.insts[j][c].status.inIQ == s.insts[j][c].status.inIQ
    {
      var r := SpecWakeState(from, sn, rec, gs, s);
      if SpecWakes(rec, OpPipelined(pipelined, rec.info.opClass)) {
        var imm := Immediate(CorrectedLat(rec), Stages(), from, wakeMatrix[from]);
        forall j, c | 0 <= j < |s.insts| && c in s.insts[j]
          ensures c in r.insts[j] && r.insts[j][c].status.arbFailed == s.insts[j][c].status.arbFailed
          ensures r.insts[j][c].status.inIQ == s.insts[j][c].status.inIQ
        {
          if j in imm {
            var w := WokenIn(j, s, gs[j], rec.info.dsts);
            assert r.insts[j] == w.insts;
            assert MoreReady(s.insts[j][c], w.insts[c]);
          }
        }
      }
    }

    /** One entry of `scheduleInst` keeps every record and its flags, clears the
     *  arbitration-failed flag of the selected instruction (`clearArbFailed`), and takes a
     *  scheduled one out of the queue (`clearInIQ`). */
    lemma StepKeeps(q: nat, pi: nat, sn: SeqNum, gs: seq<map<nat, seq<Edge>>>, s: ScheduleState)
      requires StateFits(s) && q < |queues| && |gs| == |queues|
      ensures var r := ScheduleStep(q, pi, sn, gs, s);
        && FlagsKept(s.insts, r.insts)
        && (sn in s.insts[q] ==> !r.insts[q][sn].status.arbFailed)
        && (Schedules(s.insts[q], sn) ==> !r.insts[q][sn].status.inIQ)
    {
      var e := ScheduleEntry(q, pi, sn, s);
      assert FlagsKept(s.insts, e.insts);
      if Schedules(s.insts[q], sn) {
        SpecWakeKeeps(q, sn, e.insts[q][sn], gs, e);
      }
    }

    lemma AllLast(q: nat, sel: seq<(nat, SeqNum)>, gs: seq<map<nat, seq<Edge>>>, s: ScheduleState)
      requires StateFits(s) && q < |queues| && |gs| == |queues| && sel != []
      ensures ScheduleAll(q, sel, gs, s)
           == ScheduleStep(q, sel[|sel| - 1].0, sel[|sel| - 1].1, gs, ScheduleAll(q, sel[..|sel| - 1], gs, s))
    {
    }

    /** `scheduleInst` keeps every record, and no arbitration-failed or in-queue flag it
     *  finds clear is set again. */
    lemma {:induction false} AllKeeps(q: nat, sel: seq<(nat, SeqNum)>, gs: seq<map<nat, seq<Edge>>>, s: ScheduleState)
      requires StateFits(s) && q < |queues| && |gs| == |queues|
      ensures FlagsKept(s.insts, ScheduleAll(q, sel, gs, s).insts)
      decreases |sel|
    {
      if sel != [] {
        var init := sel[..|sel| - 1];
        var mid := ScheduleAll(q, init, gs, s);
        AllKeeps(q, init, gs, s);
        StepKeeps(q, sel[|sel| - 1].0, sel[|sel| - 1].1, gs, mid);
        AllLast(q, sel, gs, s);
        FlagsKeptTrans(s.insts, mid.insts, ScheduleAll(q, sel, gs, s).insts);
      }
    }

    /** `scheduleInst` schedules selected instructions only, in selection order, after those
     *  scheduled before. */
    lemma {:induction false} AllInOrder(q: nat, sel: seq<(nat, SeqNum)>, gs: seq<map<nat, seq<Edge>>>, s: ScheduleState)
      requires StateFits(s) && q < |queues| && |gs| == |queues|
      ensures var r := ScheduleAll(q, sel, gs, s);
        |s.scheduled| <= |r.scheduled| && r.scheduled[..|s.scheduled|] == s.scheduled
        && SubSeq(r.scheduled[|s.scheduled|..], SelectedSns(sel))
      decreases |sel|
    {
      var r := ScheduleAll(q, sel, gs, s);
      var n := |s.scheduled|;
      if sel == [] {
        assert r.scheduled[n..] == [];
      } else {
        var init, pi, sn := sel[..|sel| - 1], sel[|sel| - 1].0, sel[|sel| - 1].1;
        var mid := ScheduleAll(q, init, gs, s);
        AllInOrder(q, init, gs, s);
        AllLast(q, sel, gs, s);
        StepScheduled(q, pi, sn, gs, mid);
        assert SelectedSns(sel) == SelectedSns(init) + [sn];
        if Schedules(mid.insts[q], sn) {
          assert r.scheduled[n..] == mid.scheduled[n..] + [sn];
        }
        SubSeqSnoc(mid.scheduled[n..], SelectedSns(init), sn);
      }
    }

    /** A selection whose record is neither canceled nor arbitration-failed when
     *  `scheduleInst` reaches it is scheduled. */
    lemma {:induction false} AllSchedulesAtTurn(q: nat, sel: seq<(nat, SeqNum)>, gs: seq<map<nat, seq<Edge>>>, s: ScheduleState, k: nat)
      requires StateFits(s) && q < |queues| && |gs| == |queues| && k < |sel|
      requires Schedules(ScheduleAll(q, sel[..k], gs, s).insts[q], sel[k].1)
      ensures sel[k].1 in ScheduleAll(q, sel, gs, s).scheduled
      decreases |sel|
    {
      var init := sel[..|sel| - 1];
      var mid := ScheduleAll(q, init, gs, s);
      AllLast(q, sel, gs, s);
      StepScheduled(q, sel[|sel| - 1].0, sel[|sel| - 1].1, gs, mid);
      if k < |sel| - 1 {
        assert init[..k] == sel[..k] && init[k] == sel[k];
        AllSchedulesAtTurn(q, init, gs, s, k);
      } else {
        assert init == sel[..k];
      }
    }

    /** Every selected instruction with a record ends with its arbitration-failed flag
     *  clear (`clearArbFailed` of every entry). */
    lemma {:induction false} AllClearArbFailed(q: nat, sel: seq<(nat, SeqNum)>, gs: seq<map<nat, seq<Edge>>>, s: ScheduleState, k: nat)
      requires StateFits(s) && q < |queues| && |gs| == |queues| && k < |sel| && sel[k].1 in s.insts[q]
      ensures var r := ScheduleAll(q, sel, gs, s); sel[k].1 in r.insts[q] && !r.insts[q][sel[k].1].status.arbFailed
      decreases |sel|
    {
      var init := sel[..|sel| - 1];
      var mid := ScheduleAll(q, init, gs, s);
      AllLast(q, sel, gs, s);
      StepKeeps(q, sel[|sel| - 1].0, sel[|sel| - 1].1, gs, mid);
      if k < |sel| - 1 {
        assert init[k] == sel[k];
        AllClearArbFailed(q, init, gs, s, k);
      } else {
        AllKeeps(q, init, gs, s);
      }
    }

    /** Every instruction `scheduleInst` schedules ends out of the queue (`clearInIQ`). */
    lemma {:induction false} AllScheduledLeave(q: nat, sel: seq<(nat, SeqNum)>, gs: seq<map<nat, seq<Edge>>>, s: ScheduleState)
      requires StateFits(s) && q < |queues| && |gs| == |queues|
      ensures var r := ScheduleAll(q, sel, gs, s);
        |s.scheduled| <= |r.scheduled| &&
        forall i :: |s.scheduled| <= i < |r.scheduled| ==> r.scheduled[i] in r.insts[q] && !r.insts[q][r.scheduled[i]].status.inIQ
      decreases |sel|
    {
      if sel != [] {
        var init, pi, sn := sel[..|sel| - 1], sel[|sel| - 1].0, sel[|sel| - 1].1;
        var mid := ScheduleAll(q, init, gs, s);
        AllScheduledLeave(q, init, gs, s);
        AllLast(q, sel, gs, s);
        StepScheduled(q, pi, sn, gs, mid);
        StepKeeps(q, pi, sn, gs, mid);
      }
    }

    /** `scheduleInst` of queue q (issue stage 0), with the delayed wake-ups it leaves. */
    method ScheduleInst(q: nat) returns (events: seq<WakeEvent>, ghost scheduled: seq<SeqNum>)
      requires Core() && q < |queues| && queues[q].inflight[0].size == 0
      modifies this`notEarly, queues`insts, queues`readyQs, {queues[q]}`inflight
      ensures Core() && |scheduled| <= |queues[q].selectQ| && Live(queues[q].inflight[0]) == Wrap(scheduled)
      ensures |queues[q].inflight| == |old(queues[q].inflight)|
      ensures forall i :: 0 < i < |queues[q].inflight| ==> queues[q].inflight[i] == old(queues[q].inflight[i])
      ensures forall p :: 0 <= p < |queues| && p != q ==> queues[p].inflight == old(queues[p].inflight)
      ensures StateFits(old(Now())) && Holds(ScheduleAll(q, queues[q].selectQ, old(Graphs()), old(Now())), events, scheduled)
    {
      NowFits();
      events, scheduled := [], [];
      ghost var stages0, s0, gs := queues[q].inflight, Now(), Graphs();
      ghost var sel := queues[q].selectQ;
      CoreIsNamed();
      for k := 0 to |queues[q].selectQ|
        invariant sel == queues[q].selectQ && ScheduledTo(q, k, scheduled, stages0) && Folded(q, k, s0, gs, events, scheduled)
      {
        events, scheduled := ScheduleRound(q, k, events, scheduled, stages0, s0, gs);
      }
      NamedIsCore();
      assert sel[..|sel|] == sel;
    }

    /** The loop of `ScheduleInst` before its k-th selection: the scheduler holds the fold of
     *  the first k selections from s0. */
    ghost predicate Folded(q: nat, k: nat, s0: ScheduleState, gs: seq<map<nat, seq<Edge>>>, events: seq<WakeEvent>, scheduled: seq<SeqNum>)
      reads this`notEarly, queues
    {
      && q < |queues| && k <= |queues[q].selectQ| && StateFits(s0) && GraphsAre(gs)
      && Holds(ScheduleAll(q, queues[q].selectQ[..k], gs, s0), events, scheduled)
    }

    /** One round of the loop of `ScheduleInst`. */
    method ScheduleRound(q: nat, k: nat, events0: seq<WakeEvent>, ghost scheduled0: seq<SeqNum>, ghost stages0: seq<IssueStream>,
                         ghost s0: ScheduleState, ghost gs: seq<map<nat, seq<Edge>>>)
      returns (events: seq<WakeEvent>, ghost scheduled: seq<SeqNum>)
      requires q < |queues| && k < |queues[q].selectQ| && ScheduledTo(q, k, scheduled0, stages0) && Folded(q, k, s0, gs, events0, scheduled0)
      modifies this`notEarly, queues`insts, queues`readyQs, {queues[q]}`inflight
      ensures ScheduledTo(q, k + 1, scheduled, stages0) && Folded(q, k + 1, s0, gs, events, scheduled)
    {
      var ev, x := ScheduleNext(q, k, events0, scheduled0, stages0, ScheduleAll(q, queues[q].selectQ[..k], gs, s0), gs);
      events, scheduled := events0 + ev, if x.Some? then scheduled0 + [x.value] else scheduled0;
      FoldedIntro(q, k, s0, gs, events, scheduled);
    }

    /** The fold of `ScheduleInst` after its k-th selection. */
    lemma FoldedIntro(q: nat, k: nat, s0: ScheduleState, gs: seq<map<nat, seq<Edge>>>, events: seq<WakeEvent>, scheduled: seq<SeqNum>)
      requires q < |queues| && k < |queues[q].selectQ| && StateFits(s0) && GraphsAre(gs)
      requires Holds(ScheduleStep(q, queues[q].selectQ[k].0, queues[q].selectQ[k].1, gs, ScheduleAll(q, queues[q].selectQ[..k], gs, s0)),
                     events, scheduled)
      ensures Folded(q, k + 1, s0, gs, events, scheduled)
    {
      AllSnoc(q, queues[q].selectQ, k, gs, s0);
    }

    /** One more entry of the fold. */
    lemma AllSnoc(q: nat, sel: seq<(nat, SeqNum)>, k: nat, gs: seq<map<nat, seq<Edge>>>, s0: ScheduleState)
      requires StateFits(s0) && q < |queues| && |gs| == |queues| && k < |sel|
      ensures ScheduleAll(q, sel[..k + 1], gs, s0) == ScheduleStep(q, sel[k].0, sel[k].1, gs, ScheduleAll(q, sel[..k], gs, s0))
    {
      assert sel[..k + 1][..k] == sel[..k];
    }

    /** The loop of `ScheduleInst` before its k-th selection: stage 0 holds `scheduled`, the
     *  other stages are those of `stages0`. */
    ghost predicate ScheduledTo(q: nat, k: nat, scheduled: seq<SeqNum>, stages0: seq<IssueStream>)
      reads this`dispTable, queues
    {
      && CoreNamed() && q < |queues| && queues[q].Core() && k <= |queues[q].selectQ|
      && queues[q].inflight[0].size == |scheduled| <= k
      && Live(queues[q].inflight[0]) == Wrap(scheduled)
      && |queues[q].inflight| == |stages0|
      && forall i :: 0 < i < |queues[q].inflight| ==> queues[q].inflight[i] == stages0[i]
    }

    /** One round of `ScheduleInst`. */
    method ScheduleNext(q: nat, k: nat, events0: seq<WakeEvent>, ghost scheduled: seq<SeqNum>, ghost stages0: seq<IssueStream>,
                        ghost s: ScheduleState, ghost gs: seq<map<nat, seq<Edge>>>)
      returns (events: seq<WakeEvent>, x: Option<SeqNum>)
      requires q < |queues| && k < |queues[q].selectQ| && ScheduledTo(q, k, scheduled, stages0)
      requires StateFits(s) && GraphsAre(gs) && Holds(s, events0, scheduled)
      modifies this`notEarly, queues`insts, queues`readyQs, {queues[q]}`inflight
      ensures ScheduledTo(q, k + 1, if x.Some? then scheduled + [x.value] else scheduled, stages0)
      ensures Holds(ScheduleStep(q, queues[q].selectQ[k].0, queues[q].selectQ[k].1, gs, s), events0 + events,
                    if x.Some? then scheduled + [x.value] else scheduled)
    {
      events := [];
      ghost var e;
      x, e := EntryNext(q, k, scheduled, stages0, s);
      StepIs(q, queues[q].selectQ[k].0, queues[q].selectQ[k].1, gs, s, e);
      if x.Some? {
        events := WakeNext(q, k + 1, x.value, scheduled + [x.value], stages0, e, gs);
      }
    }

    /** ScheduleStep is the entry followed, for a scheduled instruction, by its wake-up. */
    lemma StepIs(q: nat, pi: nat, sn: SeqNum, gs: seq<map<nat, seq<Edge>>>, s: ScheduleState, e: ScheduleState)
      requires StateFits(s) && q < |queues| && |gs| == |queues| && e == ScheduleEntry(q, pi, sn, s)
      ensures Schedules(s.insts[q], sn) ==> sn in e.insts[q] && ScheduleStep(q, pi, sn, gs, s) == SpecWakeState(q, sn, e.insts[q][sn], gs, e)
      ensures !Schedules(s.insts[q], sn) ==> ScheduleStep(q, pi, sn, gs, s) == e
    {
    }

    /** The entry part of `ScheduleNext`. */
    method EntryNext(q: nat, k: nat, ghost scheduled: seq<SeqNum>, ghost stages0: seq<IssueStream>, ghost s: ScheduleState)
      returns (x: Option<SeqNum>, ghost e: ScheduleState)
      requires q < |queues| && k < |queues[q].selectQ| && ScheduledTo(q, k, scheduled, stages0)
      requires StateFits(s) && Holds(s, s.events, scheduled)
      modifies queues`insts, queues`readyQs, {queues[q]}`inflight
      ensures ScheduledTo(q, k + 1, if x.Some? then scheduled + [x.value] else scheduled, stages0)
      ensures e == ScheduleEntry(q, queues[q].selectQ[k].0, queues[q].selectQ[k].1, s)
      ensures x == if Schedules(s.insts[q], queues[q].selectQ[k].1) then Some(queues[q].selectQ[k].1) else None
      ensures Holds(e, s.events, if x.Some? then scheduled + [x.value] else scheduled)
    {
      ghost var pi, sn := queues[q].selectQ[k].0, queues[q].selectQ[k].1;
      e := ScheduleEntry(q, pi, sn, s);
      assert sn in queues[q].insts;
      x := ScheduleIn(q, k);
      EntryHolds(q, pi, sn, s, e, x);
      if x.Some? {
        WrapSnoc(scheduled, x.value);
      }
    }

    /** The wake-up part of `ScheduleNext`, which leaves the issue stages alone. */
    method WakeNext(q: nat, k: nat, sn: SeqNum, ghost scheduled: seq<SeqNum>, ghost stages0: seq<IssueStream>,
                    ghost e: ScheduleState, ghost gs: seq<map<nat, seq<Edge>>>)
      returns (events: seq<WakeEvent>)
      requires q < |queues| && ScheduledTo(q, k, scheduled, stages0)
      requires sn in queues[q].insts && !queues[q].insts[sn].status.canceled
      requires StateFits(e) && GraphsAre(gs) && Holds(e, e.events, e.scheduled)
      modifies this`notEarly, queues`insts, queues`readyQs
      ensures ScheduledTo(q, k, scheduled, stages0)
      ensures Holds(SpecWakeState(q, sn, old(queues[q].insts[sn]), gs, e), e.events + events, e.scheduled)
    {
      NamedIsCore();
      events := WakeScheduled(q, sn, e, gs);
      CoreIsNamed();
    }

    /** After `ScheduleIn`, the scheduler holds the values of the entry. */
    lemma EntryHolds(q: nat, pi: nat, sn: SeqNum, s: ScheduleState, e: ScheduleState, x: Option<SeqNum>)
      requires StateFits(s) && q < |queues| && e == ScheduleEntry(q, pi, sn, s) && sn in s.insts[q]
      requires |s.insts| == |queues| && notEarly == s.notEarly
      requires forall j :: 0 <= j < |queues| && j != q ==> queues[j].insts == s.insts[j] && queues[j].readyQs == s.qs[j]
      requires queues[q].insts == ScheduledRecords(s.insts[q], pi, sn)
      requires var rec := s.insts[q][sn];
        queues[q].readyQs == if !rec.status.canceled && rec.status.arbFailed
          then PushClass(s.qs[q], queues[q].classify, rec.info.opClass, sn) else s.qs[q]
      requires x == if Schedules(s.insts[q], sn) then Some(sn) else None
      ensures Holds(e, s.events, if x.Some? then s.scheduled + [sn] else s.scheduled)
    {
    }

    /** The speculative wake-up of instruction sn, just scheduled in queue q with its cancel
     *  flag clear, on the values s the scheduler holds. */
    method WakeScheduled(q: nat, sn: SeqNum, ghost s: ScheduleState, ghost gs: seq<map<nat, seq<Edge>>>)
      returns (events: seq<WakeEvent>)
      requires Core() && q < |queues| && sn in queues[q].insts && !queues[q].insts[sn].status.canceled
      requires StateFits(s) && GraphsAre(gs) && Holds(s, s.events, s.scheduled)
      modifies this`notEarly, queues`insts, queues`readyQs
      ensures Core() && Holds(SpecWakeState(q, sn, old(queues[q].insts[sn]), gs, s), s.events + events, s.scheduled)
    {
      ghost var rec := queues[q].insts[sn];
      events := WakeIn(q, sn);
      ghost var r := SpecWakeState(q, sn, rec, gs, s);
      if SpecWakes(rec, OpPipelined(pipelined, rec.info.opClass)) {
        ghost var imm := Immediate(CorrectedLat(rec), Stages(), q, wakeMatrix[q]);
        forall j | 0 <= j < |queues|
          ensures queues[j].insts == r.insts[j] && queues[j].readyQs == r.qs[j]
        {
          assert RowAccount(j, s.insts[j], s.qs[j], rec.info.dsts, false, j in imm);
        }
      }
    }

    /** The speculative wake-up of a scheduled instruction, which leaves the issue stages alone. */
    method WakeIn(q: nat, sn: SeqNum) returns (events: seq<WakeEvent>)
      requires Core() && q < |queues| && sn in queues[q].insts
      modifies this`notEarly, queues`insts, queues`readyQs
      ensures Core()
      ensures var rec := old(queues[q].insts[sn]);
        if !SpecWakes(rec, OpPipelined(pipelined, rec.info.opClass)) then
          && events == [] && notEarly == old(notEarly)
          && forall j :: 0 <= j < |queues| ==> queues[j].insts == old(queues[j].insts) && queues[j].readyQs == old(queues[j].readyQs)
        else
          var imm := Immediate(CorrectedLat(rec), Stages(), q, wakeMatrix[q]);
          && events == Delayed(CorrectedLat(rec), (q, sn), Stages(), q, wakeMatrix[q])
          && notEarly == (if imm == {} then old(notEarly) else old(notEarly) - NonFixedRegs(rec.info.dsts))
          && forall j :: 0 <= j < |queues| ==>
               RowAccount(j, old(queues[j].insts), old(queues[j].readyQs), rec.info.dsts, rec.status.canceled, j in imm)
    {
      events := SpecWakeUp(q, sn);
    }

    /**
     * One entry of `scheduleInst` of queue q, the k-th selection: a canceled instruction, or
     * one that failed arbitration (which is replayed), is not scheduled; any other is pushed
     * to stage 0 and returned.
     */
    method ScheduleIn(q: nat, k: nat) returns (x: Option<SeqNum>)
      requires CoreNamed() && q < |queues| && queues[q].Core() && k < |queues[q].selectQ| && queues[q].inflight[0].size <= k
      modifies {queues[q]}`insts, {queues[q]}`readyQs, {queues[q]}`inflight
      ensures CoreNamed() && queues[q].Core() && queues[q].inflight[0].size <= k + 1
      ensures var rec := old(queues[q].insts[queues[q].selectQ[k].1]);
        x == if rec.status.canceled || rec.status.arbFailed then None else Some(queues[q].selectQ[k].1)
      ensures x.Some? ==> x.value in queues[q].insts
      ensures queues[q].insts == ScheduledRecords(old(queues[q].insts), queues[q].selectQ[k].0, queues[q].selectQ[k].1)
      ensures var rec := old(queues[q].insts[queues[q].selectQ[k].1]);
        queues[q].readyQs == if !rec.status.canceled && rec.status.arbFailed
          then PushClass(old(queues[q].readyQs), queues[q].classify, rec.info.opClass, queues[q].selectQ[k].1)
          else old(queues[q].readyQs)
      ensures Live(queues[q].inflight[0]) == Live(old(queues[q].inflight[0])) + if x.Some? then [x] else []
      ensures |queues[q].inflight| == |old(queues[q].inflight)|
      ensures forall i :: 0 < i < |queues[q].inflight| ==> queues[q].inflight[i] == old(queues[q].inflight[i])
    {
      assert forall p :: 0 <= p < |queues| && p != q ==> queues[p] != queues[q] by {
        assert Indexed();
      }
      NamedIsCore();
      x := queues[q].ScheduleOne(k);
      CoreIsNamed();
    }

    /** Queue t's part of the last loop of `loadCancel`. */
    method ClearOne(t: nat)
      requires Core() && t < |queues|
      modifies {queues[t]}`inflight
      ensures Core() && StagesFree(queues[t].inflight, queues[t].insts)
      ensures StageSizes(queues[t].inflight) == StageSizes(old(queues[t].inflight))
      ensures |queues[t].inflight| == |old(queues[t].inflight)| && forall i :: 0 <= i < |queues[t].inflight| ==>
        queues[t].inflight[i].size == old(queues[t].inflight[i].size) && SlotsNulled(old(queues[t].inflight[i].insts), queues[t].inflight[i].insts)
    {
      assert forall p :: 0 <= p < |queues| && p != t ==> queues[p] != queues[t] by {
        assert Indexed();
      }
      queues[t].ClearCanceledStages();
    }
  }
}
