/**
 * The issue-scheduler topologies offered by the configuration: the issue
 * queues of each scheduler, the functional units behind each of their
 * output ports, the register-file read ports each output port claims, and
 * how speculative wake-ups travel between queues.
 */
module FuScheduler {
  import opened Common
  import opened RfPort

  /** The functional-unit descriptions an issue port can be given. */
  datatype FuKind =
    | IntAlu | IntMult | IntBru | IntDiv | IntMisc
    | ReadPortFu | RdWrPortFu | WritePortFu
    | FpAlu | FpMac | FpMisc | FpSlow
    | SimdUnit

  /** `IssuePort(fu=..., rp=...)`: rp lists encoded read ports, one per source operand. */
  datatype IssuePortCfg = IssuePortCfg(fu: seq<FuKind>, rp: seq<nat>)

  /** `IssueQue(...)`; a missing `scheduleToExecDelay` leaves the parameter's default. */
  datatype IssueQueCfg = IssueQueCfg(
    name: string, inports: nat, size: nat, oports: seq<IssuePortCfg>, scheduleToExecDelay: Option<nat>)

  /** `SpecWakeupChannel(srcIQ, dstIQ)`. */
  datatype WakeupChannel = WakeupChannel(srcIQ: string, dstIQ: seq<string>)

  /** A scheduler: its queues, and either an all-to-all wake-up crossbar or an explicit network.
   *  A scheduler that does not set `xbarWakeup` leaves it off. */
  datatype SchedulerCfg = SchedulerCfg(iqs: seq<IssueQueCfg>, xbarWakeup: bool, network: seq<WakeupChannel>)

  function Port(fu: seq<FuKind>): IssuePortCfg { IssuePortCfg(fu, []) }

  // The ECore schedulers (all-to-all wake-up). Queues that appear unchanged in both
  // are declared once.
  const ECoreIntIQ0 := IssueQueCfg("intIQ0", 2, 2 * 12, [Port([IntAlu, IntBru]), Port([IntAlu, IntBru])], None)
  const ECoreIntIQ1 := IssueQueCfg("intIQ1", 2, 2 * 12, [Port([IntAlu, IntBru]), Port([IntAlu, IntBru])], None)
  const ECoreIntIQ2 := IssueQueCfg("intIQ2", 2, 2 * 12, [Port([IntMult, IntDiv, IntMisc])], None)
  const ECoreMemIQ0 := IssueQueCfg("memIQ0", 2, 2 * 16, [Port([ReadPortFu])], None)
  const ECoreMemIQ1 := IssueQueCfg("memIQ1", 2, 2 * 16, [Port([RdWrPortFu])], None)
  const ECoreFpIQ0 := IssueQueCfg("fpIQ0", 2, 18, [Port([FpAlu, FpMac]), Port([FpAlu, FpMac])], Some(3))
  const ECoreFpIQ1 := IssueQueCfg("fpIQ1", 2, 18, [Port([FpMisc, FpSlow])], Some(3))
  const ECoreVecIQ0 := IssueQueCfg("vecIQ0", 2, 16, [Port([SimdUnit]), Port([SimdUnit])], Some(3))

  const ECoreScheduler: SchedulerCfg := SchedulerCfg(
    [ECoreIntIQ0, ECoreIntIQ1, ECoreIntIQ2, ECoreMemIQ0, ECoreMemIQ1, ECoreFpIQ0, ECoreFpIQ1, ECoreVecIQ0],
    true, [])

  const ECore2ReadMemIQ0 := IssueQueCfg("memIQ0", 2, 2 * 16, [Port([ReadPortFu]), Port([ReadPortFu])], None)
  const ECore2ReadMemIQ1 := IssueQueCfg("memIQ1", 2, 2 * 16, [Port([WritePortFu])], None)
  const ECore2ReadFpIQ1 := IssueQueCfg("fpIQ1", 2, 18, [Port([FpMisc])], Some(3))
  const ECore2ReadFpIQ4 := IssueQueCfg("fpIQ4", 2, 18, [Port([FpSlow])], Some(3))

  const ECore2ReadScheduler: SchedulerCfg := SchedulerCfg(
    [ECoreIntIQ0, ECoreIntIQ1, ECoreIntIQ2, ECore2ReadMemIQ0, ECore2ReadMemIQ1, ECoreFpIQ0,
     ECore2ReadFpIQ1, ECore2ReadFpIQ4, ECoreVecIQ0],
    true, [])

  // The Kunminghu scheduler: explicit read ports and a wake-up network.
  const KmhIntIQ0 := IssueQueCfg("intIQ0", 2, 2 * 12, [
    IssuePortCfg([IntAlu, IntMult], [IntRd(0, 0), IntRd(1, 0)]),
    IssuePortCfg([IntBru], [IntRd(6, 1), IntRd(7, 1)])], None)
  const KmhIntIQ1 := IssueQueCfg("intIQ1", 2, 2 * 12, [
    IssuePortCfg([IntAlu, IntMult], [IntRd(2, 0), IntRd(3, 0)]),
    IssuePortCfg([IntBru], [IntRd(4, 1), IntRd(5, 1)])], None)
  const KmhIntIQ2 := IssueQueCfg("intIQ2", 2, 2 * 12, [
    IssuePortCfg([IntAlu], [IntRd(4, 0), IntRd(5, 0)]),
    IssuePortCfg([IntBru, IntMisc], [IntRd(2, 1), IntRd(3, 1)])], None)
  const KmhIntIQ3 := IssueQueCfg("intIQ3", 2, 2 * 12, [
    IssuePortCfg([IntAlu], [IntRd(6, 0), IntRd(7, 0)]),
    IssuePortCfg([IntDiv], [IntRd(0, 1), IntRd(1, 1)])], None)
  const KmhLoad0 := IssueQueCfg("load0", 1, 16, [IssuePortCfg([ReadPortFu], [IntRd(8, 0)])], None)
  const KmhLoad1 := IssueQueCfg("load1", 1, 16, [IssuePortCfg([ReadPortFu], [IntRd(9, 0)])], None)
  const KmhLoad2 := IssueQueCfg("load2", 1, 16, [IssuePortCfg([ReadPortFu], [IntRd(10, 0)])], None)
  const KmhStore0 := IssueQueCfg("store0", 1, 16,
    [IssuePortCfg([WritePortFu], [IntRd(7, 2), IntRd(5, 2), FpRd(12, 0)])], None)
  const KmhStore1 := IssueQueCfg("store1", 1, 16,
    [IssuePortCfg([WritePortFu], [IntRd(6, 2), IntRd(3, 2), FpRd(13, 0)])], None)
  const KmhFpIQ0 := IssueQueCfg("fpIQ0", 2, 18,
    [IssuePortCfg([FpAlu, FpMisc, FpMac], [FpRd(0, 0), FpRd(1, 0), FpRd(2, 0)])], Some(3))
  const KmhFpIQ1 := IssueQueCfg("fpIQ1", 2, 18,
    [IssuePortCfg([FpAlu, FpMac], [FpRd(3, 0), FpRd(4, 0), FpRd(5, 0)])], Some(3))
  const KmhFpIQ2 := IssueQueCfg("fpIQ2", 2, 18,
    [IssuePortCfg([FpAlu, FpMac], [FpRd(6, 0), FpRd(7, 0), FpRd(8, 0)])], Some(3))
  const KmhFpIQ3 := IssueQueCfg("fpIQ3", 2, 18,
    [IssuePortCfg([FpAlu, FpMac], [FpRd(9, 0), FpRd(10, 0), FpRd(11, 0)])], Some(3))
  const KmhFpIQ4 := IssueQueCfg("fpIQ4", 2, 18, [
    IssuePortCfg([FpSlow], [FpRd(2, 1), FpRd(5, 1)]),
    IssuePortCfg([FpSlow], [FpRd(8, 1), FpRd(11, 1)])], Some(3))
  const KmhVecIQ0 := IssueQueCfg("vecIQ0", 5, 16 + 16 + 10,
    [Port([SimdUnit]), Port([SimdUnit]), Port([SimdUnit]), Port([SimdUnit]), Port([SimdUnit])], Some(3))

  const IntBank: seq<string> :=
    ["intIQ0", "intIQ1", "intIQ2", "intIQ3", "load0", "load1", "load2", "store0", "store1"]
  const FpBank: seq<string> := ["fpIQ0", "fpIQ1", "fpIQ2", "fpIQ3", "fpIQ4", "store0", "store1"]

  const KunminghuScheduler: SchedulerCfg := SchedulerCfg(
    [KmhIntIQ0, KmhIntIQ1, KmhIntIQ2, KmhIntIQ3, KmhLoad0, KmhLoad1, KmhLoad2, KmhStore0, KmhStore1,
     KmhFpIQ0, KmhFpIQ1, KmhFpIQ2, KmhFpIQ3, KmhFpIQ4, KmhVecIQ0],
    false, [
      WakeupChannel("intIQ0", IntBank),
      WakeupChannel("intIQ1", IntBank),
      WakeupChannel("intIQ2", IntBank),
      WakeupChannel("intIQ3", IntBank),
      WakeupChannel("fpIQ0", FpBank),
      WakeupChannel("fpIQ1", FpBank),
      WakeupChannel("fpIQ2", FpBank),
      WakeupChannel("fpIQ3", FpBank),
      WakeupChannel("load0", IntBank),
      WakeupChannel("load1", IntBank),
      WakeupChannel("load2", IntBank)
    ])

  const DefaultScheduler: SchedulerCfg := KunminghuScheduler

  // ---------------------------------------------------------------------
  // What the issue queues and the scheduler demand of a configuration

  /** The units of a port, as a set: the port's op-class mask, with each unit kind
   *  standing for the op classes it executes. */
  function Units(p: IssuePortCfg): set<FuKind>
  {
    set u | u in p.fu
  }

  /** `same_fu`: every port has the same mask. */
  predicate AllSameUnits(ps: seq<IssuePortCfg>)
  {
    forall i, j :: 0 <= i < |ps| && 0 <= j < |ps| ==> Units(ps[i]) == Units(ps[j])
  }

  /** No two ports share a unit. */
  predicate UnitsDisjoint(ps: seq<IssuePortCfg>)
  {
    forall i, j :: 0 <= i < j < |ps| ==> Units(ps[i]) !! Units(ps[j])
  }

  /** No unit is listed twice in one port. */
  predicate UnitsDistinct(p: IssuePortCfg)
  {
    forall k, l :: 0 <= k < l < |p.fu| ==> p.fu[k] != p.fu[l]
  }

  /** A read-port encoding the issue queue accepts: priority below 4, a known register file,
   *  and an occupancy key below 64. */
  predicate AcceptedReadPort(x: nat)
  {
    RfGetPriority(x) < 4 && RfGetTypeId(x) < 2 && RfMakeTypePortId(RfGetTypeId(x), RfGetPortId(x)) < 64
  }

  /** Every encoding an `IntRD` or `FpRD` can produce is accepted. */
  lemma EncodingsAccepted()
    ensures forall x: nat :: x < 128 ==> AcceptedReadPort(x)
  {
    forall x: nat | x < 128 ensures AcceptedReadPort(x) {
      DecodeEncode(x);
    }
  }

  predicate WellFormedQueue(q: IssueQueCfg)
  {
    && 1 <= |q.oports| <= 8
    && (forall i :: 0 <= i < |q.oports| ==> |q.oports[i].fu| >= 1)
    && (forall i :: 0 <= i < |q.oports| ==> forall x :: x in q.oports[i].rp ==> AcceptedReadPort(x))
    && (AllSameUnits(q.oports) || UnitsDisjoint(q.oports))
    && (forall i :: 0 <= i < (if AllSameUnits(q.oports) then 1 else |q.oports|) ==> UnitsDistinct(q.oports[i]))
  }

  /** The mask test of the queue constructor is sticky: once two masks differ, any later
   *  overlap panics, so a queue whose ports are A, B, B is refused although every pair of
   *  its ports is identical or disjoint. */
  lemma StickySameFu()
    ensures !WellFormedQueue(IssueQueCfg("q", 1, 8, [Port([IntAlu]), Port([IntDiv]), Port([IntDiv])], None))
  {
    var ps := [Port([IntAlu]), Port([IntDiv]), Port([IntDiv])];
    assert IntAlu in Units(ps[0]) && IntAlu !in Units(ps[1]);
    assert IntDiv in Units(ps[1]) && IntDiv in Units(ps[2]);
  }

  /** How many queues carry the given name: `findIQbyname` panics when more than one does and
   *  resolves nothing when none does. */
  function CountNamed(iqs: seq<IssueQueCfg>, name: string): (n: nat)
    ensures n <= |iqs|
    ensures n == 0 <==> forall q :: q in iqs ==> q.name != name
  {
    if iqs == [] then 0 else (if iqs[0].name == name then 1 else 0) + CountNamed(iqs[1..], name)
  }

  function Names(iqs: seq<IssueQueCfg>): (r: seq<string>)
  {
    seq(|iqs|, i requires 0 <= i < |iqs| => iqs[i].name)
  }

  predicate DistinctNames(iqs: seq<IssueQueCfg>)
  {
    forall i, j :: 0 <= i < j < |iqs| ==> iqs[i].name != iqs[j].name
  }

  /** With distinct names, a name that occurs names exactly one queue. */
  lemma {:induction false} UniqueNameCount(iqs: seq<IssueQueCfg>, name: string)
    requires DistinctNames(iqs) && name in Names(iqs)
    ensures CountNamed(iqs, name) == 1
  {
    if iqs[0].name == name {
      assert forall q :: q in iqs[1..] ==> q.name != name by {
        forall q | q in iqs[1..] ensures q.name != name {
          var k :| 0 <= k < |iqs[1..]| && iqs[1..][k] == q;
          assert iqs[k + 1] == q;
        }
      }
    } else {
      var k :| 0 <= k < |iqs| && Names(iqs)[k] == name;
      assert Names(iqs[1..])[k - 1] == name;
      UniqueNameCount(iqs[1..], name);
    }
  }

  /** Every name in the wake-up network picks out exactly one queue. */
  predicate NetworkResolves(s: SchedulerCfg)
  {
    forall c :: c in s.network ==>
      CountNamed(s.iqs, c.srcIQ) == 1 && forall d :: d in c.dstIQ ==> CountNamed(s.iqs, d) == 1
  }

  // One queue at a time, so that each check stays small.
  lemma ECoreIntIQ0WellFormed() ensures WellFormedQueue(ECoreIntIQ0) {}
  lemma ECoreIntIQ1WellFormed() ensures WellFormedQueue(ECoreIntIQ1) {}
  lemma ECoreIntIQ2WellFormed() ensures WellFormedQueue(ECoreIntIQ2) {}
  lemma ECoreMemIQ0WellFormed() ensures WellFormedQueue(ECoreMemIQ0) {}
  lemma ECoreMemIQ1WellFormed() ensures WellFormedQueue(ECoreMemIQ1) {}
  lemma ECoreFpIQ0WellFormed() ensures WellFormedQueue(ECoreFpIQ0) {}
  lemma ECoreFpIQ1WellFormed() ensures WellFormedQueue(ECoreFpIQ1) {}
  lemma ECoreVecIQ0WellFormed() ensures WellFormedQueue(ECoreVecIQ0) {}
  lemma ECore2ReadMemIQ0WellFormed() ensures WellFormedQueue(ECore2ReadMemIQ0) {}
  lemma ECore2ReadMemIQ1WellFormed() ensures WellFormedQueue(ECore2ReadMemIQ1) {}
  lemma ECore2ReadFpIQ1WellFormed() ensures WellFormedQueue(ECore2ReadFpIQ1) {}
  lemma ECore2ReadFpIQ4WellFormed() ensures WellFormedQueue(ECore2ReadFpIQ4) {}
  lemma KmhIntIQ0WellFormed() ensures WellFormedQueue(KmhIntIQ0)
  {
    var ps := KmhIntIQ0.oports;
    assert ps[0].fu == [IntAlu, IntMult] && ps[1].fu == [IntBru];
    assert IntBru in Units(ps[1]) && Units(ps[0]) !! Units(ps[1]);
    assert ps[0].rp == [IntRd(0, 0), IntRd(1, 0)] && ps[1].rp == [IntRd(6, 1), IntRd(7, 1)];
    EncodingsAccepted();
  }
  lemma KmhIntIQ1WellFormed() ensures WellFormedQueue(KmhIntIQ1) { EncodingsAccepted(); }
  lemma KmhIntIQ2WellFormed() ensures WellFormedQueue(KmhIntIQ2) { EncodingsAccepted(); }
  lemma KmhIntIQ3WellFormed() ensures WellFormedQueue(KmhIntIQ3) { EncodingsAccepted(); }
  lemma KmhLoad0WellFormed() ensures WellFormedQueue(KmhLoad0) { EncodingsAccepted(); }
  lemma KmhLoad1WellFormed() ensures WellFormedQueue(KmhLoad1) { EncodingsAccepted(); }
  lemma KmhLoad2WellFormed() ensures WellFormedQueue(KmhLoad2) { EncodingsAccepted(); }
  lemma KmhStore0WellFormed() ensures WellFormedQueue(KmhStore0) { EncodingsAccepted(); }
  lemma KmhStore1WellFormed() ensures WellFormedQueue(KmhStore1) { EncodingsAccepted(); }
  lemma KmhFpIQ0WellFormed() ensures WellFormedQueue(KmhFpIQ0) { EncodingsAccepted(); }
  lemma KmhFpIQ1WellFormed() ensures WellFormedQueue(KmhFpIQ1) { EncodingsAccepted(); }
  lemma KmhFpIQ2WellFormed() ensures WellFormedQueue(KmhFpIQ2) { EncodingsAccepted(); }
  lemma KmhFpIQ3WellFormed() ensures WellFormedQueue(KmhFpIQ3) { EncodingsAccepted(); }
  lemma KmhFpIQ4WellFormed() ensures WellFormedQueue(KmhFpIQ4) { EncodingsAccepted(); }
  lemma KmhVecIQ0WellFormed() ensures WellFormedQueue(KmhVecIQ0) { EncodingsAccepted(); }

  /** The ECore schedulers use the all-to-all crossbar, and every queue has between one and
   *  eight output ports whose unit sets are all the same or pairwise disjoint, with no unit
   *  listed twice in a port the constructor classifies. */
  lemma ECoreSchedulersWellFormed()
    ensures ECoreScheduler.xbarWakeup && ECore2ReadScheduler.xbarWakeup
    ensures forall q :: q in ECoreScheduler.iqs ==> WellFormedQueue(q)
    ensures forall q :: q in ECore2ReadScheduler.iqs ==> WellFormedQueue(q)
  {
    ECoreIntIQ0WellFormed();
    ECoreIntIQ1WellFormed();
    ECoreIntIQ2WellFormed();
    ECoreMemIQ0WellFormed();
    ECoreMemIQ1WellFormed();
    ECoreFpIQ0WellFormed();
    ECoreFpIQ1WellFormed();
    ECoreVecIQ0WellFormed();
    ECore2ReadMemIQ0WellFormed();
    ECore2ReadMemIQ1WellFormed();
    ECore2ReadFpIQ1WellFormed();
    ECore2ReadFpIQ4WellFormed();
  }

  /** Every Kunminghu queue is well formed and its read ports are acceptable. */
  lemma KunminghuQueuesWellFormed()
    ensures forall q :: q in KunminghuScheduler.iqs ==> WellFormedQueue(q)
  {
    KmhIntIQ0WellFormed();
    KmhIntIQ1WellFormed();
    KmhIntIQ2WellFormed();
    KmhIntIQ3WellFormed();
    KmhLoad0WellFormed();
    KmhLoad1WellFormed();
    KmhLoad2WellFormed();
    KmhStore0WellFormed();
    KmhStore1WellFormed();
    KmhFpIQ0WellFormed();
    KmhFpIQ1WellFormed();
    KmhFpIQ2WellFormed();
    KmhFpIQ3WellFormed();
    KmhFpIQ4WellFormed();
    KmhVecIQ0WellFormed();
  }


  predicate Distinct(s: seq<string>)
  {
    forall i, j :: 0 <= i < j < |s| ==> s[i] != s[j]
  }

  /** Each string is non-empty and starts with one of the given characters. */
  predicate InitialsIn(s: seq<string>, initials: set<char>)
  {
    forall i :: 0 <= i < |s| ==> |s[i]| > 0 && s[i][0] in initials
  }

  /** Two lists of distinct names whose initials do not overlap join into one. */
  lemma DistinctAppend(a: seq<string>, b: seq<string>, ia: set<char>, ib: set<char>)
    requires Distinct(a) && Distinct(b)
    requires InitialsIn(a, ia) && InitialsIn(b, ib) && ia !! ib
    ensures Distinct(a + b) && InitialsIn(a + b, ia + ib)
  {
    var ab := a + b;
    forall i, j | 0 <= i < j < |ab| ensures ab[i] != ab[j] {
      if i < |a| && j >= |a| {
        assert ab[i][0] in ia && ab[j][0] in ib;
      }
    }
  }

  const KunminghuNameList: seq<string> :=
    ["intIQ0", "intIQ1", "intIQ2", "intIQ3", "load0", "load1", "load2", "store0", "store1",
     "fpIQ0", "fpIQ1", "fpIQ2", "fpIQ3", "fpIQ4", "vecIQ0"]

  lemma KunminghuNames()
    ensures Names(KunminghuScheduler.iqs) == KunminghuNameList
  {
  }

  /** Grouped by initial, the names are distinct within each group, and no two groups share
   *  an initial. */
  lemma KunminghuNameListDistinct()
    ensures Distinct(KunminghuNameList)
  {
    var ints, loads, stores := ["intIQ0", "intIQ1", "intIQ2", "intIQ3"], ["load0", "load1", "load2"], ["store0", "store1"];
    var fps, vecs := ["fpIQ0", "fpIQ1", "fpIQ2", "fpIQ3", "fpIQ4"], ["vecIQ0"];
    NameGroupsDistinct();
    DistinctAppend(ints, loads, {'i'}, {'l'});
    DistinctAppend(ints + loads, stores, {'i', 'l'}, {'s'});
    DistinctAppend(ints + loads + stores, fps, {'i', 'l', 's'}, {'f'});
    DistinctAppend(ints + loads + stores + fps, vecs, {'i', 'l', 's', 'f'}, {'v'});
    assert KunminghuNameList == ints + loads + stores + fps + vecs;
  }

  lemma NameGroupsDistinct()
    ensures Distinct(["intIQ0", "intIQ1", "intIQ2", "intIQ3"]) && InitialsIn(["intIQ0", "intIQ1", "intIQ2", "intIQ3"], {'i'})
    ensures Distinct(["load0", "load1", "load2"]) && InitialsIn(["load0", "load1", "load2"], {'l'})
    ensures Distinct(["store0", "store1"]) && InitialsIn(["store0", "store1"], {'s'})
    ensures Distinct(["fpIQ0", "fpIQ1", "fpIQ2", "fpIQ3", "fpIQ4"]) && InitialsIn(["fpIQ0", "fpIQ1", "fpIQ2", "fpIQ3", "fpIQ4"], {'f'})
    ensures Distinct(["vecIQ0"]) && InitialsIn(["vecIQ0"], {'v'})
  {
  }

  lemma KunminghuDistinctNames()
    ensures DistinctNames(KunminghuScheduler.iqs)
  {
    KunminghuNames();
    KunminghuNameListDistinct();
    var names := Names(KunminghuScheduler.iqs);
    forall i, j | 0 <= i < j < |KunminghuScheduler.iqs|
      ensures KunminghuScheduler.iqs[i].name != KunminghuScheduler.iqs[j].name
    {
      assert names[i] != names[j];
    }
  }

  /** The Kunminghu wake-up network is explicit, and each queue name it uses picks out
   *  exactly one queue. */
  lemma KunminghuNetworkResolves()
    ensures !KunminghuScheduler.xbarWakeup
    ensures NetworkResolves(KunminghuScheduler)
  {
    var iqs := KunminghuScheduler.iqs;
    KunminghuNames();
    KunminghuDistinctNames();
    assert forall n :: n in IntBank ==> n in Names(iqs);
    assert forall n :: n in FpBank ==> n in Names(iqs);
    forall c | c in KunminghuScheduler.network
      ensures CountNamed(iqs, c.srcIQ) == 1 && forall d :: d in c.dstIQ ==> CountNamed(iqs, d) == 1
    {
      assert c.srcIQ in Names(iqs);
      UniqueNameCount(iqs, c.srcIQ);
      forall d | d in c.dstIQ ensures CountNamed(iqs, d) == 1 {
        UniqueNameCount(iqs, d);
      }
    }
  }
}
