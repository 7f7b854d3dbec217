/**
 * The content-directed prefetcher (CDP). When a block arrives or is hit, the
 * prefetcher reads its 64-bit words and treats a word as a pointer when it
 * looks like an Sv39 virtual address whose (vpn2, vpn1) region is "hot" in a
 * VPN table; it then prefetches the block that word points to and, while the
 * prefetcher is accurate enough, the next blocks after it.
 *
 * Three tables carry the state:
 *  - the VPN table counts, per (vpn2, vpn1) region, how often demand accesses
 *    touched it, and periodically turns the counts into a "hot" flag;
 *  - the filter table keeps a two-bit saturating counter per block slot of a
 *    region, raised when a prefetched block goes unused and lowered when one
 *    is used;
 *  - an LRU filter of the 128 most recently requested addresses drops
 *    duplicate requests.
 *
 * The set-associative tables are maps keyed by tag; the replacement victim
 * of an allocation is a parameter. The floating-point heuristics (accuracy,
 * coverage, MPKI, bus ratio, the confidence state machine and the decay
 * arithmetic of a period reset) are inputs.
 */
module Cdp {
  import opened Common

  // ---------------------------------------------------------------------
  // Sv39 virtual address fields

  /** The fields of an Sv39 virtual address: vpn2 = a[38:30], vpn1 =
   *  a[29:21], vpn0 = a[20:12], the page offset a[11:0], and a[63:39], which
   *  is zero in a canonical user address. */
  function Vpn2(a: nat): (r: nat) ensures r < 512 { a / 0x4000_0000 % 512 }
  function Vpn1(a: nat): (r: nat) ensures r < 512 { a / 0x20_0000 % 512 }
  function Vpn0(a: nat): (r: nat) ensures r < 512 { a / 0x1000 % 512 }
  function PageOffset(a: nat): (r: nat) ensures r < 0x1000 { a % 0x1000 }
  function HighBits(a: nat): (r: nat) ensures r < 0x200_0000 { a / 0x80_0000_0000 % 0x200_0000 }

  /** The powers of two the field positions and widths stand for. */
  lemma FieldPowers()
    ensures Pow2(0) == 1 && Pow2(9) == 512 && Pow2(12) == 0x1000 && Pow2(21) == 0x20_0000
    ensures Pow2(25) == 0x200_0000 && Pow2(30) == 0x4000_0000 && Pow2(39) == 0x80_0000_0000
  {
    assert Pow2(3) == 8;
    Pow2Add(3, 3);
    Pow2Add(6, 3);
    Pow2Add(9, 3);
    Pow2Add(12, 9);
    Pow2Add(21, 9);
    Pow2Add(30, 9);
    Pow2Add(12, 12);
    Pow2Add(24, 1);
  }

  /** These are the `BITS` fields of the address. */
  lemma FieldsAreBits(a: nat)
    ensures Vpn2(a) == Bits(a, 38, 30) && Vpn1(a) == Bits(a, 29, 21) && Vpn0(a) == Bits(a, 20, 12)
    ensures PageOffset(a) == Bits(a, 11, 0) && HighBits(a) == Bits(a, 63, 39)
  {
    FieldPowers();
  }

  /** The four Sv39 fields of an address below 2^39 put it back together:
   *  the split of `addToVpnTable` loses nothing. */
  lemma Sv39Split(a: nat)
    requires a < 0x80_0000_0000
    ensures a == ((Vpn2(a) * 512 + Vpn1(a)) * 512 + Vpn0(a)) * 4096 + PageOffset(a)
  {
  }

  // ---------------------------------------------------------------------
  // Splitting (vpn2, vpn1) into a VPN-table tag and a sub-entry index

  /** `(vpn2 << 9) | vpn1`: with a 9-bit vpn1 the two fields do not overlap,
   *  so the or is an addition. */
  function Cat(vpn2: nat, vpn1: nat): nat
    requires vpn1 < 512
  {
    vpn2 * 512 + vpn1
  }

  lemma CatInjective(a2: nat, a1: nat, b2: nat, b1: nat)
    requires a1 < 512 && b1 < 512 && Cat(a2, a1) == Cat(b2, b1)
    ensures a2 == b2 && a1 == b1
  {
    DivModUnique(Cat(a2, a1), 512, a2, a1);
    DivModUnique(Cat(b2, b1), 512, b2, b1);
  }

  /** The low `bits` bits of the concatenation pick the sub-entry ... */
  function SubIndex(cat: nat, bits: nat): nat { LowMask(cat, bits) }

  /** ... and the rest is the tag of the table entry. */
  function VpnTag(cat: nat, bits: nat): nat { Shr(cat, bits) }

  /** Tag and sub-index together determine the concatenation: two regions
   *  share a sub-entry only if they are the same region. */
  lemma SplitInjective(c1: nat, c2: nat, bits: nat)
    requires VpnTag(c1, bits) == VpnTag(c2, bits) && SubIndex(c1, bits) == SubIndex(c2, bits)
    ensures c1 == c2
  {
    ShrIsDiv(c1, bits);
    ShrIsDiv(c2, bits);
    LowMaskIsMod(c1, bits);
    LowMaskIsMod(c2, bits);
    DivMod(c1, Pow2(bits));
    DivMod(c2, Pow2(bits));
  }

  /** `ceil(log2(n))`: the fewest bits that number n values. */
  function CeilLog2(n: nat): (b: nat)
    requires n >= 1
    ensures n <= Pow2(b)
    ensures b > 0 ==> Pow2(b - 1) < n
    decreases n
  {
    if n <= 1 then 0 else 1 + CeilLog2((n + 1) / 2)
  }

  /** The sub-entry count check of the VPN table constructor, as written:
   *  even and below 512. */
  predicate SubEntryGuardAsWritten(n: nat) {
    n % 2 == 0 && n < 512
  }

  /** Six sub-entries pass the check, take ceil(log2 6) = 3 index bits, and
   *  the region (vpn2, vpn1) = (0, 7) then selects sub-entry 7 of 6. */
  lemma SixSubEntriesOverflow()
    ensures SubEntryGuardAsWritten(6)
    ensures CeilLog2(6) == 3
    ensures SubIndex(Cat(0, 7), CeilLog2(6)) == 7
  {
    assert CeilLog2(2) == 1;
    assert CeilLog2(3) == 2;
    assert Pow2(3) == 8;
  }

  /** The check the index split needs: a power of two from 2 to 256. */
  predicate SubEntryGuard(n: nat) {
    2 <= n < 512 && n == Pow2(CeilLog2(n))
  }

  /** With the corrected check every region selects an existing sub-entry,
   *  and every count it admits also passes the original check. */
  lemma {:induction false} SubIndexInRange(n: nat, cat: nat)
    requires SubEntryGuard(n)
    ensures SubIndex(cat, CeilLog2(n)) < n
    ensures SubEntryGuardAsWritten(n)
  {
    var b := CeilLog2(n);
    assert b > 0;
    LowMaskIsMod(cat, b);
    assert n == 2 * Pow2(b - 1);
  }

  // ---------------------------------------------------------------------
  // Sub-entries of the VPN table

  /** One (vpn2, vpn1) region: its access count in the current period, the
   *  decayed count of past periods, and whether it is hot. */
  datatype SubVpnEntry = SubVpnEntry(refCnt: nat, prevRefCnt: nat, exist: bool, hot: bool)

  /** A discarded sub-entry: every field cleared. */
  const Discarded := SubVpnEntry(0, 0, false, false)

  /** A demand access that hits a block CDP prefetched counts four. */
  function Increment(pfHitCdp: bool): nat { if pfHitCdp then 4 else 1 }

  function SubInit(pfHitCdp: bool): SubVpnEntry {
    SubVpnEntry(Increment(pfHitCdp), 0, true, false)
  }

  function SubAccess(e: SubVpnEntry, pfHitCdp: bool): SubVpnEntry {
    e.(refCnt := e.refCnt + Increment(pfHitCdp))
  }

  /** Under low confidence a region must have been used more than once every
   *  16 accesses of a period to be hot; otherwise more than twice. */
  function HotThreshold(lowConf: bool, resetPeriod: nat): nat {
    if lowConf then resetPeriod / 16 else 2
  }

  function UpdateHot(e: SubVpnEntry, lowConf: bool, resetPeriod: nat): SubVpnEntry {
    e.(hot := e.prevRefCnt > HotThreshold(lowConf, resetPeriod))
  }

  function SubDecr(e: SubVpnEntry, lowConf: bool, resetPeriod: nat): SubVpnEntry {
    UpdateHot(e.(prevRefCnt := if e.prevRefCnt == 0 then 0 else e.prevRefCnt - 1), lowConf, resetPeriod)
  }

  /** The end of a period: `newPrev` is the decayed count the floating-point
   *  blend produces. */
  function SubPeriodReset(e: SubVpnEntry, newPrev: nat, lowConf: bool, resetPeriod: nat): SubVpnEntry {
    UpdateHot(e.(prevRefCnt := newPrev), lowConf, resetPeriod).(refCnt := 0)
  }

  /** A hot sub-entry exists and has a positive past count; one that does not
   *  exist is fully cleared. */
  predicate SubOk(e: SubVpnEntry) {
    (e.hot ==> e.exist && e.prevRefCnt > 0) && (!e.exist ==> e == Discarded)
  }

  // ---------------------------------------------------------------------
  // The VPN table as a map from tag to its sub-entries

  type VpnMap = map<nat, seq<SubVpnEntry>>

  predicate VpnMapOk(t: VpnMap, n: nat) {
    forall k :: k in t ==> |t[k]| == n && forall j :: 0 <= j < n ==> SubOk(t[k][j])
  }

  /** `search`: the tag hits, and the sub-entry exists and is hot. */
  predicate VpnHot(t: VpnMap, tag: nat, idx: nat) {
    tag in t && idx < |t[tag]| && t[tag][idx].exist && t[tag][idx].hot
  }

  predicate VpnExists(t: VpnMap, tag: nat, idx: nat) {
    tag in t && idx < |t[tag]| && t[tag][idx].exist
  }

  /** `add`: a hit accesses or initialises the sub-entry; a miss replaces the
   *  victim by an entry whose only existing sub-entry is the addressed one. */
  function VpnAdd(t: VpnMap, n: nat, tag: nat, idx: nat, pfHitCdp: bool, victim: nat): VpnMap
    requires idx < n && VpnMapOk(t, n)
  {
    if tag in t then
      var e := t[tag][idx];
      t[tag := t[tag][idx := if e.exist then SubAccess(e, pfHitCdp) else SubInit(pfHitCdp)]]
    else
      MapReplace(t, victim, tag, seq(n, j => if j == idx then SubInit(pfHitCdp) else Discarded))
  }

  /** `add` at (tag, idx): the sub-entry exists afterwards, counted once
   *  more when it existed and freshly initialised otherwise; the other
   *  sub-entries of the entry are kept, or cleared when the entry is new. */
  lemma AddCases(t: VpnMap, n: nat, tag: nat, idx: nat, pfHitCdp: bool, victim: nat)
    requires idx < n && VpnMapOk(t, n)
    ensures var r := VpnAdd(t, n, tag, idx, pfHitCdp, victim);
      && tag in r && |r[tag]| == n
      && VpnExists(r, tag, idx)
      && (VpnExists(t, tag, idx) ==> r[tag][idx] == SubAccess(t[tag][idx], pfHitCdp))
      && (!VpnExists(t, tag, idx) ==> r[tag][idx] == SubInit(pfHitCdp))
      && (forall j :: 0 <= j < n && j != idx ==> r[tag][j] == if tag in t then t[tag][j] else Discarded)
  {
    var r := VpnAdd(t, n, tag, idx, pfHitCdp, victim);
    if tag !in t {
      assert r[tag] == seq(n, j => if j == idx then SubInit(pfHitCdp) else Discarded);
    }
  }

  /** Storing a well-formed entry keeps the table well formed. */
  lemma VpnMapOkStore(t: VpnMap, n: nat, tag: nat, s: seq<SubVpnEntry>)
    requires VpnMapOk(t, n) && |s| == n && forall j :: 0 <= j < n ==> SubOk(s[j])
    ensures VpnMapOk(t[tag := s], n)
  {
  }

  /** Replacing a victim by a well-formed entry keeps the table well formed. */
  lemma VpnMapOkReplace(t: VpnMap, n: nat, victim: nat, tag: nat, s: seq<SubVpnEntry>)
    requires VpnMapOk(t, n) && tag !in t && |s| == n && forall j :: 0 <= j < n ==> SubOk(s[j])
    ensures VpnMapOk(MapReplace(t, victim, tag, s), n)
  {
  }

  /** `add` keeps the table well formed. */
  lemma AddKeepsOk(t: VpnMap, n: nat, tag: nat, idx: nat, pfHitCdp: bool, victim: nat)
    requires idx < n && VpnMapOk(t, n)
    ensures VpnMapOk(VpnAdd(t, n, tag, idx, pfHitCdp, victim), n)
  {
    var r := VpnAdd(t, n, tag, idx, pfHitCdp, victim);
    if tag !in t {
      var created := seq(n, j => if j == idx then SubInit(pfHitCdp) else Discarded);
      assert forall j :: 0 <= j < n ==> SubOk(created[j]);
      VpnMapOkReplace(t, n, victim, tag, created);
    } else {
      var e := t[tag][idx];
      var x := if e.exist then SubAccess(e, pfHitCdp) else SubInit(pfHitCdp);
      assert SubOk(x);
      var s := t[tag][idx := x];
      assert forall j :: 0 <= j < n ==> SubOk(s[j]);
      VpnMapOkStore(t, n, tag, s);
    }
  }

  /** Only the entry at `tag` changes, besides the victim `add` may evict,
   *  and the table grows only when a new entry takes no victim's place. */
  lemma AddFrame(t: VpnMap, n: nat, tag: nat, idx: nat, pfHitCdp: bool, victim: nat)
    requires idx < n && VpnMapOk(t, n)
    ensures var r := VpnAdd(t, n, tag, idx, pfHitCdp, victim);
      && (forall k :: k in r ==> k == tag || k in t)
      && (forall k :: k in t && k != tag && (tag in t || k != victim) ==> k in r && r[k] == t[k])
      && |r| == if tag in t || victim in t then |t| else |t| + 1
  {
  }

  /** Counting an access never makes a region hot: only the end of a period
   *  or a decrement can. */
  lemma AddNeverHeats(t: VpnMap, n: nat, tag: nat, idx: nat, pfHitCdp: bool, victim: nat, k: nat, j: nat)
    requires idx < n && VpnMapOk(t, n)
    requires VpnHot(VpnAdd(t, n, tag, idx, pfHitCdp, victim), k, j)
    ensures VpnHot(t, k, j)
  {
    AddCases(t, n, tag, idx, pfHitCdp, victim);
    AddFrame(t, n, tag, idx, pfHitCdp, victim);
  }

  /** `update`: with throttling on, an existing sub-entry's past count drops
   *  by one (not below zero) and its hot flag is recomputed. */
  function VpnUpdate(t: VpnMap, tag: nat, idx: nat, enableThro: bool, lowConf: bool, resetPeriod: nat): VpnMap
  {
    if enableThro && VpnExists(t, tag, idx) then
      t[tag := t[tag][idx := SubDecr(t[tag][idx], lowConf, resetPeriod)]]
    else t
  }

  /** t2 is t1 with at most some past counts lowered and hot flags recomputed:
   *  no entry is allocated or evicted and no sub-entry appears or vanishes. */
  predicate OnlyDecayed(t1: VpnMap, t2: VpnMap) {
    t1.Keys == t2.Keys &&
    forall k :: k in t1 ==>
      |t2[k]| == |t1[k]| &&
      (forall j :: 0 <= j < |t1[k]| ==>
         t2[k][j].exist == t1[k][j].exist && t2[k][j].refCnt == t1[k][j].refCnt &&
         t2[k][j].prevRefCnt <= t1[k][j].prevRefCnt)
  }

  lemma UpdateCases(t: VpnMap, n: nat, tag: nat, idx: nat, enableThro: bool, lowConf: bool, resetPeriod: nat)
    requires VpnMapOk(t, n)
    ensures var r := VpnUpdate(t, tag, idx, enableThro, lowConf, resetPeriod);
      && VpnMapOk(r, n)
      && OnlyDecayed(t, r)
      && |r| == |t|
      && (enableThro && VpnExists(t, tag, idx) ==>
            r[tag][idx].prevRefCnt == (if t[tag][idx].prevRefCnt == 0 then 0 else t[tag][idx].prevRefCnt - 1) &&
            (r[tag][idx].hot <==> r[tag][idx].prevRefCnt > HotThreshold(lowConf, resetPeriod)))
      && (!enableThro || !VpnExists(t, tag, idx) ==> r == t)
  {
    var r := VpnUpdate(t, tag, idx, enableThro, lowConf, resetPeriod);
    if enableThro && VpnExists(t, tag, idx) {
      assert r.Keys == t.Keys;
    }
  }

  lemma OnlyDecayedTrans(t1: VpnMap, t2: VpnMap, t3: VpnMap)
    requires OnlyDecayed(t1, t2) && OnlyDecayed(t2, t3)
    ensures OnlyDecayed(t1, t3)
  {
  }

  /** `periodReset` of every existing sub-entry of one entry. The decay
   *  function maps (throttling on, past count, current count) to the new
   *  past count. */
  function ResetEntry(subs: seq<SubVpnEntry>, decay: (bool, nat, nat) -> nat, enableThro: bool,
                      lowConf: bool, resetPeriod: nat): (r: seq<SubVpnEntry>)
    ensures |r| == |subs|
  {
    seq(|subs|, j requires 0 <= j < |subs| =>
      if subs[j].exist then
        SubPeriodReset(subs[j], decay(enableThro, subs[j].prevRefCnt, subs[j].refCnt), lowConf, resetPeriod)
      else subs[j])
  }

  function ResetAll(t: VpnMap, decay: (bool, nat, nat) -> nat, enableThro: bool, lowConf: bool,
                    resetPeriod: nat): VpnMap
  {
    map k | k in t :: ResetEntry(t[k], decay, enableThro, lowConf, resetPeriod)
  }

  /** After a period reset every existing sub-entry has a zero current count,
   *  the decayed past count, and a hot flag that matches it; the others and
   *  the set of entries are unchanged. */
  lemma ResetCases(t: VpnMap, n: nat, decay: (bool, nat, nat) -> nat, enableThro: bool, lowConf: bool,
                   resetPeriod: nat, k: nat, j: nat)
    requires VpnMapOk(t, n)
    requires k in t && j < n
    ensures var r := ResetAll(t, decay, enableThro, lowConf, resetPeriod);
      && r.Keys == t.Keys
      && r[k][j].exist == t[k][j].exist
      && (t[k][j].exist ==>
            r[k][j].refCnt == 0 &&
            r[k][j].prevRefCnt == decay(enableThro, t[k][j].prevRefCnt, t[k][j].refCnt) &&
            (r[k][j].hot <==> r[k][j].prevRefCnt > HotThreshold(lowConf, resetPeriod)))
      && (!t[k][j].exist ==> r[k][j] == t[k][j])
  {
    var e := t[k][j];
    var r := ResetAll(t, decay, enableThro, lowConf, resetPeriod);
    assert r[k] == ResetEntry(t[k], decay, enableThro, lowConf, resetPeriod);
    assert r[k][j] == if e.exist then SubPeriodReset(e, decay(enableThro, e.prevRefCnt, e.refCnt), lowConf, resetPeriod) else e;
  }

  lemma ResetKeepsOk(t: VpnMap, n: nat, decay: (bool, nat, nat) -> nat, enableThro: bool, lowConf: bool,
                     resetPeriod: nat)
    requires VpnMapOk(t, n)
    ensures VpnMapOk(ResetAll(t, decay, enableThro, lowConf, resetPeriod), n)
    ensures |ResetAll(t, decay, enableThro, lowConf, resetPeriod)| == |t|
  {
    var r := ResetAll(t, decay, enableThro, lowConf, resetPeriod);
    assert r.Keys == t.Keys;
    forall k | k in r
      ensures |r[k]| == n && forall j :: 0 <= j < n ==> SubOk(r[k][j])
    {
      assert r[k] == ResetEntry(t[k], decay, enableThro, lowConf, resetPeriod);
      forall j | 0 <= j < n
        ensures SubOk(r[k][j])
      {
        ResetCases(t, n, decay, enableThro, lowConf, resetPeriod, k, j);
      }
    }
  }

  // ---------------------------------------------------------------------
  // The filter table: two-bit saturating counters per block slot of a region

  /** `SatCounter8{2, 2}`: two bits, starting at 2. */
  const CounterMax: nat := 3
  const CounterInit: nat := 2

  type Counters = seq<nat>

  function FreshCounters(size: nat): (c: Counters)
    ensures |c| == size && forall i :: 0 <= i < size ==> c[i] == CounterInit
  {
    seq(size, _ => CounterInit)
  }

  predicate CountersOk(c: Counters, size: nat) {
    |c| == size && forall i :: 0 <= i < |c| ==> c[i] <= CounterMax
  }

  /** `getInnerAddr`: the slot of a block address. */
  function Slot(c: Counters, addr: nat): nat
    requires |c| > 0
  {
    addr % |c|
  }

  /** `setFilter`: the slot's counter steps up, saturating at 3. */
  function SetFilter(c: Counters, addr: nat): Counters
    requires |c| > 0
  {
    var i := Slot(c, addr);
    c[i := if c[i] < CounterMax then c[i] + 1 else CounterMax]
  }

  /** `unSetFilter`: the slot's counter steps down, saturating at 0. */
  function UnSetFilter(c: Counters, addr: nat): Counters
    requires |c| > 0
  {
    var i := Slot(c, addr);
    c[i := if c[i] > 0 then c[i] - 1 else 0]
  }

  /** `needFilter` of an entry: the slot is saturated. */
  predicate Saturated(c: Counters, addr: nat)
    requires |c| > 0
  {
    c[Slot(c, addr)] == CounterMax
  }

  /** A step up undoes a step down that did not saturate, and the reverse;
   *  both keep the counters in range and leave the other slots alone. */
  lemma {:induction false} SetUnSetInverse(c: Counters, size: nat, addr: nat)
    requires size > 0 && CountersOk(c, size)
    ensures CountersOk(SetFilter(c, addr), size) && CountersOk(UnSetFilter(c, addr), size)
    ensures c[Slot(c, addr)] < CounterMax ==> UnSetFilter(SetFilter(c, addr), addr) == c
    ensures c[Slot(c, addr)] > 0 ==> SetFilter(UnSetFilter(c, addr), addr) == c
    ensures forall i :: 0 <= i < size && i != Slot(c, addr) ==>
      SetFilter(c, addr)[i] == c[i] && UnSetFilter(c, addr)[i] == c[i]
  {
  }

  type FilterMap = map<nat, Counters>

  predicate FilterMapOk(ft: FilterMap, regionBlks: nat) {
    forall tag :: tag in ft ==> CountersOk(ft[tag], regionBlks)
  }

  /** `filterTableAddr`: the address at the filter's granularity. */
  function FilterAddr(addr: nat, granularityBits: nat): nat {
    Shr(addr, granularityBits)
  }

  function FilterTag(addr: nat, granularityBits: nat, regionBlks: nat): nat
    requires regionBlks > 0
  {
    FilterAddr(addr, granularityBits) / regionBlks
  }

  /** `needFilter`: false without an entry for the region, else the slot's
   *  saturation. */
  predicate FilterNeed(ft: FilterMap, granularityBits: nat, regionBlks: nat, addr: nat)
    requires regionBlks > 0 && FilterMapOk(ft, regionBlks)
  {
    var tag := FilterTag(addr, granularityBits, regionBlks);
    tag in ft && Saturated(ft[tag], FilterAddr(addr, granularityBits))
  }

  /** `insertFilterTable`: a hit steps the slot down for a used prefetch and
   *  up for an unused one; a miss allocates only for an unused prefetch. */
  function FilterInsert(ft: FilterMap, granularityBits: nat, regionBlks: nat, addr: nat, useful: bool,
                        victim: nat): (r: FilterMap)
    requires regionBlks > 0 && FilterMapOk(ft, regionBlks)
    ensures FilterMapOk(r, regionBlks)
  {
    var fa := FilterAddr(addr, granularityBits);
    var tag := FilterTag(addr, granularityBits, regionBlks);
    if tag in ft then
      SetUnSetInverse(ft[tag], regionBlks, fa);
      ft[tag := if useful then UnSetFilter(ft[tag], fa) else SetFilter(ft[tag], fa)]
    else if !useful then
      SetUnSetInverse(FreshCounters(regionBlks), regionBlks, fa);
      MapReplace(ft, victim, tag, SetFilter(FreshCounters(regionBlks), fa))
    else ft
  }

  /** An unused prefetch of a region not in the table allocates one entry;
   *  nothing else changes the number of entries. */
  lemma FilterInsertSize(ft: FilterMap, granularityBits: nat, regionBlks: nat, addr: nat, useful: bool,
                         victim: nat)
    requires regionBlks > 0 && FilterMapOk(ft, regionBlks)
    ensures |FilterInsert(ft, granularityBits, regionBlks, addr, useful, victim)| ==
      (if useful || FilterTag(addr, granularityBits, regionBlks) in ft || victim in ft then |ft| else |ft| + 1)
  {
  }

  /** After a used prefetch is recorded, its address is not filtered. */
  lemma UsedNeverFiltered(ft: FilterMap, granularityBits: nat, regionBlks: nat, addr: nat, victim: nat)
    requires regionBlks > 0 && FilterMapOk(ft, regionBlks)
    ensures !FilterNeed(FilterInsert(ft, granularityBits, regionBlks, addr, true, victim), granularityBits,
                  regionBlks, addr)
  {
  }

  /** The first unused prefetch of a region not in the table already makes
   *  its slot filtered (2 + 1 is saturated), and an unused prefetch never
   *  lifts a filter. */
  lemma UnusedFilters(ft: FilterMap, granularityBits: nat, regionBlks: nat, addr: nat, victim: nat)
    requires regionBlks > 0 && FilterMapOk(ft, regionBlks)
    ensures var r := FilterInsert(ft, granularityBits, regionBlks, addr, false, victim);
      && (FilterTag(addr, granularityBits, regionBlks) !in ft ==> FilterNeed(r, granularityBits, regionBlks, addr))
      && (FilterNeed(ft, granularityBits, regionBlks, addr) ==> FilterNeed(r, granularityBits, regionBlks, addr))
  {
  }

  /** The constructor's check on the region size, as written: even. */
  predicate RegionGuardAsWritten(regionBlks: nat) {
    regionBlks % 2 == 0
  }

  /** Zero passes the check, but a region of zero slots has no slot for any
   *  address, and the tag division by the region size is a division by zero. */
  lemma ZeroRegionAdmitted()
    ensures RegionGuardAsWritten(0)
    ensures FreshCounters(0) == []
  {
  }

  /** With the corrected check (even and positive) every address has a slot. */
  lemma {:induction false} RegionSlotExists(regionBlks: nat, addr: nat)
    requires RegionGuardAsWritten(regionBlks) && regionBlks > 0
    ensures Slot(FreshCounters(regionBlks), addr) < |FreshCounters(regionBlks)|
    ensures regionBlks >= 2
  {
  }

  // ---------------------------------------------------------------------
  // The VPN table object

  /** The entry tag and sub-entry index of region (vpn2, vpn1). */
  function Region(vpn2: nat, vpn1: nat, bits: nat): (nat, nat)
    requires vpn1 < 512
  {
    (VpnTag(Cat(vpn2, vpn1), bits), SubIndex(Cat(vpn2, vpn1), bits))
  }

  /** The region of a virtual address. */
  function RegionOf(a: nat, bits: nat): (nat, nat)
  {
    Region(Vpn2(a), Vpn1(a), bits)
  }

  class VpnTable {
    const capacity: nat
    const subEntryNum: nat
    const subEntryBits: nat
    const resetPeriod: nat
    var table: VpnMap
    var resetCounter: nat

    predicate Valid()
      reads this`table
    {
      capacity > 0 && SubEntryGuard(subEntryNum) && subEntryBits == CeilLog2(subEntryNum) &&
      VpnMapOk(table, subEntryNum) && |table| <= capacity
    }

    constructor(capacity: nat, subEntries: nat, resetPeriod: nat)
      requires capacity > 0 && SubEntryGuard(subEntries)
      ensures Valid() && table == map[] && resetCounter == 0
      ensures this.capacity == capacity && subEntryNum == subEntries && this.resetPeriod == resetPeriod
    {
      this.capacity := capacity;
      subEntryNum := subEntries;
      subEntryBits := CeilLog2(subEntries);
      this.resetPeriod := resetPeriod;
      table := map[];
      resetCounter := 0;
    }

    /** Every region lands on an existing sub-entry. */
    function Locate(vpn2: nat, vpn1: nat): (r: (nat, nat))
      requires vpn1 < 512 && SubEntryGuard(subEntryNum) && subEntryBits == CeilLog2(subEntryNum)
      ensures r.1 < subEntryNum
    {
      SubIndexInRange(subEntryNum, Cat(vpn2, vpn1));
      Region(vpn2, vpn1, subEntryBits)
    }

    method Add(vpn2: nat, vpn1: nat, pfHitCdp: bool, victim: nat)
      requires Valid() && vpn1 < 512 && (|table| < capacity || victim in table)
      modifies this`table, this`resetCounter
      ensures Valid()
      ensures resetCounter == old(resetCounter) + 1
      ensures table == VpnAdd(old(table), subEntryNum, Locate(vpn2, vpn1).0, Locate(vpn2, vpn1).1, pfHitCdp, victim)
    {
      var loc := Locate(vpn2, vpn1);
      AddKeepsOk(table, subEntryNum, loc.0, loc.1, pfHitCdp, victim);
      AddFrame(table, subEntryNum, loc.0, loc.1, pfHitCdp, victim);
      resetCounter := resetCounter + 1;
      table := VpnAdd(table, subEntryNum, loc.0, loc.1, pfHitCdp, victim);
    }

    function Search(vpn2: nat, vpn1: nat): bool
      requires Valid() && vpn1 < 512
      reads this`table
    {
      var loc := Locate(vpn2, vpn1);
      VpnHot(table, loc.0, loc.1)
    }

    method Update(vpn2: nat, vpn1: nat, enableThro: bool, lowConf: bool)
      requires Valid() && vpn1 < 512
      modifies this`table
      ensures Valid()
      ensures table == VpnUpdate(old(table), Locate(vpn2, vpn1).0, Locate(vpn2, vpn1).1, enableThro, lowConf, resetPeriod)
    {
      var loc := Locate(vpn2, vpn1);
      UpdateCases(table, subEntryNum, loc.0, loc.1, enableThro, lowConf, resetPeriod);
      table := VpnUpdate(table, loc.0, loc.1, enableThro, lowConf, resetPeriod);
    }

    /** Once `resetPeriod` accesses have been counted, every valid entry ends
     *  its period and the count restarts. */
    method ResetConfidence(decay: (bool, nat, nat) -> nat, enableThro: bool, lowConf: bool)
      requires Valid()
      modifies this`table, this`resetCounter
      ensures Valid()
      ensures old(resetCounter) < resetPeriod ==> table == old(table) && resetCounter == old(resetCounter)
      ensures old(resetCounter) >= resetPeriod ==>
        table == ResetAll(old(table), decay, enableThro, lowConf, resetPeriod) && resetCounter == 0
    {
      if resetCounter < resetPeriod {
        return;
      }
      var t0 := table;
      var t := t0;
      var pending := t0.Keys;
      while pending != {}
        invariant pending <= t0.Keys && t.Keys == t0.Keys
        invariant forall k :: k in t0 ==>
          t[k] == if k in pending then t0[k] else ResetEntry(t0[k], decay, enableThro, lowConf, resetPeriod)
        decreases |pending|
      {
        var k :| k in pending;
        t := t[k := ResetEntry(t0[k], decay, enableThro, lowConf, resetPeriod)];
        pending := pending - {k};
      }
      assert t == ResetAll(t0, decay, enableThro, lowConf, resetPeriod);
      ResetKeepsOk(t0, subEntryNum, decay, enableThro, lowConf, resetPeriod);
      table := t;
      resetCounter := 0;
    }
  }

  /** `update` at the region of address a. */
  function VpnUpdateAt(t: VpnMap, a: nat, bits: nat, enableThro: bool, lowConf: bool, resetPeriod: nat): VpnMap
  {
    var loc := RegionOf(a, bits);
    VpnUpdate(t, loc.0, loc.1, enableThro, lowConf, resetPeriod)
  }

  /** `addToVpnTable` leaves the address's region recorded, whether or not
   *  a period reset follows. */
  lemma AddRecords(t: VpnMap, n: nat, tag: nat, idx: nat, pfHitCdp: bool, victim: nat,
                   decay: (bool, nat, nat) -> nat, enableThro: bool, lowConf: bool, resetPeriod: nat)
    requires idx < n && VpnMapOk(t, n)
    ensures VpnExists(VpnAdd(t, n, tag, idx, pfHitCdp, victim), tag, idx)
    ensures VpnExists(ResetAll(VpnAdd(t, n, tag, idx, pfHitCdp, victim), decay, enableThro, lowConf, resetPeriod), tag, idx)
  {
    AddCases(t, n, tag, idx, pfHitCdp, victim);
    AddKeepsOk(t, n, tag, idx, pfHitCdp, victim);
    ResetCases(VpnAdd(t, n, tag, idx, pfHitCdp, victim), n, decay, enableThro, lowConf, resetPeriod, tag, idx);
  }

  // ---------------------------------------------------------------------
  // Recognising pointers

  /** A word is taken for a pointer when bits 63:39 are clear (a canonical
   *  user Sv39 address), vpn0 is not zero, the bits alignHi:0 are clear and
   *  the region is hot. */
  predicate IsPointer(t: VpnMap, bits: nat, w: nat, alignHi: nat) {
    var loc := RegionOf(w, bits);
    HighBits(w) == 0 && Vpn0(w) != 0 && LowMask(w, alignHi + 1) == 0 && VpnHot(t, loc.0, loc.1)
  }

  /** The words of ws that are pointers, in their order. */
  function Pointers(t: VpnMap, bits: nat, ws: seq<nat>, alignHi: nat): (r: seq<nat>)
    ensures |r| <= |ws|
  {
    if ws == [] then []
    else
      var last := ws[|ws| - 1];
      Pointers(t, bits, ws[..|ws| - 1], alignHi) + (if IsPointer(t, bits, last, alignHi) then [last] else [])
  }

  lemma {:induction false} PointersMembers(t: VpnMap, bits: nat, ws: seq<nat>, alignHi: nat, x: nat)
    ensures x in Pointers(t, bits, ws, alignHi) <==> x in ws && IsPointer(t, bits, x, alignHi)
  {
    if ws != [] {
      PointersMembers(t, bits, ws[..|ws| - 1], alignHi, x);
      assert ws == ws[..|ws| - 1] + [ws[|ws| - 1]];
    }
  }

  /** Scanning a concatenation is concatenating the scans: the pointers come
   *  out in the order of the words. */
  lemma {:induction false} PointersConcat(t: VpnMap, bits: nat, a: seq<nat>, b: seq<nat>, alignHi: nat)
    ensures Pointers(t, bits, a + b, alignHi) == Pointers(t, bits, a, alignHi) + Pointers(t, bits, b, alignHi)
  {
    if b == [] {
      assert a + b == a;
    } else {
      var init := b[..|b| - 1];
      assert (a + b)[..|a + b| - 1] == a + init;
      PointersConcat(t, bits, a, init, alignHi);
    }
  }

  /** Clear low bits up to hi leave clear low bits up to any lower lo. */
  lemma AlignNested(w: nat, lo: nat, hi: nat)
    requires lo <= hi && LowMask(w, hi + 1) == 0
    ensures LowMask(w, lo + 1) == 0
  {
    LowMaskIsMod(w, hi + 1);
    LowMaskIsMod(w, lo + 1);
    Pow2Add(lo + 1, hi - lo);
    var m := w / Pow2(hi + 1);
    DivMod(w, Pow2(hi + 1));
    MulAssoc(m, Pow2(hi - lo), Pow2(lo + 1));
    DivModUnique(w, Pow2(lo + 1), m * Pow2(hi - lo), 0);
  }

  /** The alignment demanded of a word in `notifyWithData`, as written:
   *  below 5% accuracy bits 10:0 must be clear, otherwise bits 1:0; the
   *  test for 1% after the test for 5% is never reached. */
  function AlignHiAsWritten(trueAccuracy: real): (hi: int)
    ensures hi >= 0
    ensures hi == if trueAccuracy < 0.05 then 10 else 1
  {
    if trueAccuracy < 0.05 then 10 else if trueAccuracy < 0.01 then 11 else 1
  }

  /** No accuracy selects page alignment, not even 0.5%. */
  lemma PageAlignmentUnreachable(trueAccuracy: real)
    ensures AlignHiAsWritten(trueAccuracy) != 11
    ensures AlignHiAsWritten(0.005) == 10
  {
  }

  /** The alignment test with the stricter threshold first: below 1% the
   *  pointer must be page aligned (bits 11:0 clear). */
  function AlignHi(trueAccuracy: real): nat {
    if trueAccuracy < 0.01 then 11 else if trueAccuracy < 0.05 then 10 else 1
  }

  /** Lower accuracy never relaxes the alignment, so a word kept at a lower
   *  accuracy is kept at any higher one. */
  lemma AlignHiMonotone(t: VpnMap, bits: nat, w: nat, acc1: real, acc2: real)
    requires acc1 <= acc2
    ensures AlignHi(acc1) >= AlignHi(acc2)
    ensures acc1 < 0.01 ==> AlignHi(acc1) == 11
    ensures IsPointer(t, bits, w, AlignHi(acc1)) ==> IsPointer(t, bits, w, AlignHi(acc2))
  {
    if IsPointer(t, bits, w, AlignHi(acc1)) {
      AlignNested(w, AlignHi(acc2), AlignHi(acc1));
    }
  }

  // ---------------------------------------------------------------------
  // Requests

  /** `PrefetchSourceType`: CDP's own tag and every other prefetcher. */
  datatype PfSource = CdpSource | OtherSource(id: nat)

  /** `AddrPriority` with its depth. */
  datatype CdpRequest = CdpRequest(addr: nat, prio: int, src: PfSource, depth: int)

  const DepthThreshold: int := 1
  const Degree: nat := 3
  const LruFilterSize: nat := 128
  const PointerWords: nat := 8

  function Addrs(rs: seq<CdpRequest>): (r: seq<nat>)
    ensures |r| == |rs| && forall i :: 0 <= i < |rs| ==> r[i] == rs[i].addr
  {
    seq(|rs|, i requires 0 <= i < |rs| => rs[i].addr)
  }

  lemma AddrsConcat(a: seq<CdpRequest>, b: seq<CdpRequest>)
    ensures Addrs(a + b) == Addrs(a) + Addrs(b)
  {
  }

  /** `blockAddress`: clearing the offset within a block. */
  function BlockAddress(a: nat, blkSize: nat): nat
    requires blkSize > 0
  {
    a - a % blkSize
  }

  /** The depth given to the requests sent from a block of depth pfDepth. */
  function NextDepth(pfDepth: int): int {
    if pfDepth == 0 then 4 else pfDepth + 1
  }

  /** The bus-pressure check of `notifyWithData`: with more than 100 L3
   *  misses recorded, a CDP share above 0.4 at an MPKI below 100 turns
   *  throttling on exactly when accuracy is below 0.2, and stops the scan
   *  when MPKI is below 2; a lower share turns throttling off. The result is
   *  the new throttling flag and whether the scan goes on. */
  function ThrottleCheck(enableThro: bool, l3MissInfo: (int, int), mpki: real, trueAccuracy: real): (bool, bool)
  {
    if l3MissInfo.1 > 100 then
      if (l3MissInfo.0 as real) / (l3MissInfo.1 as real) > 0.4 && mpki < 100.0 then
        (trueAccuracy < 0.2, mpki >= 2.0)
      else (false, true)
    else (enableThro, true)
  }

  /** Block i of pointer p: the pointer's own block for i = 0, then the
   *  blocks 0x40 bytes apart after it. */
  function PointerBlock(p: nat, blkSize: nat, i: nat): nat
    requires blkSize > 0
  {
    BlockAddress(p, blkSize) + i * 0x40
  }

  /** The pointer's own block is requested at the base priority, the blocks
   *  after it at priority 1. */
  function PointerPrio(prio: int, i: nat): int {
    if i == 0 then prio else 1
  }

  /** How many blocks are fetched for one pointer: `degree` of them while the
   *  prefetcher is accurate enough, otherwise its own block only. */
  function PointerCount(extras: bool): nat {
    if extras then Degree else 1
  }

  /** One address sent through the filter of state `st` (the filter and the
   *  requests so far): dropped when it is in the filter, else inserted and
   *  appended as a request. */
  function SendStep(st: (seq<nat>, seq<CdpRequest>), a: nat, prio: int, src: PfSource, depth: int)
    : (seq<nat>, seq<CdpRequest>)
  {
    if a in st.0 then st
    else (LruInsert(st.0, a, LruFilterSize), st.1 + [CdpRequest(a, prio, src, depth)])
  }

  /** Requests already queued before do not take part in a send. */
  lemma SendStepAppend(f: seq<nat>, before: seq<CdpRequest>, sent: seq<CdpRequest>, a: nat, prio: int, src: PfSource,
                       depth: int)
    ensures var r := SendStep((f, sent), a, prio, src, depth);
      SendStep((f, before + sent), a, prio, src, depth) == (r.0, before + r.1)
  {
    assert before + sent + [CdpRequest(a, prio, src, depth)] == before + (sent + [CdpRequest(a, prio, src, depth)]);
  }

  /** The first `count` blocks of pointer p sent in order through the LRU
   *  filter f0: the filter afterwards and the requests appended. */
  function PointerSends(f0: seq<nat>, p: nat, blkSize: nat, prio: int, depth: int, count: nat): (seq<nat>, seq<CdpRequest>)
    requires blkSize > 0
  {
    if count == 0 then (f0, [])
    else
      SendStep(PointerSends(f0, p, blkSize, prio, depth, count - 1), PointerBlock(p, blkSize, count - 1),
               PointerPrio(prio, count - 1), CdpSource, depth)
  }

  /** The VPN table after the updates for the first `count` blocks of
   *  pointer p: the region of the pointer itself, then those of the blocks
   *  after it. */
  function PointerUpdates(t: VpnMap, p: nat, blkSize: nat, count: nat, bits: nat, enableThro: bool, lowConf: bool,
                          resetPeriod: nat): VpnMap
    requires blkSize > 0
  {
    if count == 0 then t
    else
      VpnUpdateAt(PointerUpdates(t, p, blkSize, count - 1, bits, enableThro, lowConf, resetPeriod),
                  if count == 1 then p else PointerBlock(p, blkSize, count - 1), bits, enableThro, lowConf, resetPeriod)
  }

  /** The step from the first k blocks of a pointer to the first k + 1. */
  lemma PointerUpdatesNext(t: VpnMap, p: nat, blkSize: nat, k: nat, bits: nat, enableThro: bool, lowConf: bool,
                           resetPeriod: nat)
    requires blkSize > 0 && k >= 1
    ensures PointerUpdates(t, p, blkSize, k + 1, bits, enableThro, lowConf, resetPeriod) ==
      VpnUpdateAt(PointerUpdates(t, p, blkSize, k, bits, enableThro, lowConf, resetPeriod), PointerBlock(p, blkSize, k),
                  bits, enableThro, lowConf, resetPeriod)
  {
  }

  lemma PointerSendsNext(f0: seq<nat>, p: nat, blkSize: nat, prio: int, depth: int, k: nat)
    requires blkSize > 0 && k >= 1
    ensures PointerSends(f0, p, blkSize, prio, depth, k + 1) ==
      SendStep(PointerSends(f0, p, blkSize, prio, depth, k), PointerBlock(p, blkSize, k), 1, CdpSource, depth)
  {
  }

  /** The updates of one pointer only decay the table. */
  lemma {:induction false} PointerUpdatesDecay(t: VpnMap, n: nat, p: nat, blkSize: nat, count: nat, bits: nat,
                                               enableThro: bool, lowConf: bool, resetPeriod: nat)
    requires blkSize > 0 && VpnMapOk(t, n)
    ensures var r := PointerUpdates(t, p, blkSize, count, bits, enableThro, lowConf, resetPeriod);
      VpnMapOk(r, n) && OnlyDecayed(t, r) && |r| == |t|
  {
    if count > 0 {
      var mid := PointerUpdates(t, p, blkSize, count - 1, bits, enableThro, lowConf, resetPeriod);
      PointerUpdatesDecay(t, n, p, blkSize, count - 1, bits, enableThro, lowConf, resetPeriod);
      var loc := RegionOf(if count == 1 then p else PointerBlock(p, blkSize, count - 1), bits);
      UpdateCases(mid, n, loc.0, loc.1, enableThro, lowConf, resetPeriod);
      OnlyDecayedTrans(t, mid, PointerUpdates(t, p, blkSize, count, bits, enableThro, lowConf, resetPeriod));
    }
  }

  /** A request of pointer p: a CDP request of the given depth for one of
   *  the pointer's first `count` blocks, at that block's priority. */
  predicate PointerRequest(r: CdpRequest, p: nat, blkSize: nat, prio: int, depth: int, count: nat)
    requires blkSize > 0
  {
    r.src == CdpSource && r.depth == depth &&
    exists i :: 0 <= i < count && r.addr == PointerBlock(p, blkSize, i) && r.prio == PointerPrio(prio, i)
  }

  /** The filter after sending is the old one with every sent address
   *  inserted in order, and it stays within its size. */
  lemma {:induction false} PointerSendsFilter(f0: seq<nat>, p: nat, blkSize: nat, prio: int, depth: int, count: nat)
    requires blkSize > 0
    ensures var (f, sent) := PointerSends(f0, p, blkSize, prio, depth, count);
      && f == LruInsertAll(f0, Addrs(sent), LruFilterSize)
      && (|f0| <= LruFilterSize ==> |f| <= LruFilterSize)
  {
    if count > 0 {
      var a := PointerBlock(p, blkSize, count - 1);
      PointerSendsFilter(f0, p, blkSize, prio, depth, count - 1);
      var (f, sent) := PointerSends(f0, p, blkSize, prio, depth, count - 1);
      if a !in f {
        AddrsConcat(sent, [CdpRequest(a, PointerPrio(prio, count - 1), CdpSource, depth)]);
        LruInsertAllSnoc(f0, Addrs(sent), a, LruFilterSize);
      }
    }
  }

  /** Every request sent is one of the pointer's, and there are no more
   *  requests than blocks. */
  lemma {:induction false} PointerSendsRequests(f0: seq<nat>, p: nat, blkSize: nat, prio: int, depth: int, count: nat)
    requires blkSize > 0
    ensures var sent := PointerSends(f0, p, blkSize, prio, depth, count).1;
      && |sent| <= count
      && forall r :: r in sent ==> PointerRequest(r, p, blkSize, prio, depth, count)
  {
    if count > 0 {
      PointerSendsRequests(f0, p, blkSize, prio, depth, count - 1);
      var sent := PointerSends(f0, p, blkSize, prio, depth, count - 1).1;
      forall r | r in sent
        ensures PointerRequest(r, p, blkSize, prio, depth, count)
      {
        assert PointerRequest(r, p, blkSize, prio, depth, count - 1);
      }
    }
  }

  /** Every block of the pointer that was not in the filter at the start is
   *  requested. */
  lemma {:induction false} PointerSendsComplete(f0: seq<nat>, p: nat, blkSize: nat, prio: int, depth: int, count: nat,
                                                i: nat)
    requires blkSize > 0 && i < count && PointerBlock(p, blkSize, i) !in f0
    ensures PointerBlock(p, blkSize, i) in Addrs(PointerSends(f0, p, blkSize, prio, depth, count).1)
  {
    var a := PointerBlock(p, blkSize, count - 1);
    var (f, sent) := PointerSends(f0, p, blkSize, prio, depth, count - 1);
    var r := CdpRequest(a, PointerPrio(prio, count - 1), CdpSource, depth);
    if i < count - 1 {
      PointerSendsComplete(f0, p, blkSize, prio, depth, count - 1, i);
      if a !in f {
        AddrsConcat(sent, [r]);
      }
    } else if a in f {
      PointerSendsFilter(f0, p, blkSize, prio, depth, count - 1);
      LruInsertAllKeys(f0, Addrs(sent), LruFilterSize, a);
    } else {
      assert PointerSends(f0, p, blkSize, prio, depth, count).1 == sent + [r];
      assert Addrs(sent + [r])[|sent|] == a;
    }
  }

  /** `sendPFWithFilter`: an address already in the LRU filter is dropped;
   *  otherwise it enters the filter and exactly one request is appended. */
  method SendPfWithFilter(filter: seq<nat>, addresses: seq<CdpRequest>, addr: nat, prio: int, src: PfSource,
                          depth: int)
    returns (sent: bool, filter': seq<nat>, out: seq<CdpRequest>)
    ensures sent <==> addr !in filter
    ensures (filter', out) == SendStep((filter, addresses), addr, prio, src, depth)
  {
    if addr in filter {
      return false, filter, addresses;
    }
    filter' := LruInsert(filter, addr, LruFilterSize);
    return true, filter', addresses + [CdpRequest(addr, prio, src, depth)];
  }

  // ---------------------------------------------------------------------
  // Sending for a run of pointers

  /** What the sends of one scan share: the VPN table's index bits and reset
   *  period, the block size, the throttling and confidence inputs of
   *  `update`, the priority and depth of a pointer's own block, and whether
   *  the blocks after it are sent too. */
  datatype SendConfig = SendConfig(bits: nat, resetPeriod: nat, blkSize: nat, enableThro: bool, lowConf: bool,
                                   prio: int, depth: int, extras: bool)

  /** The VPN table, the LRU filter and the requests sent so far. */
  datatype SendState = SendState(table: VpnMap, filter: seq<nat>, sent: seq<CdpRequest>)

  /** The blocks of pointer p sent and their regions updated. */
  function PointerStep(st: SendState, p: nat, c: SendConfig): SendState
    requires c.blkSize > 0
  {
    var n := PointerCount(c.extras);
    var r := PointerSends(st.filter, p, c.blkSize, c.prio, c.depth, n);
    SendState(PointerUpdates(st.table, p, c.blkSize, n, c.bits, c.enableThro, c.lowConf, c.resetPeriod), r.0,
              st.sent + r.1)
  }

  /** The LRU filter of `st` is f0 with every address sent so far inserted. */
  predicate FilterTracks(st: SendState, f0: seq<nat>) {
    st.filter == LruInsertAll(f0, Addrs(st.sent), LruFilterSize)
  }

  /** After one pointer the filter still tracks the sends and stays within
   *  its size. */
  lemma PointerStepFilter(st: SendState, p: nat, c: SendConfig, f0: seq<nat>)
    requires c.blkSize > 0 && FilterTracks(st, f0) && |st.filter| <= LruFilterSize
    ensures var r := PointerStep(st, p, c); FilterTracks(r, f0) && |r.filter| <= LruFilterSize
  {
    var cnt := PointerCount(c.extras);
    var s := PointerSends(st.filter, p, c.blkSize, c.prio, c.depth, cnt);
    PointerSendsFilter(st.filter, p, c.blkSize, c.prio, c.depth, cnt);
    LruInsertAllAppend(f0, Addrs(st.sent), Addrs(s.1), LruFilterSize);
    AddrsConcat(st.sent, s.1);
  }

  /** The updates of one pointer only decay the table. */
  lemma PointerStepTable(st: SendState, p: nat, c: SendConfig, n: nat)
    requires c.blkSize > 0 && VpnMapOk(st.table, n)
    ensures var r := PointerStep(st, p, c);
      VpnMapOk(r.table, n) && OnlyDecayed(st.table, r.table) && |r.table| == |st.table|
  {
    PointerUpdatesDecay(st.table, n, p, c.blkSize, PointerCount(c.extras), c.bits, c.enableThro, c.lowConf,
                        c.resetPeriod);
  }

  /** Earlier requests stay, and every new one is one of the pointer's. */
  lemma PointerStepRequests(st: SendState, p: nat, c: SendConfig)
    requires c.blkSize > 0
    ensures var r := PointerStep(st, p, c);
      && |r.sent| >= |st.sent| && r.sent[..|st.sent|] == st.sent
      && forall i :: |st.sent| <= i < |r.sent| ==>
           PointerRequest(r.sent[i], p, c.blkSize, c.prio, c.depth, PointerCount(c.extras))
  {
    var cnt := PointerCount(c.extras);
    var s := PointerSends(st.filter, p, c.blkSize, c.prio, c.depth, cnt);
    PointerSendsRequests(st.filter, p, c.blkSize, c.prio, c.depth, cnt);
    var r := PointerStep(st, p, c);
    assert r.sent == st.sent + s.1;
    forall i | |st.sent| <= i < |r.sent|
      ensures PointerRequest(r.sent[i], p, c.blkSize, c.prio, c.depth, cnt)
    {
      assert r.sent[i] == s.1[i - |st.sent|];
    }
  }

  /** Every block of the pointer that was not in the filter f0 the sends
   *  started from has been requested after the pointer, and whatever was
   *  requested before still is. */
  lemma PointerStepComplete(st: SendState, p: nat, c: SendConfig, f0: seq<nat>, i: nat)
    requires c.blkSize > 0 && FilterTracks(st, f0)
    ensures var r := PointerStep(st, p, c);
      && (forall x :: x in Addrs(st.sent) ==> x in Addrs(r.sent))
      && (i < PointerCount(c.extras) && PointerBlock(p, c.blkSize, i) !in f0 ==>
            PointerBlock(p, c.blkSize, i) in Addrs(r.sent))
  {
    var cnt := PointerCount(c.extras);
    var s := PointerSends(st.filter, p, c.blkSize, c.prio, c.depth, cnt);
    var a := PointerBlock(p, c.blkSize, i);
    AddrsConcat(st.sent, s.1);
    if i < cnt && a !in f0 {
      if a in st.filter {
        LruInsertAllKeys(f0, Addrs(st.sent), LruFilterSize, a);
      } else {
        PointerSendsComplete(st.filter, p, c.blkSize, c.prio, c.depth, cnt, i);
      }
    }
  }

  /** The pointers of `ptrs` handled in order (the sends of
   *  `calculatePrefetch`). */
  function SendAll(st: SendState, ptrs: seq<nat>, c: SendConfig): SendState
    requires c.blkSize > 0
  {
    if ptrs == [] then st else PointerStep(SendAll(st, ptrs[..|ptrs| - 1], c), ptrs[|ptrs| - 1], c)
  }

  lemma SendAllNext(st: SendState, ptrs: seq<nat>, c: SendConfig, i: nat)
    requires c.blkSize > 0 && i < |ptrs|
    ensures SendAll(st, ptrs[..i + 1], c) == PointerStep(SendAll(st, ptrs[..i], c), ptrs[i], c)
  {
    assert ptrs[..i + 1][..i] == ptrs[..i];
  }

  /** The words of a block scanned in order, every word that is a pointer
   *  in the table as it stands when the word is reached handled (the sends
   *  of `notifyWithData`). */
  function ScanSends(st: SendState, words: seq<nat>, c: SendConfig, alignHi: nat): SendState
    requires c.blkSize > 0
  {
    if words == [] then st
    else
      var prev := ScanSends(st, words[..|words| - 1], c, alignHi);
      var w := words[|words| - 1];
      if IsPointer(prev.table, c.bits, w, alignHi) then PointerStep(prev, w, c) else prev
  }

  lemma ScanSendsNext(st: SendState, words: seq<nat>, c: SendConfig, alignHi: nat, i: nat)
    requires c.blkSize > 0 && i < |words|
    ensures var prev := ScanSends(st, words[..i], c, alignHi);
      ScanSends(st, words[..i + 1], c, alignHi) ==
        if IsPointer(prev.table, c.bits, words[i], alignHi) then PointerStep(prev, words[i], c) else prev
  {
    assert words[..i + 1][..i] == words[..i];
  }

  /** Over a run of pointers the filter tracks the sends and stays within
   *  its size. */
  lemma {:induction false} SendAllFilter(st: SendState, ptrs: seq<nat>, c: SendConfig, f0: seq<nat>)
    requires c.blkSize > 0 && FilterTracks(st, f0) && |st.filter| <= LruFilterSize
    ensures var r := SendAll(st, ptrs, c); FilterTracks(r, f0) && |r.filter| <= LruFilterSize
  {
    if ptrs != [] {
      SendAllFilter(st, ptrs[..|ptrs| - 1], c, f0);
      PointerStepFilter(SendAll(st, ptrs[..|ptrs| - 1], c), ptrs[|ptrs| - 1], c, f0);
    }
  }

  /** Over a run of pointers the table only decays. */
  lemma {:induction false} SendAllTable(st: SendState, ptrs: seq<nat>, c: SendConfig, n: nat)
    requires c.blkSize > 0 && VpnMapOk(st.table, n)
    ensures var r := SendAll(st, ptrs, c);
      VpnMapOk(r.table, n) && OnlyDecayed(st.table, r.table) && |r.table| == |st.table|
  {
    if ptrs != [] {
      var mid := SendAll(st, ptrs[..|ptrs| - 1], c);
      SendAllTable(st, ptrs[..|ptrs| - 1], c, n);
      PointerStepTable(mid, ptrs[|ptrs| - 1], c, n);
      OnlyDecayedTrans(st.table, mid.table, SendAll(st, ptrs, c).table);
    }
  }

  /** Over a run of pointers the requests before stay, and every new
   *  request is a request of one of the pointers. */
  lemma {:induction false} SendAllRequests(st: SendState, ptrs: seq<nat>, c: SendConfig)
    requires c.blkSize > 0
    ensures var r := SendAll(st, ptrs, c);
      && |r.sent| >= |st.sent| && r.sent[..|st.sent|] == st.sent
      && forall i :: |st.sent| <= i < |r.sent| ==>
           exists p :: p in ptrs && PointerRequest(r.sent[i], p, c.blkSize, c.prio, c.depth, PointerCount(c.extras))
  {
    if ptrs != [] {
      var init := ptrs[..|ptrs| - 1];
      var p := ptrs[|ptrs| - 1];
      var mid := SendAll(st, init, c);
      SendAllRequests(st, init, c);
      PointerStepRequests(mid, p, c);
      var r := SendAll(st, ptrs, c);
      forall i | |st.sent| <= i < |r.sent|
        ensures exists q :: q in ptrs && PointerRequest(r.sent[i], q, c.blkSize, c.prio, c.depth, PointerCount(c.extras))
      {
        if i < |mid.sent| {
          assert r.sent[i] == mid.sent[i];
          var q :| q in init && PointerRequest(mid.sent[i], q, c.blkSize, c.prio, c.depth, PointerCount(c.extras));
          assert q in ptrs;
        } else {
          assert p in ptrs;
        }
      }
    }
  }

  /** Every block of every pointer of `ptrs` that was not in the filter f0
   *  has been requested. */
  lemma {:induction false} SendAllComplete(st: SendState, ptrs: seq<nat>, c: SendConfig, f0: seq<nat>, j: nat, i: nat)
    requires c.blkSize > 0 && FilterTracks(st, f0) && |st.filter| <= LruFilterSize
    requires j < |ptrs| && i < PointerCount(c.extras) && PointerBlock(ptrs[j], c.blkSize, i) !in f0
    ensures PointerBlock(ptrs[j], c.blkSize, i) in Addrs(SendAll(st, ptrs, c).sent)
  {
    var init := ptrs[..|ptrs| - 1];
    var mid := SendAll(st, init, c);
    SendAllFilter(st, init, c, f0);
    PointerStepComplete(mid, ptrs[|ptrs| - 1], c, f0, i);
    if j < |init| {
      SendAllComplete(st, init, c, f0, j, i);
    }
  }

  /** Over a scan the filter tracks the sends and stays within its size. */
  lemma {:induction false} ScanSendsFilter(st: SendState, words: seq<nat>, c: SendConfig, alignHi: nat,
                                           f0: seq<nat>)
    requires c.blkSize > 0 && FilterTracks(st, f0) && |st.filter| <= LruFilterSize
    ensures var r := ScanSends(st, words, c, alignHi); FilterTracks(r, f0) && |r.filter| <= LruFilterSize
  {
    if words != [] {
      var mid := ScanSends(st, words[..|words| - 1], c, alignHi);
      ScanSendsFilter(st, words[..|words| - 1], c, alignHi, f0);
      PointerStepFilter(mid, words[|words| - 1], c, f0);
    }
  }

  /** Over a scan the table only decays. */
  lemma {:induction false} ScanSendsTable(st: SendState, words: seq<nat>, c: SendConfig, alignHi: nat, n: nat)
    requires c.blkSize > 0 && VpnMapOk(st.table, n)
    ensures var r := ScanSends(st, words, c, alignHi);
      VpnMapOk(r.table, n) && OnlyDecayed(st.table, r.table) && |r.table| == |st.table|
  {
    if words != [] {
      var mid := ScanSends(st, words[..|words| - 1], c, alignHi);
      ScanSendsTable(st, words[..|words| - 1], c, alignHi, n);
      PointerStepTable(mid, words[|words| - 1], c, n);
      var r := ScanSends(st, words, c, alignHi);
      if r != mid {
        OnlyDecayedTrans(st.table, mid.table, r.table);
      }
    }
  }

  /** Over a scan the requests before stay, and every new request is one of
   *  a scanned word's. */
  lemma {:induction false} ScanSendsRequests(st: SendState, words: seq<nat>, c: SendConfig, alignHi: nat)
    requires c.blkSize > 0
    ensures var r := ScanSends(st, words, c, alignHi);
      && |r.sent| >= |st.sent| && r.sent[..|st.sent|] == st.sent
      && forall i :: |st.sent| <= i < |r.sent| ==>
           exists w :: w in words && PointerRequest(r.sent[i], w, c.blkSize, c.prio, c.depth, PointerCount(c.extras))
  {
    if words != [] {
      var init := words[..|words| - 1];
      var w := words[|words| - 1];
      var mid := ScanSends(st, init, c, alignHi);
      ScanSendsRequests(st, init, c, alignHi);
      PointerStepRequests(mid, w, c);
      var r := ScanSends(st, words, c, alignHi);
      forall i | |st.sent| <= i < |r.sent|
        ensures exists q :: q in words && PointerRequest(r.sent[i], q, c.blkSize, c.prio, c.depth, PointerCount(c.extras))
      {
        if i < |mid.sent| {
          assert r.sent[i] == mid.sent[i];
          var q :| q in init && PointerRequest(mid.sent[i], q, c.blkSize, c.prio, c.depth, PointerCount(c.extras));
          assert q in words;
        } else {
          assert w in words;
        }
      }
    }
  }

  /** Every block of every word found to be a pointer when the scan reached
   *  it, and not in the filter f0, has been requested. */
  lemma {:induction false} ScanSendsComplete(st: SendState, words: seq<nat>, c: SendConfig, alignHi: nat,
                                             f0: seq<nat>, j: nat, i: nat)
    requires c.blkSize > 0 && FilterTracks(st, f0) && |st.filter| <= LruFilterSize
    requires j < |words| && IsPointer(ScanSends(st, words[..j], c, alignHi).table, c.bits, words[j], alignHi)
    requires i < PointerCount(c.extras) && PointerBlock(words[j], c.blkSize, i) !in f0
    ensures PointerBlock(words[j], c.blkSize, i) in Addrs(ScanSends(st, words, c, alignHi).sent)
  {
    var init := words[..|words| - 1];
    var w := words[|words| - 1];
    var mid := ScanSends(st, init, c, alignHi);
    ScanSendsFilter(st, init, c, alignHi, f0);
    if IsPointer(mid.table, c.bits, w, alignHi) {
      PointerStepComplete(mid, w, c, f0, i);
    }
    if j < |init| {
      assert init[..j] == words[..j];
      ScanSendsComplete(st, init, c, alignHi, f0, j, i);
    } else {
      assert init == words[..j];
    }
  }

  // ---------------------------------------------------------------------
  // The loops

  /** One pointer p: update its region and request its block at the base
   *  priority; then, for each later block while `extras` holds, update its
   *  region and request it at priority 1 -- every request through the LRU
   *  filter. */
  method SendPointer(t: VpnMap, filter: seq<nat>, addresses: seq<CdpRequest>, c: SendConfig, p: nat)
    returns (t': VpnMap, filter': seq<nat>, out: seq<CdpRequest>)
    requires c.blkSize > 0
    ensures var (f, sent) := PointerSends(filter, p, c.blkSize, c.prio, c.depth, PointerCount(c.extras));
      && t' == PointerUpdates(t, p, c.blkSize, PointerCount(c.extras), c.bits, c.enableThro, c.lowConf, c.resetPeriod)
      && filter' == f && out == addresses + sent
  {
    var b := BlockAddress(p, c.blkSize);
    t' := VpnUpdateAt(t, p, c.bits, c.enableThro, c.lowConf, c.resetPeriod);
    SendStepAppend(filter, addresses, [], b, c.prio, CdpSource, c.depth);
    assert addresses + [] == addresses;
    var ok;
    ok, filter', out := SendPfWithFilter(filter, addresses, b, c.prio, CdpSource, c.depth);
    ghost var k := 1;
    ghost var sent := PointerSends(filter, p, c.blkSize, c.prio, c.depth, 1).1;
    var i := 1;
    while i < Degree
      invariant 1 <= i <= Degree && k == (if c.extras then i else 1)
      invariant (filter', sent) == PointerSends(filter, p, c.blkSize, c.prio, c.depth, k)
      invariant out == addresses + sent
      invariant t' == PointerUpdates(t, p, c.blkSize, k, c.bits, c.enableThro, c.lowConf, c.resetPeriod)
    {
      if c.extras {
        var next := PointerBlock(p, c.blkSize, i);
        PointerUpdatesNext(t, p, c.blkSize, k, c.bits, c.enableThro, c.lowConf, c.resetPeriod);
        PointerSendsNext(filter, p, c.blkSize, c.prio, c.depth, k);
        SendStepAppend(filter', addresses, sent, next, 1, CdpSource, c.depth);
        t' := VpnUpdateAt(t', next, c.bits, c.enableThro, c.lowConf, c.resetPeriod);
        ok, filter', out := SendPfWithFilter(filter', out, next, 1, CdpSource, c.depth);
        sent := PointerSends(filter, p, c.blkSize, c.prio, c.depth, k + 1).1;
        k := k + 1;
      }
      i := i + 1;
    }
  }

  lemma PointersNext(t: VpnMap, bits: nat, ws: seq<nat>, alignHi: nat, i: nat)
    requires i < |ws|
    ensures Pointers(t, bits, ws[..i + 1], alignHi) ==
      Pointers(t, bits, ws[..i], alignHi) + if IsPointer(t, bits, ws[i], alignHi) then [ws[i]] else []
  {
    assert ws[..i + 1][..i] == ws[..i];
  }

  /** `scanPointer`: the first eight words that are pointers with bits 1:0
   *  clear, in order. */
  method ScanPointer(t: VpnMap, bits: nat, words: seq<nat>) returns (ans: seq<nat>)
    requires |words| >= PointerWords
    ensures ans == Pointers(t, bits, words[..PointerWords], 1)
  {
    ans := [];
    var i := 0;
    while i < PointerWords
      invariant 0 <= i <= PointerWords
      invariant ans == Pointers(t, bits, words[..i], 1)
    {
      PointersNext(t, bits, words, 1, i);
      if IsPointer(t, bits, words[i], 1) {
        ans := ans + [words[i]];
      }
      i := i + 1;
    }
    assert words[..PointerWords][..PointerWords] == words[..PointerWords];
  }

  /** The sends of `calculatePrefetch`: every pointer found, in order. */
  method SendPointers(t: VpnMap, filter: seq<nat>, addresses: seq<CdpRequest>, c: SendConfig, ptrs: seq<nat>)
    returns (t': VpnMap, filter': seq<nat>, out: seq<CdpRequest>)
    requires c.blkSize > 0
    ensures var r := SendAll(SendState(t, filter, []), ptrs, c);
      t' == r.table && filter' == r.filter && out == addresses + r.sent
  {
    ghost var st0 := SendState(t, filter, []);
    t', filter', out := t, filter, addresses;
    ghost var sent: seq<CdpRequest> := [];
    var i := 0;
    while i < |ptrs|
      invariant 0 <= i <= |ptrs|
      invariant SendState(t', filter', sent) == SendAll(st0, ptrs[..i], c)
      invariant out == addresses + sent
    {
      SendAllNext(st0, ptrs, c, i);
      ghost var step := PointerSends(filter', ptrs[i], c.blkSize, c.prio, c.depth, PointerCount(c.extras)).1;
      t', filter', out := SendPointer(t', filter', out, c, ptrs[i]);
      AppendAssoc(addresses, sent, step);
      sent := sent + step;
      i := i + 1;
    }
    assert ptrs[..|ptrs|] == ptrs;
  }

  /** The sends of `notifyWithData`: nothing when the block's own depth has
   *  reached `depth_threshold` (the scan stops at the first pointer, before
   *  any update or request), else every word found to be a pointer. */
  function ScanOutcome(st: SendState, words: seq<nat>, c: SendConfig, alignHi: nat, pfDepth: int): SendState
    requires c.blkSize > 0
  {
    if pfDepth >= DepthThreshold then st else ScanSends(st, words, c, alignHi)
  }

  /** The scan loop of `notifyWithData` over the words of a block. */
  method ScanAndSend(t: VpnMap, filter: seq<nat>, addresses: seq<CdpRequest>, c: SendConfig, alignHi: nat,
                     words: seq<nat>, pfDepth: int)
    returns (t': VpnMap, filter': seq<nat>, out: seq<CdpRequest>)
    requires c.blkSize > 0
    ensures var r := ScanOutcome(SendState(t, filter, []), words, c, alignHi, pfDepth);
      t' == r.table && filter' == r.filter && out == addresses + r.sent
  {
    ghost var st0 := SendState(t, filter, []);
    t', filter', out := t, filter, addresses;
    ghost var sent: seq<CdpRequest> := [];
    var i := 0;
    while i < |words|
      invariant 0 <= i <= |words|
      invariant SendState(t', filter', sent) == ScanSends(st0, words[..i], c, alignHi)
      invariant out == addresses + sent
      invariant pfDepth >= DepthThreshold ==> t' == t && filter' == filter && sent == []
    {
      ScanSendsNext(st0, words, c, alignHi, i);
      if IsPointer(t', c.bits, words[i], alignHi) {
        if pfDepth >= DepthThreshold {
          return;
        }
        ghost var step := PointerSends(filter', words[i], c.blkSize, c.prio, c.depth, PointerCount(c.extras)).1;
        t', filter', out := SendPointer(t', filter', out, c, words[i]);
        AppendAssoc(addresses, sent, step);
        sent := sent + step;
      }
      i := i + 1;
    }
    assert words[..|words|] == words;
  }

  /** What `notifyWithData` sees of the packet and of the prefetcher's
   *  measurements: whether the packet has data and a virtual address,
   *  whether the cache holds the block, whether the request comes from the
   *  L1 prefetcher and with which source, the block's prefetch depth, the
   *  block's 64-bit words, the L3 miss counts, MPKI, CDP accuracy and the
   *  low-confidence verdict. */
  datatype Notice = Notice(hasData: bool, hasVaddr: bool, blockFound: bool, fromL1Prefetcher: bool,
                           reqSource: PfSource, pfDepth: int, words: seq<nat>, l3MissInfo: (int, int), mpki: real,
                           trueAccuracy: real, lowConf: bool)

  /** The early exits of `notifyWithData` before the bus-pressure check: no
   *  data, no virtual address, no block, a filtered L1 prefetcher source
   *  (only on a refill), or an MPKI below 1. */
  predicate NotifyGate(n: Notice, isL1Use: bool, prfFilter: set<PfSource>) {
    n.hasData && n.hasVaddr && n.blockFound && !(!isL1Use && n.fromL1Prefetcher && n.reqSource in prfFilter) &&
    !(n.mpki < 1.0)
  }

  /** The sends of a pointer found by `notifyWithData`: its own block at
   *  priority 29 + the next depth, the later blocks while CDP accuracy is
   *  above 5%. */
  function NotifyConfig(bits: nat, resetPeriod: nat, blkSize: nat, enableThro: bool, n: Notice): SendConfig {
    SendConfig(bits, resetPeriod, blkSize, enableThro, n.lowConf, 29 + NextDepth(n.pfDepth), NextDepth(n.pfDepth),
               n.trueAccuracy > 0.05)
  }

  /** `notifyWithData`: the new throttling flag and the new table, filter
   *  and requests. */
  function NotifyOutcome(enableThro: bool, prfFilter: set<PfSource>, st: SendState, isL1Use: bool, n: Notice,
                         bits: nat, resetPeriod: nat, blkSize: nat): (bool, SendState)
    requires blkSize > 0
  {
    if !NotifyGate(n, isL1Use, prfFilter) then (enableThro, st)
    else
      var (thro, go) := ThrottleCheck(enableThro, n.l3MissInfo, n.mpki, n.trueAccuracy);
      if !go then (thro, st)
      else (thro, ScanOutcome(st, n.words, NotifyConfig(bits, resetPeriod, blkSize, thro, n), AlignHiAsWritten(n.trueAccuracy),
                              n.pfDepth))
  }

  /** What `notifyWithData` does to the table, the filter and the queue:
   *  only decays, keeps the filter tracking the sends within its size, and
   *  appends only requests of the block's words, at the next depth; a
   *  block already at the depth threshold sends nothing. */
  lemma NotifyOutcomeSpec(enableThro: bool, prfFilter: set<PfSource>, st: SendState, isL1Use: bool, n: Notice,
                          bits: nat, resetPeriod: nat, blkSize: nat, m: nat)
    requires blkSize > 0 && st.sent == [] && VpnMapOk(st.table, m) && |st.filter| <= LruFilterSize
    ensures var (thro, r) := NotifyOutcome(enableThro, prfFilter, st, isL1Use, n, bits, resetPeriod, blkSize);
      var c := NotifyConfig(bits, resetPeriod, blkSize, thro, n);
      && FilterTracks(r, st.filter) && |r.filter| <= LruFilterSize
      && VpnMapOk(r.table, m) && OnlyDecayed(st.table, r.table) && |r.table| == |st.table|
      && (forall i :: 0 <= i < |r.sent| ==>
            exists w :: w in n.words && PointerRequest(r.sent[i], w, blkSize, c.prio, c.depth, PointerCount(c.extras)))
      && (n.pfDepth >= DepthThreshold || !NotifyGate(n, isL1Use, prfFilter) ==> r == st)
      && (!NotifyGate(n, isL1Use, prfFilter) ==> thro == enableThro)
  {
    var (thro, r) := NotifyOutcome(enableThro, prfFilter, st, isL1Use, n, bits, resetPeriod, blkSize);
    var c := NotifyConfig(bits, resetPeriod, blkSize, thro, n);
    assert FilterTracks(st, st.filter);
    if NotifyGate(n, isL1Use, prfFilter) && ThrottleCheck(enableThro, n.l3MissInfo, n.mpki, n.trueAccuracy).1 &&
       n.pfDepth < DepthThreshold {
      ScanSendsFilter(st, n.words, c, AlignHiAsWritten(n.trueAccuracy), st.filter);
      ScanSendsTable(st, n.words, c, AlignHiAsWritten(n.trueAccuracy), m);
      ScanSendsRequests(st, n.words, c, AlignHiAsWritten(n.trueAccuracy));
    }
  }

  /** What `calculatePrefetch` sees of the access: its virtual and
   *  physical address, whether it missed and carries data, the block's
   *  prefetch source and depth, whether it comes from the L1 or the L2
   *  prefetcher, whether it is the first hit on a prefetched block, the
   *  block's first words, CDP accuracy and the low-confidence verdict. */
  datatype Access = Access(addr: nat, paddr: nat, miss: bool, hasData: bool, pfSource: PfSource, pfDepth: int,
                           isL1Prefetch: bool, isL2Prefetch: bool, pfFirstHit: bool, words: seq<nat>,
                           trueAccuracy: real, lowConf: bool)

  /** A demand access hitting a block CDP fetched. */
  predicate PfHitCdp(a: Access) {
    !a.isL1Prefetch && !a.isL2Prefetch && a.pfFirstHit && a.pfSource == CdpSource
  }

  /** A hit from a prefetcher whose source is filtered: nothing is done. */
  predicate CalcFiltered(a: Access, prfFilter: set<PfSource>) {
    !a.miss && a.hasData && (a.isL1Prefetch || a.isL2Prefetch) && a.pfSource in prfFilter
  }

  /** A hit with data on a block of depth 4 or 1 has its words scanned. */
  predicate CalcScans(a: Access, prfFilter: set<PfSource>) {
    !a.miss && a.hasData && !CalcFiltered(a, prfFilter) && (a.pfDepth == 4 || a.pfDepth == 1)
  }

  /** The sends of `calculatePrefetch`: every pointer among the first eight
   *  words, as found in the table before any update, with its own block at
   *  priority 30 and depth 1. */
  function CalcSends(st: SendState, a: Access, prfFilter: set<PfSource>, bits: nat, resetPeriod: nat,
                     blkSize: nat, enableThro: bool): SendState
    requires blkSize > 0 && |a.words| >= PointerWords
  {
    if CalcScans(a, prfFilter) then
      SendAll(st, Pointers(st.table, bits, a.words[..PointerWords], 1),
              SendConfig(bits, resetPeriod, blkSize, enableThro, a.lowConf, 30, 1, a.trueAccuracy > 0.05))
    else st
  }

  /** `addToVpnTable` on the table and its access counter: `add` at the
   *  address's region, then `resetConfidence`. */
  function AddAndReset(t: VpnMap, counter: nat, n: nat, bits: nat, resetPeriod: nat, a: nat, pfHitCdp: bool,
                       victim: nat, decay: (bool, nat, nat) -> nat, enableThro: bool, lowConf: bool): (VpnMap, nat)
    requires SubEntryGuard(n) && bits == CeilLog2(n) && VpnMapOk(t, n)
  {
    SubIndexInRange(n, Cat(Vpn2(a), Vpn1(a)));
    var loc := RegionOf(a, bits);
    var t1 := VpnAdd(t, n, loc.0, loc.1, pfHitCdp, victim);
    if counter + 1 < resetPeriod then (t1, counter + 1) else (ResetAll(t1, decay, enableThro, lowConf, resetPeriod), 0)
  }

  /** After `addToVpnTable` the address's region is recorded, and the table
   *  stays well formed. */
  lemma AddAndResetRecords(t: VpnMap, counter: nat, n: nat, bits: nat, resetPeriod: nat, a: nat, pfHitCdp: bool,
                           victim: nat, decay: (bool, nat, nat) -> nat, enableThro: bool, lowConf: bool)
    requires SubEntryGuard(n) && bits == CeilLog2(n) && VpnMapOk(t, n)
    ensures var (r, _) := AddAndReset(t, counter, n, bits, resetPeriod, a, pfHitCdp, victim, decay, enableThro, lowConf);
      && VpnExists(r, RegionOf(a, bits).0, RegionOf(a, bits).1) && VpnMapOk(r, n)
  {
    SubIndexInRange(n, Cat(Vpn2(a), Vpn1(a)));
    var loc := RegionOf(a, bits);
    AddRecords(t, n, loc.0, loc.1, pfHitCdp, victim, decay, enableThro, lowConf, resetPeriod);
    AddKeepsOk(t, n, loc.0, loc.1, pfHitCdp, victim);
    ResetKeepsOk(VpnAdd(t, n, loc.0, loc.1, pfHitCdp, victim), n, decay, enableThro, lowConf, resetPeriod);
  }

  // ---------------------------------------------------------------------
  // The prefetcher

  class CdpPrefetcher {
    const blkSize: nat
    const vpnTable: VpnTable
    const filterCapacity: nat
    const filterRegionBlks: nat
    const filterGranularityBits: nat
    var enableThro: bool
    /** The sources whose prefetches are filtered out of the scan. */
    var enablePrfFilter: set<PfSource>
    /** The LRU filter, most recently inserted first. */
    var pfLRUFilter: seq<nat>
    var filterTable: FilterMap

    predicate Valid()
      reads this`pfLRUFilter, this`filterTable, vpnTable`table
    {
      blkSize > 0 && vpnTable.Valid() && |pfLRUFilter| <= LruFilterSize &&
      filterCapacity > 0 && filterRegionBlks > 0 &&
      FilterMapOk(filterTable, filterRegionBlks) && |filterTable| <= filterCapacity
    }

    /** The checks of the original constructor, with the region size also
     *  required to be positive and the sub-entry count a power of two. */
    constructor(blkSize: nat, vpnEntries: nat, vpnSubEntries: nat, vpnResetPeriod: nat,
                filterEntries: nat, filterRegionBlks: nat, filterGranularity: nat)
      requires blkSize > 0 && vpnEntries > 0 && SubEntryGuard(vpnSubEntries) && filterEntries > 0
      requires filterGranularity % 2 == 0 && filterGranularity >= 64
      requires RegionGuardAsWritten(filterRegionBlks) && filterRegionBlks > 0
      ensures Valid() && fresh(vpnTable)
      ensures vpnTable.table == map[] && vpnTable.resetCounter == 0
      ensures !enableThro && enablePrfFilter == {} && pfLRUFilter == [] && filterTable == map[]
      ensures filterGranularityBits == CeilLog2(filterGranularity)
    {
      this.blkSize := blkSize;
      vpnTable := new VpnTable(vpnEntries, vpnSubEntries, vpnResetPeriod);
      filterCapacity := filterEntries;
      this.filterRegionBlks := filterRegionBlks;
      filterGranularityBits := CeilLog2(filterGranularity);
      enableThro := false;
      enablePrfFilter := {};
      pfLRUFilter := [];
      filterTable := map[];
    }

    /** `notifyWithData` (`notifyFill` is this with isL1Use false). */
    method NotifyWithData(isL1Use: bool, n: Notice, addresses: seq<CdpRequest>) returns (out: seq<CdpRequest>)
      requires Valid() && |n.words| == blkSize / 8
      modifies this`enableThro, this`pfLRUFilter, vpnTable`table
      ensures Valid() && vpnTable.table.Keys == old(vpnTable.table.Keys)
      ensures var (thro, r) := NotifyOutcome(old(enableThro), enablePrfFilter,
                                             SendState(old(vpnTable.table), old(pfLRUFilter), []), isL1Use, n,
                                             vpnTable.subEntryBits, vpnTable.resetPeriod, blkSize);
        enableThro == thro && vpnTable.table == r.table && pfLRUFilter == r.filter && out == addresses + r.sent
    {
      out := addresses;
      ghost var st0 := SendState(vpnTable.table, pfLRUFilter, []);
      NotifyOutcomeSpec(enableThro, enablePrfFilter, st0, isL1Use, n, vpnTable.subEntryBits, vpnTable.resetPeriod,
                        blkSize, vpnTable.subEntryNum);
      if !n.hasData || !n.hasVaddr || !n.blockFound {
        return;
      }
      if !isL1Use && n.fromL1Prefetcher && n.reqSource in enablePrfFilter {
        return;
      }
      if n.mpki < 1.0 {
        return;
      }
      var (thro, go) := ThrottleCheck(enableThro, n.l3MissInfo, n.mpki, n.trueAccuracy);
      enableThro := thro;
      if !go {
        return;
      }
      var c := NotifyConfig(vpnTable.subEntryBits, vpnTable.resetPeriod, blkSize, thro, n);
      var t, f;
      t, f, out := ScanAndSend(vpnTable.table, pfLRUFilter, addresses, c, AlignHiAsWritten(n.trueAccuracy), n.words,
                               n.pfDepth);
      vpnTable.table := t;
      pfLRUFilter := f;
    }

    /** `addToVpnTable`: `add` at the address's region, then a confidence
     *  reset. */
    method AddToVpnTable(vaddr: nat, pfHitCdp: bool, victim: nat, decay: (bool, nat, nat) -> nat, lowConf: bool)
      requires Valid() && (|vpnTable.table| < vpnTable.capacity || victim in vpnTable.table)
      modifies vpnTable`table, vpnTable`resetCounter
      ensures Valid()
      ensures (vpnTable.table, vpnTable.resetCounter) ==
        AddAndReset(old(vpnTable.table), old(vpnTable.resetCounter), vpnTable.subEntryNum, vpnTable.subEntryBits,
                    vpnTable.resetPeriod, vaddr, pfHitCdp, victim, decay, enableThro, lowConf)
    {
      var loc := vpnTable.Locate(Vpn2(vaddr), Vpn1(vaddr));
      vpnTable.Add(Vpn2(vaddr), Vpn1(vaddr), pfHitCdp, victim);
      vpnTable.ResetConfidence(decay, enableThro, lowConf);
    }

    /** `insertFilterTable`; the victim is taken only when an unused
     *  prefetch misses. */
    method InsertFilterTable(addr: nat, useful: bool, victim: nat)
      requires Valid()
      requires useful || FilterTag(addr, filterGranularityBits, filterRegionBlks) in filterTable ||
               |filterTable| < filterCapacity || victim in filterTable
      modifies this`filterTable
      ensures Valid()
      ensures filterTable == FilterInsert(old(filterTable), filterGranularityBits, filterRegionBlks, addr, useful, victim)
    {
      FilterInsertSize(filterTable, filterGranularityBits, filterRegionBlks, addr, useful, victim);
      filterTable := FilterInsert(filterTable, filterGranularityBits, filterRegionBlks, addr, useful, victim);
    }

    /** `recordUsedPrefetch`: a used prefetch never allocates, so no victim
     *  is needed. */
    method RecordUsedPrefetch(addr: nat)
      requires Valid()
      modifies this`filterTable
      ensures Valid()
      ensures filterTable == FilterInsert(old(filterTable), filterGranularityBits, filterRegionBlks, addr, true, 0)
      ensures !FilterNeed(filterTable, filterGranularityBits, filterRegionBlks, addr)
    {
      UsedNeverFiltered(filterTable, filterGranularityBits, filterRegionBlks, addr, 0);
      InsertFilterTable(addr, true, 0);
    }

    method RecordUnusedPrefetch(addr: nat, victim: nat)
      requires Valid()
      requires FilterTag(addr, filterGranularityBits, filterRegionBlks) in filterTable ||
               |filterTable| < filterCapacity || victim in filterTable
      modifies this`filterTable
      ensures Valid()
      ensures filterTable == FilterInsert(old(filterTable), filterGranularityBits, filterRegionBlks, addr, false, victim)
    {
      InsertFilterTable(addr, false, victim);
    }

    /** `needFilter`. */
    function NeedFilter(addr: nat): bool
      requires filterRegionBlks > 0 && FilterMapOk(filterTable, filterRegionBlks)
      reads this`filterTable
    {
      FilterNeed(filterTable, filterGranularityBits, filterRegionBlks, addr)
    }

    /** `pfHitNotify`: the source's filtering follows its accuracy (below
     *  10%), the block is scanned as an L1 use, and the virtual address, if
     *  any, is added to the VPN table. */
    method PfHitNotify(accuracy: real, src: PfSource, n: Notice, vaddr: nat, victim: nat,
                       decay: (bool, nat, nat) -> nat, addresses: seq<CdpRequest>)
      returns (out: seq<CdpRequest>)
      requires Valid() && |n.words| == blkSize / 8
      requires |vpnTable.table| < vpnTable.capacity || victim in vpnTable.table
      modifies this`enablePrfFilter, this`enableThro, this`pfLRUFilter, vpnTable`table, vpnTable`resetCounter
      ensures Valid()
      ensures enablePrfFilter == if accuracy < 0.1 then old(enablePrfFilter) + {src} else old(enablePrfFilter) - {src}
      ensures var (thro, r) := NotifyOutcome(old(enableThro), enablePrfFilter,
                                             SendState(old(vpnTable.table), old(pfLRUFilter), []), true, n,
                                             vpnTable.subEntryBits, vpnTable.resetPeriod, blkSize);
        && enableThro == thro && pfLRUFilter == r.filter && out == addresses + r.sent
        && VpnMapOk(r.table, vpnTable.subEntryNum)
        && (n.hasVaddr ==>
              (vpnTable.table, vpnTable.resetCounter) ==
                AddAndReset(r.table, old(vpnTable.resetCounter), vpnTable.subEntryNum, vpnTable.subEntryBits,
                            vpnTable.resetPeriod, vaddr, false, victim, decay, thro, n.lowConf))
        && (!n.hasVaddr ==> vpnTable.table == r.table && vpnTable.resetCounter == old(vpnTable.resetCounter))
    {
      if accuracy < 0.1 {
        enablePrfFilter := enablePrfFilter + {src};
      } else {
        enablePrfFilter := enablePrfFilter - {src};
      }
      out := NotifyWithData(true, n, addresses);
      if n.hasVaddr {
        AddToVpnTable(vaddr, false, victim, decay, n.lowConf);
      }
    }

    /** The scan of `calculatePrefetch` on an unfiltered hit. */
    method ScanOnHit(a: Access, addresses: seq<CdpRequest>) returns (out: seq<CdpRequest>)
      requires Valid() && |a.words| >= PointerWords
      modifies this`pfLRUFilter, vpnTable`table
      ensures Valid() && vpnTable.table.Keys == old(vpnTable.table.Keys)
      ensures var r := CalcSends(SendState(old(vpnTable.table), old(pfLRUFilter), []), a, enablePrfFilter,
                                 vpnTable.subEntryBits, vpnTable.resetPeriod, blkSize, enableThro);
        vpnTable.table == r.table && pfLRUFilter == r.filter && out == addresses + r.sent
    {
      out := addresses;
      if !CalcScans(a, enablePrfFilter) {
        return;
      }
      var bits := vpnTable.subEntryBits;
      var c := SendConfig(bits, vpnTable.resetPeriod, blkSize, enableThro, a.lowConf, 30, 1, a.trueAccuracy > 0.05);
      ghost var st0 := SendState(vpnTable.table, pfLRUFilter, []);
      assert FilterTracks(st0, pfLRUFilter);
      var ptrs := ScanPointer(vpnTable.table, bits, a.words);
      SendAllFilter(st0, ptrs, c, pfLRUFilter);
      SendAllTable(st0, ptrs, c, vpnTable.subEntryNum);
      var t, f;
      t, f, out := SendPointers(vpnTable.table, pfLRUFilter, addresses, c, ptrs);
      vpnTable.table := t;
      pfLRUFilter := f;
    }

    /** The end of `calculatePrefetch` for an access that is not a
     *  prefetch: the used prefetch is recorded in the filter table, and the
     *  address added to the VPN table. */
    method RecordDemand(a: Access, vpnVictim: nat, decay: (bool, nat, nat) -> nat)
      requires Valid() && (|vpnTable.table| < vpnTable.capacity || vpnVictim in vpnTable.table)
      modifies this`filterTable, vpnTable`table, vpnTable`resetCounter
      ensures Valid()
      ensures filterTable == FilterInsert(old(filterTable), filterGranularityBits, filterRegionBlks, a.paddr, true, 0)
      ensures (vpnTable.table, vpnTable.resetCounter) ==
        AddAndReset(old(vpnTable.table), old(vpnTable.resetCounter), vpnTable.subEntryNum, vpnTable.subEntryBits,
                    vpnTable.resetPeriod, a.addr, PfHitCdp(a), vpnVictim, decay, enableThro, a.lowConf)
    {
      RecordUsedPrefetch(a.paddr);
      AddToVpnTable(a.addr, PfHitCdp(a), vpnVictim, decay, a.lowConf);
    }

    /** `calculatePrefetch`. */
    method CalculatePrefetch(a: Access, vpnVictim: nat, decay: (bool, nat, nat) -> nat, addresses: seq<CdpRequest>)
      returns (out: seq<CdpRequest>)
      requires Valid() && |a.words| >= PointerWords
      requires |vpnTable.table| < vpnTable.capacity || vpnVictim in vpnTable.table
      modifies this`pfLRUFilter, this`filterTable, vpnTable`table, vpnTable`resetCounter
      ensures Valid()
      ensures CalcFiltered(a, enablePrfFilter) ==>
        vpnTable.table == old(vpnTable.table) && vpnTable.resetCounter == old(vpnTable.resetCounter) &&
        pfLRUFilter == old(pfLRUFilter) && filterTable == old(filterTable) && out == addresses
      ensures !CalcFiltered(a, enablePrfFilter) ==>
        var r := CalcSends(SendState(old(vpnTable.table), old(pfLRUFilter), []), a, enablePrfFilter,
                           vpnTable.subEntryBits, vpnTable.resetPeriod, blkSize, enableThro);
        && pfLRUFilter == r.filter && out == addresses + r.sent
        && VpnMapOk(r.table, vpnTable.subEntryNum)
        && (!a.isL1Prefetch && !a.isL2Prefetch ==>
              filterTable == FilterInsert(old(filterTable), filterGranularityBits, filterRegionBlks, a.paddr, true, 0) &&
              (vpnTable.table, vpnTable.resetCounter) ==
                AddAndReset(r.table, old(vpnTable.resetCounter), vpnTable.subEntryNum, vpnTable.subEntryBits,
                            vpnTable.resetPeriod, a.addr, PfHitCdp(a), vpnVictim, decay, enableThro, a.lowConf))
        && (a.isL1Prefetch || a.isL2Prefetch ==>
              filterTable == old(filterTable) && vpnTable.table == r.table &&
              vpnTable.resetCounter == old(vpnTable.resetCounter))
    {
      out := addresses;
      if CalcFiltered(a, enablePrfFilter) {
        return;
      }
      out := ScanOnHit(a, addresses);
      if !a.isL1Prefetch && !a.isL2Prefetch {
        RecordDemand(a, vpnVictim, decay);
      }
    }
  }
}
