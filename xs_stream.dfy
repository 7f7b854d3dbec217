/**
 * The stream prefetcher. Memory is divided into regions; a table of stream
 * entries records, per region, which blocks have been touched (a 64-bit
 * vector and its population count), whether the region is part of an
 * active stream, and whether the stream runs downwards. An access in an
 * active region prefetches `depth` blocks ahead (or behind) for the L1, and
 * further ahead for the L2 and, when enabled, the L3. The depth adapts to how
 * late and how wasteful recent prefetches were.
 *
 * The region tag and offset of an address, the region hash and the tuning
 * constants live in a header that is not part of this model: the tag and
 * offset are inputs, the hash and the constants are parameters of the
 * prefetcher.
 */
module XsStream {
  import opened Common

  // ---------------------------------------------------------------------
  // Region bit vectors

  /** The 64-bit touched-block vector of a region, bit i at index i. */
  const RegionBlocks: nat := 64

  /** The number of set bits. */
  function Count(bits: seq<bool>): nat
  {
    if bits == [] then 0 else (if bits[0] then 1 else 0) + Count(bits[1..])
  }

  /** Setting a clear bit adds one to the count. */
  lemma {:induction false} SetBitCount(bits: seq<bool>, k: nat)
    requires k < |bits| && !bits[k]
    ensures Count(bits[k := true]) == Count(bits) + 1
  {
    if k > 0 {
      assert bits[k := true][1..] == bits[1..][k - 1 := true];
      SetBitCount(bits[1..], k - 1);
    }
  }

  /** A vector with a single bit set counts one. */
  lemma {:induction false} SingleBitCount(n: nat, k: nat)
    requires k < n
    ensures Count(seq(n, j => j == k)) == 1
  {
    var s := seq(n, j => j == k);
    if k == 0 {
      assert s[1..] == seq(n - 1, j => false);
      NoBitsCount(n - 1);
    } else {
      assert s[1..] == seq(n - 1, j => j == k - 1);
      SingleBitCount(n - 1, k - 1);
    }
  }

  lemma {:induction false} NoBitsCount(n: nat)
    ensures Count(seq(n, j => false)) == 0
  {
    if n > 0 {
      assert seq(n, j => false)[1..] == seq(n - 1, j => false);
      NoBitsCount(n - 1);
    }
  }

  // ---------------------------------------------------------------------
  // Entries and requests

  /** `STREAMEntry`: the touched-block vector of a region, its count, and the stream flags. */
  datatype StreamEntry = StreamEntry(bitVec: seq<bool>, cnt: nat, active: bool, decrMode: bool)

  /** An entry's vector has 64 bits and its count is the number of set bits. */
  predicate CountMatches(e: StreamEntry)
  {
    |e.bitVec| == RegionBlocks && e.cnt == Count(e.bitVec)
  }

  /** The source a prefetch is attributed to: loads train `SStream`, stores `StoreStream`. */
  datatype SourceType = SStream | StoreStream

  /** `AddrPriority`: the address, priority and source of a prefetch, and the cache level the
   *  request is sent ahead to (`pfahead_host`, meaningful only when `pfahead` is set). */
  datatype PfRequest = PfRequest(addr: nat, prio: int, src: SourceType, pfahead: bool, pfaheadHost: nat)

  /** The stream table is keyed by the hashed region tag and the secure bit. */
  type Key = (nat, bool)

  /** `Addr` arithmetic wraps modulo 2^64. */
  function AddrAdd(a: nat, d: int): (r: nat)
    ensures r < U64
    ensures 0 <= a + d < U64 ==> r == a + d
  {
    (a + d) % U64
  }

  /** The address `depth` blocks of `blkSize` bytes beyond `block`, or before it when decr is set. */
  function Target(block: nat, depth: nat, blkSize: nat, decr: bool): nat
  {
    MulNonneg(depth, blkSize);
    if decr then AddrAdd(block, -(depth * blkSize)) else AddrAdd(block, depth * blkSize)
  }

  /** Without wrap-around, the target is `depth * blkSize` bytes beyond (or before) the block. */
  lemma TargetOffset(block: nat, depth: nat, blkSize: nat, decr: bool)
    ensures Target(block, depth, blkSize, decr) < U64
    ensures !decr && block + depth * blkSize < U64 ==> Target(block, depth, blkSize, decr) == block + depth * blkSize
    ensures decr && depth * blkSize <= block < U64 ==> Target(block, depth, blkSize, decr) == block - depth * blkSize
  {
  }

  /** Forward and backward targets mirror each other around the trigger block. */
  lemma TargetsMirror(block: nat, depth: nat, blkSize: nat)
    requires depth * blkSize <= block && block + depth * blkSize < U64
    ensures Target(block, depth, blkSize, false) - block == block - Target(block, depth, blkSize, true)
  {
    TargetOffset(block, depth, blkSize, false);
    TargetOffset(block, depth, blkSize, true);
  }

  /** The depth-adaptation step: (depth, badPreNum, issuedPrefetches) afterwards. It runs only
   *  once `issuedPrefetches` reaches the check interval and auto-depth is on; `late` is the
   *  outcome of the late-ratio comparison. */
  function AdaptDepth(depth: nat, badPreNum: nat, issued: nat, late: bool, enableAutoDepth: bool,
                      interval: nat, step: nat, depthLeft: nat, depthRight: nat, threshold: nat)
    : (nat, nat, nat)
  {
    if issued >= interval && enableAutoDepth then
      var d1 := if late && depth != depthRight then Shl(depth, step) else depth;
      if badPreNum > threshold then
        ((if d1 != depthLeft then Shr(d1, step) else d1), 0, 0)
      else
        (d1, badPreNum, 0)
    else
      (depth, badPreNum, issued)
  }

  /** What one adaptation step does: nothing before the check interval or without auto-depth;
   *  otherwise the issue count restarts, a late stream deepens by `step` unless already at
   *  the right bound, and too many bad prefetches reset their count and halve the depth by
   *  `step` unless at the left bound. */
  lemma AdaptDepthCases(depth: nat, badPreNum: nat, issued: nat, late: bool, enableAutoDepth: bool,
                        interval: nat, step: nat, depthLeft: nat, depthRight: nat, threshold: nat)
    ensures var r := AdaptDepth(depth, badPreNum, issued, late, enableAutoDepth, interval, step, depthLeft, depthRight, threshold);
      issued < interval || !enableAutoDepth ==> r == (depth, badPreNum, issued)
    ensures var r := AdaptDepth(depth, badPreNum, issued, late, enableAutoDepth, interval, step, depthLeft, depthRight, threshold);
      issued >= interval && enableAutoDepth ==>
      && r.2 == 0
      && (badPreNum > threshold <==> r.1 == 0 && badPreNum != 0)
      && (badPreNum <= threshold ==> r.1 == badPreNum)
      && (!late && badPreNum <= threshold ==> r.0 == depth)
      && (late && depth != depthRight && badPreNum <= threshold ==> r.0 == Shl(depth, step))
      && (!late && badPreNum > threshold && depth != depthLeft ==> r.0 == Shr(depth, step))
      && (!late && badPreNum > threshold && depth == depthLeft ==> r.0 == depth)
  {
  }

  /** The neighbouring region tags, computed in unsigned 64-bit arithmetic. */
  function NextTag(tag: nat): nat { (tag + 1) % U64 }
  function PrevTag(tag: nat): nat { if tag == 0 then U64 - 1 else tag - 1 }

  /** A stream table within its capacity whose every entry's count matches its vector. */
  predicate TableOk(t: map<Key, StreamEntry>, capacity: nat)
  {
    |t| <= capacity && forall k :: k in t ==> CountMatches(t[k])
  }

  /**
   * One access to region key k: on a hit the entry is updated as `HitEntry` says; on a miss
   * the replacement victim makes way for a fresh entry (`NewEntry`) that is active when a
   * neighbour is and runs downwards when a tag + 1 entry exists. The result is the new
   * table and the entry's active and downward flags, which are reported to the caller.
   */
  function Access(t: map<Key, StreamEntry>, k: Key, plusExists: bool, neighbourActive: bool, offset: nat,
                  threshold: nat, victim: Key, capacity: nat): (r: (map<Key, StreamEntry>, bool, bool))
    requires TableOk(t, capacity) && offset < RegionBlocks
    requires |t| < capacity || victim in t
    ensures TableOk(r.0, capacity)
  {
    if k in t then
      var e := HitEntry(t[k], plusExists, neighbourActive, offset, threshold);
      (t[k := e], e.active, e.decrMode)
    else
      var e := NewEntry(offset, neighbourActive, plusExists);
      (MapReplace(t, victim, k, e), e.active, e.decrMode)
  }

  /** An access leaves the region's entry in the table with the offset's bit set and reports
   *  its flags; a hit updates only that entry, and a miss replaces the victim by a fresh entry
   *  counting one block, active exactly when a neighbour is. */
  lemma AccessCases(t: map<Key, StreamEntry>, k: Key, plusExists: bool, neighbourActive: bool, offset: nat,
                    threshold: nat, victim: Key, capacity: nat)
    requires TableOk(t, capacity) && offset < RegionBlocks
    requires |t| < capacity || victim in t
    ensures var r := Access(t, k, plusExists, neighbourActive, offset, threshold, victim, capacity);
      && k in r.0 && r.1 == r.0[k].active && r.2 == r.0[k].decrMode
      && r.0[k].bitVec[offset]
      && (k in t ==> r.0 == t[k := HitEntry(t[k], plusExists, neighbourActive, offset, threshold)])
      && (k !in t ==> r.0 == MapReplace(t, victim, k, NewEntry(offset, neighbourActive, plusExists)))
      && (k !in t ==> r.1 == neighbourActive && r.2 == plusExists && r.0[k].cnt == 1)
  {
  }

  /** The i-th candidate address of a send, `addr + i * blkSize`. */
  function Candidate(addr: nat, i: nat, blkSize: nat): nat
  {
    MulNonneg(i, blkSize);
    AddrAdd(addr, i * blkSize)
  }

  /** The entry after a hit at `offset`: the region turns active when a neighbour is active
   *  or its count already exceeded the threshold, runs downwards from the moment a tag + 1
   *  entry exists, and has the offset's bit set, counted only when it was clear. */
  function HitEntry(e: StreamEntry, plusExists: bool, neighbourActive: bool, offset: nat, threshold: nat)
    : (r: StreamEntry)
    requires CountMatches(e) && offset < RegionBlocks
    ensures CountMatches(r)
    ensures r.active == (e.active || neighbourActive || e.cnt > threshold)
    ensures r.decrMode == (e.decrMode || plusExists)
    ensures r.bitVec[offset]
    ensures forall j :: 0 <= j < RegionBlocks && j != offset ==> r.bitVec[j] == e.bitVec[j]
    ensures r.cnt == if e.bitVec[offset] then e.cnt else e.cnt + 1
  {
    var active := e.active || neighbourActive || e.cnt > threshold;
    var decr := e.decrMode || plusExists;
    if e.bitVec[offset] then
      StreamEntry(e.bitVec, e.cnt, active, decr)
    else
      SetBitCount(e.bitVec, offset);
      StreamEntry(e.bitVec[offset := true], e.cnt + 1, active, decr)
  }

  /** The entry allocated on a miss: only the offset's bit set, count one. */
  function NewEntry(offset: nat, active: bool, decr: bool): (r: StreamEntry)
    requires offset < RegionBlocks
    ensures CountMatches(r) && r.cnt == 1
    ensures forall j :: 0 <= j < RegionBlocks ==> (r.bitVec[j] <==> j == offset)
  {
    SingleBitCount(RegionBlocks, offset);
    StreamEntry(seq(RegionBlocks, j => j == offset), 1, active, decr)
  }

  /** The candidate addresses of one send: `addr + i * blkSize` for i < degree. */
  function Candidates(addr: nat, degree: nat, blkSize: nat): (r: seq<nat>)
    ensures |r| == degree
  {
    seq(degree, i requires 0 <= i => Candidate(addr, i, blkSize))
  }

  /** The request for one sent address: sent ahead to level 2 or 3 when `aheadLevel` says so. */
  function Request(addr: nat, prio: int, src: SourceType, aheadLevel: nat): (r: PfRequest)
    ensures r.addr == addr && r.prio == prio && r.src == src
    ensures r.pfahead <==> aheadLevel > 1
    ensures r.pfahead ==> r.pfaheadHost == aheadLevel
  {
    PfRequest(addr, prio, src, aheadLevel > 1, if aheadLevel > 1 then aheadLevel else 0)
  }

  /** A request of the stream prefetcher: priority 1, the access's source, and sent ahead
   *  exactly when it goes to the L2 or (only when enabled) the L3. */
  predicate StreamRequest(r: PfRequest, src: SourceType, enableL3: bool)
  {
    && r.src == src && r.prio == 1
    && (r.pfahead <==> r.pfaheadHost in {2, 3})
    && (!enableL3 ==> r.pfaheadHost != 3)
  }

  /** The requests of one send at priority 1 to level 1, 2 or 3 are stream requests. */
  lemma StreamRequests(rs: seq<PfRequest>, src: SourceType, aheadLevel: nat, enableL3: bool)
    requires 1 <= aheadLevel <= 3 && (aheadLevel == 3 ==> enableL3)
    requires forall r :: r in rs ==> r == Request(r.addr, 1, src, aheadLevel)
    ensures forall r :: r in rs ==> StreamRequest(r, src, enableL3)
  {
  }

  /** The requests for a list of sent addresses, in order. */
  function Requests(addrs: seq<nat>, prio: int, src: SourceType, aheadLevel: nat): (r: seq<PfRequest>)
    ensures |r| == |addrs| && forall j :: 0 <= j < |addrs| ==> r[j] == Request(addrs[j], prio, src, aheadLevel)
    ensures Addrs(r) == addrs
  {
    seq(|addrs|, j requires 0 <= j < |addrs| => Request(addrs[j], prio, src, aheadLevel))
  }

  /** The addresses of a list of requests, in order. */
  function Addrs(rs: seq<PfRequest>): (r: seq<nat>)
    ensures |r| == |rs| && forall j :: 0 <= j < |rs| ==> r[j] == rs[j].addr
  {
    seq(|rs|, j requires 0 <= j < |rs| => rs[j].addr)
  }

  /** The addresses one send emits: each candidate the recently-sent filter does not hold at
   *  its turn, the filter taking in every address sent. */
  function SendFiltered(cands: seq<nat>, f: seq<nat>, fCap: nat): (sent: seq<nat>)
    requires fCap > 0
    ensures |sent| <= |cands|
    decreases |cands|
  {
    if cands == [] then []
    else if cands[0] in f then SendFiltered(cands[1..], f, fCap)
    else [cands[0]] + SendFiltered(cands[1..], LruInsert(f, cands[0], fCap), fCap)
  }

  /** Only candidates are sent, and every candidate the filter did not hold beforehand is. */
  lemma {:induction false} SendFilteredSpec(cands: seq<nat>, f: seq<nat>, fCap: nat)
    requires fCap > 0
    ensures forall x :: x in SendFiltered(cands, f, fCap) ==> x in cands
    ensures forall i :: 0 <= i < |cands| && cands[i] !in f ==> cands[i] in SendFiltered(cands, f, fCap)
  {
    if cands != [] {
      var c, rest := cands[0], cands[1..];
      var f' := if c in f then f else LruInsert(f, c, fCap);
      SendFilteredSpec(rest, f', fCap);
      assert forall i :: 1 <= i < |cands| ==> cands[i] == rest[i - 1];
    }
  }

  /** The loop of `sendPFWithFilter` over the candidate addresses: a candidate the recently-sent
   *  filter `f` holds is skipped, any other is sent and inserted into `f` and into `b`. */
  method FilterCandidates(cands: seq<nat>, f0: seq<nat>, fCap: nat, b0: seq<nat>, bCap: nat)
    returns (sentAddrs: seq<nat>, f: seq<nat>, b: seq<nat>)
    requires fCap > 0 && bCap > 0
    ensures |sentAddrs| <= |cands|
    ensures forall j :: 0 <= j < |sentAddrs| ==> sentAddrs[j] in cands
    ensures forall i :: 0 <= i < |cands| && cands[i] !in f0 ==> cands[i] in sentAddrs
    ensures f == LruInsertAll(f0, sentAddrs, fCap) && b == LruInsertAll(b0, sentAddrs, bCap)
    ensures sentAddrs == SendFiltered(cands, f0, fCap)
  {
    f, b := f0, b0;
    sentAddrs := [];
    var i := 0;
    while i < |cands|
      invariant 0 <= i <= |cands|
      invariant f == LruInsertAll(f0, sentAddrs, fCap)
      invariant b == LruInsertAll(b0, sentAddrs, bCap)
      invariant sentAddrs + SendFiltered(cands[i..], f, fCap) == SendFiltered(cands, f0, fCap)
    {
      assert cands[i..][1..] == cands[i + 1..];
      if cands[i] !in f {
        LruInsertAllSnoc(f0, sentAddrs, cands[i], fCap);
        LruInsertAllSnoc(b0, sentAddrs, cands[i], bCap);
        f := LruInsert(f, cands[i], fCap);
        b := LruInsert(b, cands[i], bCap);
        sentAddrs := sentAddrs + [cands[i]];
      }
      i := i + 1;
    }
    assert sentAddrs + [] == sentAddrs;
    SendFilteredSpec(cands, f0, fCap);
  }

  /** The requests of a send are exactly its addresses' requests. */
  lemma RequestsMembers(addrs: seq<nat>, src: SourceType, aheadLevel: nat)
    ensures forall r :: r in Requests(addrs, 1, src, aheadLevel) ==> r.addr in addrs && r == Request(r.addr, 1, src, aheadLevel)
    ensures forall x :: x in addrs ==> Request(x, 1, src, aheadLevel) in Requests(addrs, 1, src, aheadLevel)
  {
    var rs := Requests(addrs, 1, src, aheadLevel);
    forall x | x in addrs ensures Request(x, 1, src, aheadLevel) in rs {
      var j :| 0 <= j < |addrs| && addrs[j] == x;
      assert rs[j] == Request(x, 1, src, aheadLevel);
    }
  }

  lemma AddrsConcat(a: seq<PfRequest>, b: seq<PfRequest>)
    ensures Addrs(a + b) == Addrs(a) + Addrs(b)
  {
  }

  class XsStreamPrefetcher {
    const blkSize: nat
    const l2Ratio: nat
    const l3Ratio: nat
    const enableAutoDepth: bool
    const enableL3StreamPre: bool
    /** `xs_stream_entries`: the capacity of the stream table. */
    const entries: nat
    /** Capacities of the prefetcher's recently-sent filter and of `streamBlkFilter`. */
    const filterSize: nat
    const streamFilterSize: nat
    /** `regionHashTag`. */
    const regionHashTag: nat -> nat
    // Tuning constants of the stream prefetcher.
    const activeThreshold: nat
    const validityCheckInterval: nat
    const depthStep: nat
    const depthLeft: nat
    const depthRight: nat
    const lateMissThreshold: nat
    const l1Degree: nat
    const l2Degree: nat
    const l3Degree: nat

    var depth: nat
    var badPreNum: nat
    /** Counted up by the queued-prefetcher base class as requests issue. */
    var issuedPrefetches: nat
    var streamArray: map<Key, StreamEntry>
    /** The recently-sent filter, most recently used first. */
    var filter: seq<nat>
    /** Blocks recently stream-prefetched, most recently used first. */
    var streamBlkFilter: seq<nat>

    predicate Valid()
      reads this`streamArray, this`filter, this`streamBlkFilter
    {
      TableValid() && FiltersValid()
    }

    /** The stream table is within its capacity and every entry's count matches its vector. */
    predicate TableValid()
      reads this`streamArray
    {
      TableOk(streamArray, entries)
    }

    /** Both filters are within their (positive) capacities. */
    predicate FiltersValid()
      reads this`filter, this`streamBlkFilter
    {
      && filterSize > 0 && streamFilterSize > 0
      && |filter| <= filterSize && |streamBlkFilter| <= streamFilterSize
    }

    constructor(depth: nat, blkSize: nat, l2Ratio: nat, l3Ratio: nat, enableAutoDepth: bool,
                enableL3StreamPre: bool, entries: nat, filterSize: nat, streamFilterSize: nat,
                regionHashTag: nat -> nat, activeThreshold: nat, validityCheckInterval: nat,
                depthStep: nat, depthLeft: nat, depthRight: nat, lateMissThreshold: nat,
                l1Degree: nat, l2Degree: nat, l3Degree: nat)
      requires filterSize > 0 && streamFilterSize > 0
      ensures Valid()
      ensures this.depth == depth && badPreNum == 0 && issuedPrefetches == 0
      ensures streamArray == map[] && filter == [] && streamBlkFilter == []
      ensures this.blkSize == blkSize && this.l2Ratio == l2Ratio && this.l3Ratio == l3Ratio
      ensures this.enableAutoDepth == enableAutoDepth && this.enableL3StreamPre == enableL3StreamPre
      ensures this.entries == entries && this.filterSize == filterSize
      ensures this.streamFilterSize == streamFilterSize && this.regionHashTag == regionHashTag
      ensures this.activeThreshold == activeThreshold && this.validityCheckInterval == validityCheckInterval
      ensures this.depthStep == depthStep && this.depthLeft == depthLeft && this.depthRight == depthRight
      ensures this.lateMissThreshold == lateMissThreshold
      ensures this.l1Degree == l1Degree && this.l2Degree == l2Degree && this.l3Degree == l3Degree
    {
      this.depth := depth;
      this.blkSize := blkSize;
      this.l2Ratio := l2Ratio;
      this.l3Ratio := l3Ratio;
      this.enableAutoDepth := enableAutoDepth;
      this.enableL3StreamPre := enableL3StreamPre;
      this.entries := entries;
      this.filterSize := filterSize;
      this.streamFilterSize := streamFilterSize;
      this.regionHashTag := regionHashTag;
      this.activeThreshold := activeThreshold;
      this.validityCheckInterval := validityCheckInterval;
      this.depthStep := depthStep;
      this.depthLeft := depthLeft;
      this.depthRight := depthRight;
      this.lateMissThreshold := lateMissThreshold;
      this.l1Degree := l1Degree;
      this.l2Degree := l2Degree;
      this.l3Degree := l3Degree;
      badPreNum := 0;
      issuedPrefetches := 0;
      streamArray := map[];
      filter := [];
      streamBlkFilter := [];
    }

    /** The entry of a region, if the table holds one. */
    function Lookup(tag: nat, secure: bool): Option<StreamEntry>
      reads this`streamArray
    {
      var k := (regionHashTag(tag), secure);
      if k in streamArray then Some(streamArray[k]) else None
    }

    /** Some neighbouring region (tag + 1 or tag - 1) has an active entry. */
    predicate NeighbourActive(tag: nat, secure: bool)
      reads this`streamArray
    {
      var plus := Lookup(NextTag(tag), secure);
      var minus := Lookup(PrevTag(tag), secure);
      (plus.Some? && plus.value.active) || (minus.Some? && minus.value.active)
    }

    /**
     * `streamLookup`: looks up the region of the access and its two neighbours (tag + 1 and
     * tag - 1, wrapping as unsigned addresses do) and updates the table as `Access` says.
     * Reported: whether the region is active and whether it runs downwards.
     */
    method StreamLookup(tag: nat, offset: nat, secure: bool, victim: Key) returns (inActivePage: bool, decr: bool)
      requires Valid() && offset < RegionBlocks
      requires |streamArray| < entries || victim in streamArray
      modifies this`streamArray
      ensures Valid()
      ensures (streamArray, inActivePage, decr)
        == Access(old(streamArray), (regionHashTag(tag), secure), old(Lookup(NextTag(tag), secure)).Some?,
                  old(NeighbourActive(tag, secure)), offset, activeThreshold, victim, entries)
    {
      var r := Access(streamArray, (regionHashTag(tag), secure), Lookup(NextTag(tag), secure).Some?,
                      NeighbourActive(tag, secure), offset, activeThreshold, victim, entries);
      streamArray, inActivePage, decr := r.0, r.1, r.2;
    }

    /**
     * `sendPFWithFilter`: tries `addr + i * blkSize` for i < degree in order, skips an address
     * the recently-sent filter holds, and otherwise sends it and records it in both filters.
     * Every request sent is one of the candidates and carries the given priority, source and
     * ahead level; every candidate the filter did not hold beforehand is sent; both filters
     * end up with exactly the sent addresses inserted, in order.
     */
    method SendPfWithFilter(addr: nat, prio: int, src: SourceType, degree: nat, aheadLevel: nat)
      returns (sent: seq<PfRequest>)
      requires Valid()
      requires aheadLevel > 1 ==> aheadLevel == 2 || aheadLevel == 3
      modifies this`filter, this`streamBlkFilter
      ensures Valid()
      ensures |sent| <= degree
      ensures forall r :: r in sent ==> r == Request(r.addr, prio, src, aheadLevel) && r.addr in Candidates(addr, degree, blkSize)
      ensures forall i :: 0 <= i < degree && Candidates(addr, degree, blkSize)[i] !in old(filter) ==>
        Candidates(addr, degree, blkSize)[i] in Addrs(sent)
      ensures filter == LruInsertAll(old(filter), Addrs(sent), filterSize)
      ensures streamBlkFilter == LruInsertAll(old(streamBlkFilter), Addrs(sent), streamFilterSize)
      ensures sent == Requests(SendFiltered(Candidates(addr, degree, blkSize), old(filter), filterSize), prio, src, aheadLevel)
    {
      var sentAddrs;
      sentAddrs, filter, streamBlkFilter :=
        FilterCandidates(Candidates(addr, degree, blkSize), filter, filterSize, streamBlkFilter, streamFilterSize);
      sent := Requests(sentAddrs, prio, src, aheadLevel);
    }

    /** The requests of the three sends of an access in an active region, from the filter
     *  `f0`: `d`, `d << l2Ratio` and (when enabled) `d << l3Ratio` blocks away, to the L1, L2
     *  and L3 respectively, each send filtered by what the sends before it left in the
     *  filter. */
    function StreamSends(f0: seq<nat>, d: nat, blockAddr: nat, decr: bool, src: SourceType): (r: seq<PfRequest>)
      requires filterSize > 0
    {
      var l1 := SendFiltered(Candidates(Target(blockAddr, d, blkSize, decr), l1Degree, blkSize), f0, filterSize);
      var f1 := LruInsertAll(f0, l1, filterSize);
      var l2 := SendFiltered(Candidates(Target(blockAddr, Shl(d, l2Ratio), blkSize, decr), l2Degree, blkSize), f1, filterSize);
      var f2 := LruInsertAll(f1, l2, filterSize);
      var l3 := if enableL3StreamPre then SendFiltered(Candidates(Target(blockAddr, Shl(d, l3Ratio), blkSize, decr), l3Degree, blkSize), f2, filterSize) else [];
      Requests(l1, 1, src, 1) + Requests(l2, 1, src, 2) + Requests(l3, 1, src, 3)
    }

    /** Every request of the three sends is a stream request and a candidate of the send of
     *  its level (level 3 only when enabled). */
    lemma StreamSendsSound(f0: seq<nat>, d: nat, blockAddr: nat, decr: bool, src: SourceType)
      requires filterSize > 0
      ensures var rs := StreamSends(f0, d, blockAddr, decr, src);
        && (forall r :: r in rs ==> StreamRequest(r, src, enableL3StreamPre))
        && (forall r :: r in rs && !r.pfahead ==>
              r.addr in Candidates(Target(blockAddr, d, blkSize, decr), l1Degree, blkSize))
        && (forall r :: r in rs && r.pfaheadHost == 2 ==>
              r.addr in Candidates(Target(blockAddr, Shl(d, l2Ratio), blkSize, decr), l2Degree, blkSize))
        && (forall r :: r in rs && r.pfaheadHost == 3 ==>
              r.addr in Candidates(Target(blockAddr, Shl(d, l3Ratio), blkSize, decr), l3Degree, blkSize))
    {
      var c1 := Candidates(Target(blockAddr, d, blkSize, decr), l1Degree, blkSize);
      var c2 := Candidates(Target(blockAddr, Shl(d, l2Ratio), blkSize, decr), l2Degree, blkSize);
      var c3 := Candidates(Target(blockAddr, Shl(d, l3Ratio), blkSize, decr), l3Degree, blkSize);
      var l1 := SendFiltered(c1, f0, filterSize);
      var f1 := LruInsertAll(f0, l1, filterSize);
      var l2 := SendFiltered(c2, f1, filterSize);
      var f2 := LruInsertAll(f1, l2, filterSize);
      var l3 := if enableL3StreamPre then SendFiltered(c3, f2, filterSize) else [];
      SendFilteredSpec(c1, f0, filterSize);
      SendFilteredSpec(c2, f1, filterSize);
      SendFilteredSpec(c3, f2, filterSize);
      RequestsMembers(l1, src, 1);
      RequestsMembers(l2, src, 2);
      RequestsMembers(l3, src, 3);
      StreamRequests(Requests(l1, 1, src, 1), src, 1, enableL3StreamPre);
      StreamRequests(Requests(l2, 1, src, 2), src, 2, enableL3StreamPre);
      if enableL3StreamPre {
        StreamRequests(Requests(l3, 1, src, 3), src, 3, enableL3StreamPre);
      }
    }

    /** Every L1 candidate outside the filter, and every L2 candidate outside both the filter
     *  and the L1 send, is requested at its level. */
    lemma StreamSendsComplete(f0: seq<nat>, d: nat, blockAddr: nat, decr: bool, src: SourceType)
      requires filterSize > 0
      ensures var c1 := Candidates(Target(blockAddr, d, blkSize, decr), l1Degree, blkSize);
        var c2 := Candidates(Target(blockAddr, Shl(d, l2Ratio), blkSize, decr), l2Degree, blkSize);
        var rs := StreamSends(f0, d, blockAddr, decr, src);
        && (forall i :: 0 <= i < |c1| && c1[i] !in f0 ==> Request(c1[i], 1, src, 1) in rs)
        && (forall i :: 0 <= i < |c2| && c2[i] !in f0 && c2[i] !in SendFiltered(c1, f0, filterSize) ==>
              Request(c2[i], 1, src, 2) in rs)
    {
      var c1 := Candidates(Target(blockAddr, d, blkSize, decr), l1Degree, blkSize);
      var c2 := Candidates(Target(blockAddr, Shl(d, l2Ratio), blkSize, decr), l2Degree, blkSize);
      var l1 := SendFiltered(c1, f0, filterSize);
      var f1 := LruInsertAll(f0, l1, filterSize);
      var l2 := SendFiltered(c2, f1, filterSize);
      SendFilteredSpec(c1, f0, filterSize);
      SendFilteredSpec(c2, f1, filterSize);
      RequestsMembers(l1, src, 1);
      RequestsMembers(l2, src, 2);
      forall i | 0 <= i < |c2| && c2[i] !in f0 && c2[i] !in l1 ensures c2[i] in l2 {
        if c2[i] in f1 {
          LruInsertAllKeys(f0, l1, filterSize, c2[i]);
        }
      }
    }

    /** The three sends of an access in an active region: `depth`, `depth << l2Ratio` and (when
     *  enabled) `depth << l3Ratio` blocks away, to the L1, L2 and L3 respectively. */
    method SendStreams(blockAddr: nat, decr: bool, src: SourceType) returns (addresses: seq<PfRequest>)
      requires Valid()
      modifies this`filter, this`streamBlkFilter
      ensures Valid()
      ensures forall r :: r in addresses ==> StreamRequest(r, src, enableL3StreamPre)
      ensures var l1 := Candidates(Target(blockAddr, depth, blkSize, decr), l1Degree, blkSize);
        forall i :: 0 <= i < l1Degree && l1[i] !in old(filter) ==> l1[i] in Addrs(addresses)
      ensures addresses == StreamSends(old(filter), depth, blockAddr, decr, src)
      ensures filter == LruInsertAll(old(filter), Addrs(addresses), filterSize)
      ensures streamBlkFilter == LruInsertAll(old(streamBlkFilter), Addrs(addresses), streamFilterSize)
    {
      ghost var f0, b0 := filter, streamBlkFilter;
      var l1 := SendPfWithFilter(Target(blockAddr, depth, blkSize, decr), 1, src, l1Degree, 1);
      StreamRequests(l1, src, 1, enableL3StreamPre);
      var l2 := SendPfWithFilter(Target(blockAddr, Shl(depth, l2Ratio), blkSize, decr), 1, src, l2Degree, 2);
      StreamRequests(l2, src, 2, enableL3StreamPre);
      addresses := l1 + l2;
      AddrsConcat(l1, l2);
      LruInsertAllAppend(f0, Addrs(l1), Addrs(l2), filterSize);
      LruInsertAllAppend(b0, Addrs(l1), Addrs(l2), streamFilterSize);
      if enableL3StreamPre {
        var l3 := SendPfWithFilter(Target(blockAddr, Shl(depth, l3Ratio), blkSize, decr), 1, src, l3Degree, 3);
        StreamRequests(l3, src, 3, enableL3StreamPre);
        AddrsConcat(addresses, l3);
        LruInsertAllAppend(f0, Addrs(addresses), Addrs(l3), filterSize);
        LruInsertAllAppend(b0, Addrs(addresses), Addrs(l3), streamFilterSize);
        addresses := addresses + l3;
      } else {
        assert Requests([], 1, src, 3) == [];
        assert addresses + [] == addresses;
      }
    }

    /**
     * `calculatePrefetch`: counts a cache miss to a recently stream-prefetched block as a bad
     * prefetch, looks the region up, adapts the depth, and in an active region sends the L1,
     * L2 and (when enabled) L3 stream prefetches, downwards exactly when the stream runs
     * downwards. `late` is the outcome of the late-ratio comparison against `LATECOVERAGE`.
     */
    method CalculatePrefetch(blockAddr: nat, tag: nat, offset: nat, secure: bool, isStore: bool,
                             isCacheMiss: bool, late: bool, victim: Key)
      returns (addresses: seq<PfRequest>)
      requires Valid() && offset < RegionBlocks
      requires |streamArray| < entries || victim in streamArray
      modifies this`badPreNum, this`depth, this`issuedPrefetches, this`streamArray, this`filter, this`streamBlkFilter
      ensures Valid()
      ensures var bad := if isCacheMiss && blockAddr in old(streamBlkFilter) then old(badPreNum) + 1 else old(badPreNum);
              (depth, badPreNum, issuedPrefetches) == AdaptDepth(old(depth), bad, old(issuedPrefetches), late,
                enableAutoDepth, validityCheckInterval, depthStep, depthLeft, depthRight, lateMissThreshold)
      ensures var acc := Access(old(streamArray), (regionHashTag(tag), secure), old(Lookup(NextTag(tag), secure)).Some?,
                                old(NeighbourActive(tag, secure)), offset, activeThreshold, victim, entries);
        && streamArray == acc.0
        && (!acc.1 ==> addresses == [])
        && (acc.1 ==> var l1 := Candidates(Target(blockAddr, depth, blkSize, acc.2), l1Degree, blkSize);
                      forall i :: 0 <= i < l1Degree && l1[i] !in old(filter) ==> l1[i] in Addrs(addresses))
        && (acc.1 ==> addresses == StreamSends(old(filter), depth, blockAddr, acc.2, if isStore then StoreStream else SStream))
      ensures forall r :: r in addresses ==> StreamRequest(r, if isStore then StoreStream else SStream, enableL3StreamPre)
      ensures filter == LruInsertAll(old(filter), Addrs(addresses), filterSize)
      ensures streamBlkFilter == LruInsertAll(old(streamBlkFilter), Addrs(addresses), streamFilterSize)
    {
      var streamType := if isStore then StoreStream else SStream;
      var bad := if isCacheMiss && blockAddr in streamBlkFilter then badPreNum + 1 else badPreNum;
      var inActivePage, decr := StreamLookup(tag, offset, secure, victim);
      var adapted := AdaptDepth(depth, bad, issuedPrefetches, late, enableAutoDepth,
        validityCheckInterval, depthStep, depthLeft, depthRight, lateMissThreshold);
      depth, badPreNum, issuedPrefetches := adapted.0, adapted.1, adapted.2;
      addresses := [];
      if inActivePage {
        addresses := SendStreams(blockAddr, decr, streamType);
      }
    }
  }
}
