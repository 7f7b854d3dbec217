/**
 * Register-file read ports. The configuration names a read port with one
 * byte laid out as [7:6] register-file type, [5:2] port number,
 * [1:0] arbitration priority. The issue queues unpack it and key port
 * occupancy by the pair (type, port) packed as [5:4] type, [3:0] port.
 */
module RfPort {
  import opened Common

  const RfIntId: nat := 0
  const RfFpId: nat := 1

  /** `maxTotalRFPorts` in the configuration. */
  const MaxTotalRfPorts: nat := 64 - 1

  /** `MAXVAL_TYPEPORTID`: the number of distinct packed (type, port) ids. */
  const MaxTypePortId: nat := 64

  /** `IntRD(id, p)`: an integer-register-file read port. */
  function IntRd(id: nat, p: nat): (r: nat)
    requires id < 16 && p < 4
    ensures r < 64
  {
    id * 4 + p
  }

  /** `FpRD(id, p)`: a floating-point-register-file read port. */
  function FpRd(id: nat, p: nat): (r: nat)
    requires id < 16 && p < 4
    ensures 64 <= r < 128
  {
    64 + id * 4 + p
  }

  /** `RF_GET_PRIORITY(x)`: bits 1:0. */
  function RfGetPriority(x: nat): nat { x % 4 }

  /** `RF_GET_PORTID(x)`: bits 5:2. */
  function RfGetPortId(x: nat): nat { (x / 4) % 16 }

  /** `RF_GET_TYPEID(x)`: bits 7:6 and above. */
  function RfGetTypeId(x: nat): nat { x / 64 }

  /** `RF_MAKE_TYPEPORTID(t, p)`: the occupancy key of a port. */
  function RfMakeTypePortId(t: nat, p: nat): nat { t * 16 + p }

  /** The issue queue's decoding of `IntRD(id, p)` gives back (integer file, id, p). */
  lemma IntRdDecodes(id: nat, p: nat)
    requires id < 16 && p < 4
    ensures RfGetTypeId(IntRd(id, p)) == RfIntId
    ensures RfGetPortId(IntRd(id, p)) == id
    ensures RfGetPriority(IntRd(id, p)) == p
  {
    var x := IntRd(id, p);
    DivModUnique(x, 4, id, p);
    DivModUnique(x, 64, 0, x);
    DivModUnique(id, 16, 0, id);
  }

  /** The issue queue's decoding of `FpRD(id, p)` gives back (floating-point file, id, p). */
  lemma FpRdDecodes(id: nat, p: nat)
    requires id < 16 && p < 4
    ensures RfGetTypeId(FpRd(id, p)) == RfFpId
    ensures RfGetPortId(FpRd(id, p)) == id
    ensures RfGetPriority(FpRd(id, p)) == p
  {
    var x := FpRd(id, p);
    DivModUnique(x, 4, 16 + id, p);
    DivModUnique(x, 64, 1, id * 4 + p);
    DivModUnique(16 + id, 16, 1, id);
  }

  /** Every encoding is the packing of the triple it decodes to. */
  lemma {:induction false} DecodeEncode(x: nat)
    requires x < 128
    ensures RfGetTypeId(x) < 2 && RfGetPortId(x) < 16 && RfGetPriority(x) < 4
    ensures x == RfGetTypeId(x) * 64 + RfGetPortId(x) * 4 + RfGetPriority(x)
  {
    var t, rest := x / 64, x % 64;
    assert x == t * 64 + rest;
    assert rest == (rest / 4) * 4 + rest % 4;
    assert (x / 4) % 16 == rest / 4 && x % 4 == rest % 4 by {
      assert x == (t * 16 + rest / 4) * 4 + rest % 4;
    }
  }

  /** Distinct (type, port, priority) triples give distinct read-port encodings. */
  lemma ReadPortsDistinct(t1: nat, id1: nat, p1: nat, t2: nat, id2: nat, p2: nat)
    requires t1 < 2 && t2 < 2 && id1 < 16 && id2 < 16 && p1 < 4 && p2 < 4
    requires (t1, id1, p1) != (t2, id2, p2)
    ensures (if t1 == RfIntId then IntRd(id1, p1) else FpRd(id1, p1))
         != (if t2 == RfIntId then IntRd(id2, p2) else FpRd(id2, p2))
  {
  }

  /** The occupancy key of any integer or floating-point port stays below `MAXVAL_TYPEPORTID`,
   *  and distinct (type, port) pairs get distinct keys. */
  lemma TypePortIdBounds(t: nat, p: nat, t': nat, p': nat)
    requires t < 2 && p < 16 && t' < 2 && p' < 16
    ensures RfMakeTypePortId(t, p) < MaxTypePortId
    ensures RfMakeTypePortId(t, p) == RfMakeTypePortId(t', p') ==> t == t' && p == p'
  {
  }
}
