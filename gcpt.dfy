/**
 * The GCPT device: a window of zero-initialised memory on the programmed-I/O
 * bus, [pioAddr, pioAddr + pioSize), into which a checkpoint restorer is
 * loaded. Reads copy bytes out of the window and writes copy bytes in; both
 * answer after the fixed `pioDelay`.
 */
module Gcpt {
  import opened Common

  /**
   * The guard both accesses assert: the access starts inside the window, ends
   * strictly before its end, and is at most eight bytes long.
   */
  predicate Accepts(pioAddr: nat, pioSize: nat, addr: nat, size: nat)
  {
    addr >= pioAddr && addr + size < pioAddr + pioSize && size <= 8
  }

  /** Because the end bound is strict, no accepted access covers the window's last byte. */
  lemma LastByteUnreachable(pioAddr: nat, pioSize: nat, addr: nat, size: nat)
    requires Accepts(pioAddr, pioSize, addr, size)
    ensures pioSize >= 1
    ensures addr - pioAddr + size <= pioSize - 1
  {
  }

  /** The size bytes at offset off. */
  function ReadAt(mem: seq<byte>, off: nat, size: nat): (r: seq<byte>)
    requires off + size <= |mem|
    ensures |r| == size
    ensures forall i :: 0 <= i < size ==> r[i] == mem[off + i]
  {
    mem[off..off + size]
  }

  /** mem with the bytes at offset off replaced by data. */
  function Splice(mem: seq<byte>, off: nat, data: seq<byte>): (r: seq<byte>)
    requires off + |data| <= |mem|
    ensures |r| == |mem|
    ensures forall i :: 0 <= i < |data| ==> r[off + i] == data[i]
    ensures forall i :: 0 <= i < |mem| && !(off <= i < off + |data|) ==> r[i] == mem[i]
  {
    mem[..off] + data + mem[off + |data|..]
  }

  /** A read at the address and size of the last write returns the written bytes. */
  lemma ReadAfterWrite(mem: seq<byte>, off: nat, data: seq<byte>)
    requires off + |data| <= |mem|
    ensures ReadAt(Splice(mem, off, data), off, |data|) == data
  {
  }

  /** A read that does not overlap the last write sees the bytes from before it. */
  lemma ReadBesideWrite(mem: seq<byte>, off: nat, data: seq<byte>, off': nat, size: nat)
    requires off + |data| <= |mem| && off' + size <= |mem|
    requires off' + size <= off || off + |data| <= off'
    ensures ReadAt(Splice(mem, off, data), off', size) == ReadAt(mem, off', size)
  {
  }

  class Gcpt {
    const pioAddr: nat
    const pioSize: nat
    const pioDelay: nat
    const pmem: array<byte>

    predicate Valid()
      reads this
    {
      pmem.Length == pioSize
    }

    /** The window is allocated at its full size and cleared. */
    constructor(pioAddr: nat, pioSize: nat, pioDelay: nat)
      ensures Valid()
      ensures this.pioAddr == pioAddr && this.pioSize == pioSize && this.pioDelay == pioDelay
      ensures fresh(pmem)
      ensures forall i :: 0 <= i < pmem.Length ==> pmem[i] == 0
    {
      this.pioAddr := pioAddr;
      this.pioSize := pioSize;
      this.pioDelay := pioDelay;
      pmem := new byte[pioSize](_ => 0);
    }

    /** `read`: the size bytes at addr - pioAddr; memory is left unchanged. */
    method Read(addr: nat, size: nat) returns (data: seq<byte>, delay: nat)
      requires Valid()
      requires Accepts(pioAddr, pioSize, addr, size)
      ensures data == ReadAt(pmem[..], addr - pioAddr, size)
      ensures delay == pioDelay
    {
      var offset := addr - pioAddr;
      data := pmem[offset..offset + size];
      delay := pioDelay;
    }

    /** `write`: the packet's size bytes are copied to addr - pioAddr; nothing else changes. */
    method Write(addr: nat, size: nat, data: seq<byte>) returns (delay: nat)
      requires Valid()
      requires Accepts(pioAddr, pioSize, addr, size)
      requires |data| == size
      modifies pmem
      ensures pmem[..] == Splice(old(pmem[..]), addr - pioAddr, data)
      ensures delay == pioDelay
    {
      var offset := addr - pioAddr;
      ghost var before := pmem[..];
      var i := 0;
      while i < size
        invariant 0 <= i <= size
        invariant pmem[..] == Splice(before, offset, data[..i])
      {
        assert Splice(before, offset, data[..i + 1])
            == Splice(before, offset, data[..i])[offset + i := data[i]];
        pmem[offset + i] := data[i];
        i := i + 1;
      }
      assert data[..size] == data;
      delay := pioDelay;
    }
  }
}
