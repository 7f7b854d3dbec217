/**
 * The glue between the simulator and the NEMU reference emulator loaded as
 * a shared library: NEMU calls back into the simulator to fetch, read and
 * write up to eight bytes of memory at a time, and the values cross the
 * boundary as little-endian byte buffers packed into a `uint64_t`.
 */
module Nemu {
  import opened Common

  // ---------------------------------------------------------------------
  // Little-endian byte strings

  /** The value of a little-endian byte string: s[0] is the least significant byte. */
  function LeValue(s: seq<byte>): nat
  {
    if s == [] then 0 else s[0] + 256 * LeValue(s[1..])
  }

  /** The n low-order bytes of v, least significant first. */
  function LeBytes(v: nat, n: nat): (r: seq<byte>)
    ensures |r| == n
  {
    if n == 0 then [] else [v % 256] + LeBytes(v / 256, n - 1)
  }

  lemma Pow2Byte(k: nat)
    ensures Pow2(8 * (k + 1)) == 256 * Pow2(8 * k)
  {
    Pow2Add(8, 8 * k);
    assert Pow2(8) == 256;
  }

  /** n bytes hold a value below 2^(8n). */
  lemma {:induction false} LeValueBound(s: seq<byte>)
    ensures LeValue(s) < Pow2(8 * |s|)
  {
    if s != [] {
      LeValueBound(s[1..]);
      Pow2Byte(|s| - 1);
    }
  }

  /** Appending a byte adds it at the next byte position. */
  lemma {:induction false} LeValueAppend(s: seq<byte>, b: byte)
    ensures LeValue(s + [b]) == LeValue(s) + b * Pow2(8 * |s|)
  {
    if s == [] {
      assert [b][1..] == [];
    } else {
      var t := s[1..];
      assert (s + [b])[1..] == t + [b];
      LeValueAppend(t, b);
      Pow2Byte(|t|);
      calc {
        LeValue(s + [b]);
        s[0] + 256 * LeValue(t + [b]);
        s[0] + 256 * (LeValue(t) + b * Pow2(8 * |t|));
        { MulDist(LeValue(t), b * Pow2(8 * |t|), 256); }
        s[0] + 256 * LeValue(t) + 256 * (b * Pow2(8 * |t|));
        { MulAssoc(b, Pow2(8 * |t|), 256); }
        LeValue(s) + b * (256 * Pow2(8 * |t|));
      }
    }
  }

  /** Byte i of LeBytes(v, n) is `(v >> 8i) & 0xFF`. */
  lemma {:induction false} LeBytesAt(v: nat, n: nat, i: nat)
    requires i < n
    ensures LeBytes(v, n)[i] == (v / Pow2(8 * i)) % 256
  {
    if i > 0 {
      LeBytesAt(v / 256, n - 1, i - 1);
      Pow2Byte(i - 1);
      ModSplit(v, 256, Pow2(8 * (i - 1)));
    }
  }

  /** Packing the n low bytes of v and reading them back gives v modulo 2^(8n). */
  lemma {:induction false} LeValueOfLeBytes(v: nat, n: nat)
    ensures LeValue(LeBytes(v, n)) == v % Pow2(8 * n)
  {
    if n > 0 {
      LeValueOfLeBytes(v / 256, n - 1);
      Pow2Byte(n - 1);
      ModSplit(v, 256, Pow2(8 * (n - 1)));
    }
  }

  /** Reading a byte string as a number and writing it back reproduces the bytes. */
  lemma {:induction false} LeBytesOfLeValue(s: seq<byte>)
    ensures LeBytes(LeValue(s), |s|) == s
  {
    if s != [] {
      DivModUnique(LeValue(s), 256, LeValue(s[1..]), s[0]);
      LeBytesOfLeValue(s[1..]);
    }
  }

  // ---------------------------------------------------------------------
  // The conversion routines

  /**
   * `array_to_uint64`: ORs byte i in at bit 8i. The accumulated value stays
   * below 2^(8i), so each OR adds. Lengths above 8 would shift by 64 bits or
   * more, which C++ leaves undefined; every caller asserts `len <= 8`.
   */
  method ArrayToUint64(a: array<byte>, len: int) returns (result: nat)
    requires 0 <= len <= 8 && len <= a.Length
    ensures result == LeValue(a[..len])
    ensures result < Pow2(8 * len)
  {
    result := 0;
    var i := 0;
    while i < len
      invariant 0 <= i <= len
      invariant result == LeValue(a[..i])
    {
      assert a[..i + 1] == a[..i] + [a[i]];
      LeValueAppend(a[..i], a[i]);
      result := result + a[i] * Pow2(8 * i);
      i := i + 1;
    }
    LeValueBound(a[..len]);
  }

  /** `uint64_to_array`: byte i of the array becomes `(value >> 8i) & 0xFF`. */
  method Uint64ToArray(value: nat, a: array<byte>, len: int)
    requires value < U64
    requires 0 <= len <= 8 && len <= a.Length
    modifies a
    ensures a[..len] == LeBytes(value, len)
    ensures a[len..] == old(a[len..])
  {
    var i := 0;
    while i < len
      invariant 0 <= i <= len
      invariant forall j :: 0 <= j < i ==> a[j] == LeBytes(value, len)[j]
      invariant a[i..] == old(a[i..])
    {
      LeBytesAt(value, len, i);
      a[i] := (value / Pow2(8 * i)) % 256;
      i := i + 1;
    }
  }

  // ---------------------------------------------------------------------
  // The CPU model

  /** Which of the CPU's two request ports an access goes through. */
  datatype Port = ICachePort | DCachePort

  /** The request a callback sends: physical, and tagged as an instruction fetch
   *  when it goes to the instruction port. */
  datatype Request = Request(addr: nat, size: nat, instFetch: bool, physical: bool, write: bool)

  class NemuCpu {
    /** Instructions NEMU reports as executed. */
    var instCnt: int

    constructor()
      ensures instCnt == 0
    {
      instCnt := 0;
    }

    function TotalInsts(): int
      reads this
    {
      instCnt
    }

    function TotalOps(): int
      reads this
    {
      instCnt
    }

    /**
     * One tick: NEMU executes one step and reports `res`. A non-positive
     * report ends the simulation, with exit code 0 for a good trap and 1
     * otherwise, and leaves the counter alone; a positive one is added to the
     * counter and the CPU ticks again.
     */
    method Tick(res: int) returns (exitCode: Option<int>)
      modifies this
      ensures res <= 0 ==> exitCode == Some(if res == 0 then 0 else 1) && instCnt == old(instCnt)
      ensures res > 0 ==> exitCode == None && instCnt == old(instCnt) + res
      ensures TotalInsts() == TotalOps() == instCnt
    {
      if res <= 0 {
        if res == 0 {
          exitCode := Some(0);
        } else {
          exitCode := Some(1);
        }
        return;
      }
      instCnt := instCnt + res;
      exitCode := None;
    }

    /**
     * `fetch` (instruction port) and `read` (data port): a zero-filled buffer
     * of len bytes is handed to the memory system in a physical read request.
     * `response` is what memory writes into the buffer, or None when the
     * packet comes back with an error, which stops the simulator.
     */
    method ReadPort(port: Port, addr: nat, len: int, response: Option<seq<byte>>)
      returns (req: Request, result: Option<nat>)
      requires 0 <= len <= 8
      requires response.Some? ==> |response.value| == len
      ensures req == Request(addr, len, port == ICachePort, true, false)
      ensures response.None? <==> result.None?
      ensures response.Some? ==> result == Some(LeValue(response.value))
      ensures result.Some? ==> result.value < Pow2(8 * len)
    {
      var buffer := new byte[len](_ => 0);
      req := Request(addr, len, port == ICachePort, true, false);
      if response.None? {
        return req, None;
      }
      var data := response.value;
      forall i | 0 <= i < len {
        buffer[i] := data[i];
      }
      assert buffer[..len] == data;
      var value := ArrayToUint64(buffer, len);
      result := Some(value);
    }

    /**
     * `write`: the low len bytes of `data`, least significant first, are sent
     * in a physical write request. `accepted` is false when the packet comes
     * back with an error, which stops the simulator.
     */
    method Write(addr: nat, len: int, data: nat, accepted: bool)
      returns (req: Request, payload: seq<byte>, ok: bool)
      requires data < U64
      requires 0 <= len <= 8
      ensures req == Request(addr, len, false, true, true)
      ensures payload == LeBytes(data, len)
      ensures LeValue(payload) == data % Pow2(8 * len)
      ensures ok == accepted
    {
      var buffer := new byte[len](_ => 0);
      Uint64ToArray(data, buffer, len);
      payload := buffer[..];
      LeValueOfLeBytes(data, len);
      req := Request(addr, len, false, true, true);
      ok := accepted;
    }
  }
}
