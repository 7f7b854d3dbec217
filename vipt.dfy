/**
 * Virtually-indexed, physically-tagged set-associative lookup. The set index
 * comes from the virtual address while the tag is every physical address bit
 * above the page offset. When the set-index and block-offset bits reach past
 * the page offset, the extra "alias" bits may differ between the virtual and
 * the physical address, so a block can sit in any of 2^aliasBits alias sets,
 * and a lookup by physical address probes all of them.
 *
 * An address is read as four fields, most significant first:
 *   high | alias (aliasBits) | in-page set bits (k) | block offset (blkShift)
 * where k = pageShift - blkShift and the set index is alias * 2^k + in-page bits.
 */
module Vipt {
  import opened Common

  /** Block size 2^blkShift, 2^setBits sets, page size 2^pageShift. The blocks lie inside
   *  a page, and the set-index bits reach at least to the end of the page offset. */
  datatype Geometry = Geometry(blkShift: nat, setBits: nat, pageShift: nat)
  {
    predicate Valid()
    {
      blkShift <= pageShift <= blkShift + setBits
    }

    /** The set-index bits that lie inside the page offset. */
    function InPageBits(): nat
      requires Valid()
    {
      pageShift - blkShift
    }

    /** `aliasBits`: the set-index and offset bits above the page offset. */
    function AliasBits(): (r: nat)
      requires Valid()
      ensures pageShift + r == blkShift + setBits
      ensures InPageBits() + r == setBits
    {
      blkShift + setBits - pageShift
    }
  }

  /** `extractSet` of the set-associative policy: (addr >> blkShift) & (numSets - 1). */
  function ExtractSet(g: Geometry, addr: nat): (r: nat)
    ensures r < Pow2(g.setBits)
  {
    DivMod(addr, Pow2(g.blkShift));
    DivMod(addr / Pow2(g.blkShift), Pow2(g.setBits));
    (addr / Pow2(g.blkShift)) % Pow2(g.setBits)
  }

  /** `extractTag`: every address bit above the page offset. */
  function ExtractTag(g: Geometry, addr: nat): nat
  {
    DivMod(addr, Pow2(g.pageShift));
    addr / Pow2(g.pageShift)
  }

  /** `regenerateAddr`: the tag shifted back above the page offset, and the in-page bits of
   *  the set index back above the block offset. */
  function RegenerateAddr(g: Geometry, tag: nat, setIndex: nat): nat
    requires g.Valid()
  {
    DivMod(setIndex, Pow2(g.InPageBits()));
    MulNonneg(tag, Pow2(g.pageShift));
    MulNonneg(setIndex % Pow2(g.InPageBits()), Pow2(g.blkShift));
    tag * Pow2(g.pageShift) + (setIndex % Pow2(g.InPageBits())) * Pow2(g.blkShift)
  }

  /** The alias address tried at step i of the search: addr with the aliasBits bits starting
   *  at pageShift cleared, then set to i. The bits above the field start at
   *  pageShift + aliasBits, which is blkShift + setBits. */
  function AliasAddr(g: Geometry, addr: nat, i: nat): nat
    requires g.Valid()
  {
    DivMod(addr, Pow2(g.blkShift + g.setBits));
    DivMod(addr, Pow2(g.pageShift));
    MulNonneg(addr / Pow2(g.blkShift + g.setBits), Pow2(g.blkShift + g.setBits));
    MulNonneg(i, Pow2(g.pageShift));
    (addr / Pow2(g.blkShift + g.setBits)) * Pow2(g.blkShift + g.setBits)
      + i * Pow2(g.pageShift) + addr % Pow2(g.pageShift)
  }

  // ---------------------------------------------------------------------
  // The four-field view of an address

  function Compose(g: Geometry, high: nat, alias: nat, inPage: nat, offset: nat): nat
    requires g.Valid()
  {
    MulNonneg(high, Pow2(g.AliasBits()));
    MulNonneg(high * Pow2(g.AliasBits()) + alias, Pow2(g.InPageBits()));
    MulNonneg((high * Pow2(g.AliasBits()) + alias) * Pow2(g.InPageBits()) + inPage, Pow2(g.blkShift));
    ((high * Pow2(g.AliasBits()) + alias) * Pow2(g.InPageBits()) + inPage) * Pow2(g.blkShift) + offset
  }

  predicate FieldsInRange(g: Geometry, alias: nat, inPage: nat, offset: nat)
    requires g.Valid()
  {
    alias < Pow2(g.AliasBits()) && inPage < Pow2(g.InPageBits()) && offset < Pow2(g.blkShift)
  }

  /** The three powers of two the fields are measured in, and how they combine. */
  lemma Radices(g: Geometry)
    requires g.Valid()
    ensures Pow2(g.InPageBits()) * Pow2(g.blkShift) == Pow2(g.pageShift)
    ensures Pow2(g.AliasBits()) * Pow2(g.InPageBits()) == Pow2(g.setBits)
    ensures Pow2(g.pageShift) * Pow2(g.AliasBits()) == Pow2(g.blkShift + g.setBits)
  {
    Pow2Add(g.InPageBits(), g.blkShift);
    Pow2Add(g.AliasBits(), g.InPageBits());
    Pow2Add(g.pageShift, g.AliasBits());
  }

  /** q * m + r, with r < m, stays below n * m when q < n. */
  lemma MixedRadixBound(q: nat, r: nat, m: nat, n: nat)
    requires r < m && q < n
    ensures q * m + r < n * m
  {
    MulMono(q + 1, n, m);
    MulDist(q, 1, m);
  }

  /** (q * a + r) * b == q * (a * b) + r * b */
  lemma Regroup(q: int, a: int, r: int, b: int)
    ensures (q * a + r) * b == q * (a * b) + r * b
  {
    MulDist(q * a, r, b);
    MulAssoc(q, a, b);
  }

  /** Every address is the composition of its four fields. */
  lemma Decompose(g: Geometry, addr: nat) returns (high: nat, alias: nat, inPage: nat, offset: nat)
    requires g.Valid()
    ensures FieldsInRange(g, alias, inPage, offset)
    ensures addr == Compose(g, high, alias, inPage, offset)
  {
    var A, K, B := Pow2(g.AliasBits()), Pow2(g.InPageBits()), Pow2(g.blkShift);
    DivMod(addr, B);
    var t1: nat := addr / B;
    DivMod(t1, K);
    var t2: nat := t1 / K;
    DivMod(t2, A);
    high, alias, inPage, offset := t2 / A, t2 % A, t1 % K, addr % B;
  }

  /** The set index of a composed address is its alias field over its in-page set bits. */
  lemma ComposeSet(g: Geometry, high: nat, alias: nat, inPage: nat, offset: nat)
    requires g.Valid() && FieldsInRange(g, alias, inPage, offset)
    ensures ExtractSet(g, Compose(g, high, alias, inPage, offset)) == alias * Pow2(g.InPageBits()) + inPage
  {
    var A, K, B := Pow2(g.AliasBits()), Pow2(g.InPageBits()), Pow2(g.blkShift);
    Radices(g);
    var above := (high * A + alias) * K + inPage;
    DivModUnique(Compose(g, high, alias, inPage, offset), B, above, offset);
    Regroup(high, A, alias, K);
    MixedRadixBound(alias, inPage, K, A);
    DivModUnique(above, A * K, high, alias * K + inPage);
  }

  /** The tag of a composed address is its high and alias fields; its page offset is its
   *  in-page set bits and block offset. */
  lemma ComposeTag(g: Geometry, high: nat, alias: nat, inPage: nat, offset: nat)
    requires g.Valid() && FieldsInRange(g, alias, inPage, offset)
    ensures ExtractTag(g, Compose(g, high, alias, inPage, offset)) == high * Pow2(g.AliasBits()) + alias
    ensures Compose(g, high, alias, inPage, offset) % Pow2(g.pageShift) == inPage * Pow2(g.blkShift) + offset
  {
    var A, K, B := Pow2(g.AliasBits()), Pow2(g.InPageBits()), Pow2(g.blkShift);
    Radices(g);
    Regroup(high * A + alias, K, inPage, B);
    MixedRadixBound(inPage, offset, B, K);
    DivModUnique(Compose(g, high, alias, inPage, offset), K * B, high * A + alias, inPage * B + offset);
  }

  /** Above the alias field, a composed address holds its high field. */
  lemma ComposeAbove(g: Geometry, high: nat, alias: nat, inPage: nat, offset: nat)
    requires g.Valid() && FieldsInRange(g, alias, inPage, offset)
    ensures Compose(g, high, alias, inPage, offset) / Pow2(g.blkShift + g.setBits) == high
  {
    var x := Compose(g, high, alias, inPage, offset);
    var P, A := Pow2(g.pageShift), Pow2(g.AliasBits());
    ComposeTag(g, high, alias, inPage, offset);
    assert x / P == high * A + alias;
    ModSplit(x, P, A);
    DivModUnique(high * A + alias, A, high, alias);
    MulPos(P, A);
    assert x / (P * A) == high;
    Radices(g);
  }

  // ---------------------------------------------------------------------
  // What the indexing policy promises

  /** `regenerateAddr(extractTag(a), set of a)` gives back a with its block offset cleared. */
  lemma RegenerateInvertsExtract(g: Geometry, addr: nat)
    requires g.Valid()
    ensures RegenerateAddr(g, ExtractTag(g, addr), ExtractSet(g, addr)) == addr - addr % Pow2(g.blkShift)
  {
    var tag, s := BlockAddrFields(g, addr);
    RegenerateUnfold(g, tag, ExtractSet(g, addr), s);
    var K, B, P := Pow2(g.InPageBits()), Pow2(g.blkShift), Pow2(g.pageShift);
    assert (tag * K + s) * B == tag * P + s * B by {
      Regroup(tag, K, s, B);
      Radices(g);
    }
  }

  lemma RegenerateUnfold(g: Geometry, tag: nat, setIndex: nat, s: nat)
    requires g.Valid() && s == setIndex % Pow2(g.InPageBits())
    ensures RegenerateAddr(g, tag, setIndex) == tag * Pow2(g.pageShift) + s * Pow2(g.blkShift)
  {
  }

  /** The block address of addr is its tag over its in-page set bits, shifted past the block
   *  offset. */
  lemma BlockAddrFields(g: Geometry, addr: nat) returns (tag: nat, s: nat)
    requires g.Valid()
    ensures tag == ExtractTag(g, addr) && s == ExtractSet(g, addr) % Pow2(g.InPageBits())
    ensures addr - addr % Pow2(g.blkShift) == (tag * Pow2(g.InPageBits()) + s) * Pow2(g.blkShift)
  {
    var h, a, s', o := Decompose(g, addr);
    var A, K, B := Pow2(g.AliasBits()), Pow2(g.InPageBits()), Pow2(g.blkShift);
    tag, s := h * A + a, s';
    assert ExtractTag(g, addr) == tag by {
      ComposeTag(g, h, a, s, o);
    }
    assert ExtractSet(g, addr) % K == s by {
      ComposeSet(g, h, a, s, o);
      DivModUnique(a * K + s, K, a, s);
    }
    DivModUnique(addr, B, tag * K + s, o);
  }

  /** Alias i keeps the page offset and the bits above the alias field. */
  lemma AliasKeepsOtherBits(g: Geometry, addr: nat, i: nat)
    requires g.Valid() && i < Pow2(g.AliasBits())
    ensures AliasAddr(g, addr, i) % Pow2(g.pageShift) == addr % Pow2(g.pageShift)
    ensures AliasAddr(g, addr, i) / Pow2(g.blkShift + g.setBits) == addr / Pow2(g.blkShift + g.setBits)
  {
    var h, a, s, o := Decompose(g, addr);
    AliasIsCompose(g, addr, h, a, s, o, i);
    ComposeTag(g, h, a, s, o);
    ComposeTag(g, h, i, s, o);
    ComposeAbove(g, h, a, s, o);
    ComposeAbove(g, h, i, s, o);
  }

  /** The alias field of alias i is i, and its set index is i over the original's in-page
   *  set bits. */
  lemma AliasAddrFields(g: Geometry, addr: nat, i: nat)
    requires g.Valid() && i < Pow2(g.AliasBits())
    ensures (AliasAddr(g, addr, i) / Pow2(g.pageShift)) % Pow2(g.AliasBits()) == i
    ensures ExtractSet(g, AliasAddr(g, addr, i)) == i * Pow2(g.InPageBits()) + ExtractSet(g, addr) % Pow2(g.InPageBits())
  {
    var h, a, s, o := Decompose(g, addr);
    AliasIsCompose(g, addr, h, a, s, o, i);
    ComposeSet(g, h, a, s, o);
    ComposeSet(g, h, i, s, o);
    ComposeTag(g, h, i, s, o);
    DivModUnique(a * Pow2(g.InPageBits()) + s, Pow2(g.InPageBits()), a, s);
    DivModUnique(h * Pow2(g.AliasBits()) + i, Pow2(g.AliasBits()), h, i);
  }

  lemma AliasIsCompose(g: Geometry, addr: nat, h: nat, a: nat, s: nat, o: nat, i: nat)
    requires g.Valid() && FieldsInRange(g, a, s, o) && i < Pow2(g.AliasBits())
    requires addr == Compose(g, h, a, s, o)
    ensures AliasAddr(g, addr, i) == Compose(g, h, i, s, o)
  {
    var A, K, B, P, M := Pow2(g.AliasBits()), Pow2(g.InPageBits()), Pow2(g.blkShift), Pow2(g.pageShift),
      Pow2(g.blkShift + g.setBits);
    ComposeTag(g, h, a, s, o);
    ComposeAbove(g, h, a, s, o);
    assert AliasAddr(g, addr, i) == h * M + i * P + (s * B + o);
    Radices(g);
    assert K * B == P && P * A == M;
    Regroup(h * A + i, K, s, B);
    assert Compose(g, h, i, s, o) == (h * A + i) * P + s * B + o;
    Regroup(h, A, i, P);
    MulAssoc(h, A, P);
  }

  /** Alias addresses are what distinguishes alias sets: the 2^aliasBits probes of one address
   *  visit 2^aliasBits different sets. */
  lemma AliasSetsDistinct(g: Geometry, addr: nat, i: nat, j: nat)
    requires g.Valid() && i < Pow2(g.AliasBits()) && j < Pow2(g.AliasBits()) && i != j
    ensures ExtractSet(g, AliasAddr(g, addr, i)) != ExtractSet(g, AliasAddr(g, addr, j))
  {
    AliasAddrFields(g, addr, i);
    AliasAddrFields(g, addr, j);
    var K := Pow2(g.InPageBits());
    var s := ExtractSet(g, addr) % K;
    DivModUnique(i * K + s, K, i, s);
    DivModUnique(j * K + s, K, j, s);
  }

  /** With 64-byte blocks, 8 sets and 256-byte pages there is one alias bit: an address of
   *  set 0 may also sit in set 4, and nowhere else. */
  lemma EightSetsOneAliasBit(addr: nat)
    requires ExtractSet(Geometry(6, 3, 8), addr) == 0
    ensures Geometry(6, 3, 8).AliasBits() == 1
    ensures ExtractSet(Geometry(6, 3, 8), AliasAddr(Geometry(6, 3, 8), addr, 0)) == 0
    ensures ExtractSet(Geometry(6, 3, 8), AliasAddr(Geometry(6, 3, 8), addr, 1)) == 4
  {
    var g := Geometry(6, 3, 8);
    assert Pow2(1) == 2 && Pow2(2) == 4;
    AliasAddrFields(g, addr, 0);
    AliasAddrFields(g, addr, 1);
  }

  /**
   * A block filled by virtual index is found by the physical lookup: when the virtual and
   * the physical address share their page offset, the set `findVictim` picks from the
   * virtual address is one of the alias sets `findBlock` probes for the physical address,
   * and the block's tag is the one it compares.
   */
  lemma VirtualSetIsProbed(g: Geometry, vaddr: nat, paddr: nat)
    requires g.Valid()
    requires vaddr % Pow2(g.pageShift) == paddr % Pow2(g.pageShift)
    ensures var i := (vaddr / Pow2(g.pageShift)) % Pow2(g.AliasBits());
      i < Pow2(g.AliasBits()) && ExtractSet(g, AliasAddr(g, paddr, i)) == ExtractSet(g, vaddr)
  {
    var i := (vaddr / Pow2(g.pageShift)) % Pow2(g.AliasBits());
    AliasAddrFields(g, paddr, i);
    SetFromFields(g, vaddr);
    SamePageOffset(g, vaddr, paddr);
  }

  /** The set index of an address is its alias field over its in-page set bits. */
  lemma SetFromFields(g: Geometry, x: nat)
    requires g.Valid()
    ensures ExtractSet(g, x) == ((x / Pow2(g.pageShift)) % Pow2(g.AliasBits())) * Pow2(g.InPageBits())
                                + ExtractSet(g, x) % Pow2(g.InPageBits())
  {
    var h, a, s, o := Decompose(g, x);
    ComposeTag(g, h, a, s, o);
    ComposeSet(g, h, a, s, o);
    DivModUnique(h * Pow2(g.AliasBits()) + a, Pow2(g.AliasBits()), h, a);
    DivModUnique(a * Pow2(g.InPageBits()) + s, Pow2(g.InPageBits()), a, s);
  }

  /** Addresses with the same page offset have the same in-page set bits. */
  lemma SamePageOffset(g: Geometry, x: nat, y: nat)
    requires g.Valid() && x % Pow2(g.pageShift) == y % Pow2(g.pageShift)
    ensures ExtractSet(g, x) % Pow2(g.InPageBits()) == ExtractSet(g, y) % Pow2(g.InPageBits())
  {
    var h, a, s, o := Decompose(g, x);
    ComposeTag(g, h, a, s, o);
    ComposeSet(g, h, a, s, o);
    var h', a', s', o' := Decompose(g, y);
    ComposeTag(g, h', a', s', o');
    ComposeSet(g, h', a', s', o');
    var K, B := Pow2(g.InPageBits()), Pow2(g.blkShift);
    DivModUnique(s * B + o, B, s, o);
    DivModUnique(s' * B + o', B, s', o');
    DivModUnique(a * K + s, K, a, s);
    DivModUnique(a' * K + s', K, a', s');
  }

  // ---------------------------------------------------------------------
  // The tag store

  /** A cache block: valid, its tag and security bit, the way recorded for it (or the
   *  "no way yet" marker) and the way of its last hit. */
  datatype Blk = Blk(valid: bool, tag: nat, secure: bool, way: nat, hitWay: nat)

  /** `matchTag`. */
  predicate MatchTag(b: Blk, tag: nat, isSecure: bool)
  {
    b.valid && b.tag == tag && b.secure == isSecure
  }

  /** A hit names the probe (alias i) and the block (set index, way) that matched. */
  datatype FindResult = Miss | Hit(alias: nat, index: nat, way: nat) | UnexpectedWay(recorded: nat)

  /** `floorLog2(n)` for n >= 1. */
  function FloorLog2(n: nat): (r: nat)
    requires n >= 1
    ensures Pow2(r) <= n < Pow2(r + 1)
  {
    if n == 1 then 0 else 1 + FloorLog2(n / 2)
  }

  /** `findVictim(pkt)`: the address whose set a victim is chosen from. */
  function VictimAddr(vaddr: Option<nat>, paddr: nat): (r: nat)
    ensures vaddr.Some? ==> r == vaddr.value
    ensures vaddr.None? ==> r == paddr
  {
    if vaddr.Some? then vaddr.value else paddr
  }

  class ViptSetAssoc {
    const g: Geometry
    const assoc: nat
    /** `DEFAULTWAYPRE`: the way value of a block with no recorded way. */
    const defaultWayPre: nat
    /** sets[s][w] is the block in set s, way w. */
    var sets: seq<seq<Blk>>

    predicate Valid()
      reads this
    {
      g.Valid() && |sets| == Pow2(g.setBits) && forall s :: 0 <= s < |sets| ==> |sets[s]| == assoc
    }

    /** The constructor takes `pageShift = floorLog2(page_size)` and asserts an even page size. */
    constructor(blkShift: nat, setBits: nat, pageSize: nat, assoc: nat, defaultWayPre: nat)
      requires pageSize >= 1 && pageSize % 2 == 0
      requires blkShift <= FloorLog2(pageSize) <= blkShift + setBits
      ensures Valid()
      ensures g == Geometry(blkShift, setBits, FloorLog2(pageSize))
      ensures this.assoc == assoc && this.defaultWayPre == defaultWayPre
      ensures forall s, w :: 0 <= s < |sets| && 0 <= w < assoc ==> !sets[s][w].valid
    {
      g := Geometry(blkShift, setBits, FloorLog2(pageSize));
      this.assoc := assoc;
      this.defaultWayPre := defaultWayPre;
      sets := seq(Pow2(setBits), _ => seq(assoc, _ => Blk(false, 0, false, defaultWayPre, 0)));
    }

    /** Probe (alias i, way w) holds a block matching the tag of addr. */
    predicate MatchAt(addr: nat, isSecure: bool, i: nat, w: nat)
      reads this
      requires Valid() && i < Pow2(g.AliasBits()) && w < assoc
    {
      MatchTag(sets[ExtractSet(g, AliasAddr(g, addr, i))][w], ExtractTag(g, addr), isSecure)
    }

    /** No probe before (i, w), in alias-then-way order, matches. */
    predicate NoMatchBefore(addr: nat, isSecure: bool, i: nat, w: nat)
      reads this
      requires Valid()
    {
      forall i', w' :: 0 <= i' < Pow2(g.AliasBits()) && 0 <= w' < assoc && (i' < i || (i' == i && w' < w))
        ==> !MatchAt(addr, isSecure, i', w')
    }

    /**
     * `findBlock`: probes the 2^aliasBits alias addresses in order, and in each alias set the
     * ways in order, comparing the tag of addr itself. The first match is returned with its
     * hit way set to the probed way; a matching block whose recorded way is neither the probed
     * way nor `DEFAULTWAYPRE` is fatal. No match is a miss.
     */
    method FindBlock(addr: nat, isSecure: bool) returns (r: FindResult)
      requires Valid()
      modifies this
      ensures Valid()
      ensures r.Miss? <==> old(NoMatchBefore(addr, isSecure, Pow2(g.AliasBits()), 0))
      ensures r.Miss? || r.UnexpectedWay? ==> sets == old(sets)
      ensures r.Hit? ==>
        && r.alias < Pow2(g.AliasBits()) && r.way < assoc
        && r.index == ExtractSet(g, AliasAddr(g, addr, r.alias))
        && old(MatchAt(addr, isSecure, r.alias, r.way))
        && old(NoMatchBefore(addr, isSecure, r.alias, r.way))
        && old(sets[r.index][r.way].way) in {r.way, defaultWayPre}
        && sets == old(sets[r.index := sets[r.index][r.way := sets[r.index][r.way].(hitWay := r.way)]])
      ensures r.UnexpectedWay? ==>
        exists i, w :: 0 <= i < Pow2(g.AliasBits()) && 0 <= w < assoc
          && old(MatchAt(addr, isSecure, i, w)) && old(NoMatchBefore(addr, isSecure, i, w))
          && r.recorded == old(sets[ExtractSet(g, AliasAddr(g, addr, i))][w].way) && r.recorded !in {w, defaultWayPre}
    {
      var tag := ExtractTag(g, addr);
      var n := Pow2(g.AliasBits());
      var i := 0;
      while i < n
        invariant 0 <= i <= n
        invariant NoMatchBefore(addr, isSecure, i, 0)
      {
        var index := ExtractSet(g, AliasAddr(g, addr, i));
        var w := 0;
        while w < assoc
          invariant 0 <= w <= assoc
          invariant NoMatchBefore(addr, isSecure, i, w)
        {
          var blk := sets[index][w];
          if MatchTag(blk, tag, isSecure) {
            assert MatchAt(addr, isSecure, i, w);
            if blk.way != w && blk.way != defaultWayPre {
              return UnexpectedWay(blk.way);
            }
            sets := sets[index := sets[index][w := blk.(hitWay := w)]];
            return Hit(i, index, w);
          }
          w := w + 1;
        }
        i := i + 1;
      }
      return Miss;
    }

    /** `findVictim(pkt)` picks its victim from the set of the virtual address when the request
     *  carries one, otherwise from the set of the packet address. Which way of that set is
     *  replaced is the replacement policy's choice. */
    method FindVictimSet(vaddr: Option<nat>, paddr: nat) returns (index: nat)
      requires Valid()
      ensures index < |sets|
      ensures index == ExtractSet(g, VictimAddr(vaddr, paddr))
      ensures vaddr.Some? && vaddr.value % Pow2(g.pageShift) == paddr % Pow2(g.pageShift) ==>
        exists i :: 0 <= i < Pow2(g.AliasBits()) && index == ExtractSet(g, AliasAddr(g, paddr, i))
    {
      index := ExtractSet(g, VictimAddr(vaddr, paddr));
      if vaddr.Some? && vaddr.value % Pow2(g.pageShift) == paddr % Pow2(g.pageShift) {
        VirtualSetIsProbed(g, vaddr.value, paddr);
      }
    }
  }
}
