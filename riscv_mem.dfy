/**
 * RISC-V memory instructions: the text a load or a store disassembles to,
 * and the store-data micro-op that moves the value to be stored into its
 * store-queue entry.
 */
module RiscvMem {
  import opened Common
  import Nemu

  // ---------------------------------------------------------------------
  // Disassembly

  /** A memory instruction as disassembly sees it: the mnemonic, the names of its
   *  destination and source registers (as `registerName` renders them), and the offset. */
  datatype MemInst = MemInst(mnemonic: string, dests: seq<string>, srcs: seq<string>, offset: int)

  /** `<mnemonic> <reg>, <offset>(<base>)`, the shape shared by loads and stores. */
  function Format(mnemonic: string, reg: string, offset: int, base: string): (s: string)
    ensures |s| > |mnemonic| && s[..|mnemonic|] == mnemonic && s[|mnemonic|] == ' '
    ensures s[|s| - 1] == ')'
  {
    Joined(mnemonic, reg, IntToString(offset), base)
  }

  /** The four fields with their separators, grouped from the right. */
  function Joined(mnemonic: string, reg: string, offset: string, base: string): string
  {
    mnemonic + ([' '] + (reg + ([','] + ([' '] + (offset + (['('] + (base + [')'])))))))
  }

  /** `Load::generateDisassembly`: the register shown is destination 0, the base is source 0. */
  function LoadDisassembly(inst: MemInst): (s: string)
    requires |inst.dests| >= 1 && |inst.srcs| >= 1
    ensures NameableMnemonic(inst) && NameableRegister(inst.dests[0]) ==>
      ParseMemDisassembly(s) == Some(Operands(inst.mnemonic, inst.dests[0], IntToString(inst.offset), inst.srcs[0]))
  {
    var s := Format(inst.mnemonic, inst.dests[0], inst.offset, inst.srcs[0]);
    if NameableMnemonic(inst) && NameableRegister(inst.dests[0]) then
      ParseFormat(inst.mnemonic, inst.dests[0], inst.offset, inst.srcs[0]);
      s
    else s
  }

  /** `Store::generateDisassembly`: the register shown is source 1, the data to store;
   *  the base is source 0. */
  function StoreDisassembly(inst: MemInst): (s: string)
    requires |inst.srcs| >= 2
    ensures NameableMnemonic(inst) && NameableRegister(inst.srcs[1]) ==>
      ParseMemDisassembly(s) == Some(Operands(inst.mnemonic, inst.srcs[1], IntToString(inst.offset), inst.srcs[0]))
  {
    var s := Format(inst.mnemonic, inst.srcs[1], inst.offset, inst.srcs[0]);
    if NameableMnemonic(inst) && NameableRegister(inst.srcs[1]) then
      ParseFormat(inst.mnemonic, inst.srcs[1], inst.offset, inst.srcs[0]);
      s
    else s
  }

  /** The text between the separators: a mnemonic has no blank, a register name no comma. */
  predicate NameableMnemonic(inst: MemInst) { ' ' !in inst.mnemonic }
  predicate NameableRegister(r: string) { ',' !in r }

  // Reading the text back, the reference the two renderings are checked against.

  datatype Operands = Operands(mnemonic: string, reg: string, offset: string, base: string)

  /** The offset text holds no parenthesis: a sign and decimal digits only. */
  lemma OffsetTextPlain(offset: int)
    ensures '(' !in IntToString(offset)
  {
    var t := IntToString(offset);
    if offset < 0 {
      assert t == "-" + t[1..];
      assert forall c :: c in t[1..] ==> '0' <= c <= '9';
    } else {
      assert forall c :: c in t ==> '0' <= c <= '9';
    }
  }

  /** Distinct offsets are written differently, so the offset can be read back. */
  lemma OffsetTextInjective(a: int, b: int)
    requires IntToString(a) == IntToString(b)
    ensures a == b
  {
    var t := IntToString(a);
    if a < 0 && b < 0 {
      assert t[1..] == NatToString(-a) && t[1..] == NatToString(-b);
      NatToStringInjective(-a, -b);
    } else if a >= 0 && b >= 0 {
      NatToStringInjective(a, b);
    }
  }

  /** Splits `<mnemonic> <reg>, <offset>(<base>)` at the first blank, the first comma that
   *  follows, and the first parenthesis after that; the text must end in `)`. */
  function ParseMemDisassembly(s: string): (r: Option<Operands>)
    ensures r.Some? ==> s == Joined(r.value.mnemonic, r.value.reg, r.value.offset, r.value.base)
  {
    match SplitAtFirst(s, ' ')
    case None => None
    case Some((mnemonic, rest)) =>
      match ParseRegister(rest)
      case None => None
      case Some((reg, offset, base)) => Some(Operands(mnemonic, reg, offset, base))
  }

  /** `<reg>, <offset>(<base>)` */
  function ParseRegister(s: string): (r: Option<(string, string, string)>)
    ensures r.Some? ==> s == r.value.0 + ([','] + ([' '] + (r.value.1 + (['('] + (r.value.2 + [')'])))))
  {
    match SplitAtFirst(s, ',')
    case None => None
    case Some((reg, rest)) =>
      if rest == [] || rest[0] != ' ' then None
      else
        match ParseAddress(rest[1..])
        case None => None
        case Some((offset, base)) =>
          RestoreFirst(rest, offset + (['('] + (base + [')'])));
          Some((reg, offset, base))
  }

  lemma RestoreFirst(s: string, t: string)
    requires |s| > 0 && s[1..] == t
    ensures s == [s[0]] + t
  {
  }

  lemma RestoreLast(s: string)
    requires |s| > 0
    ensures s == s[..|s| - 1] + [s[|s| - 1]]
  {
  }

  /** `<offset>(<base>)` */
  function ParseAddress(s: string): (r: Option<(string, string)>)
    ensures r.Some? ==> s == r.value.0 + (['('] + (r.value.1 + [')']))
  {
    match SplitAtFirst(s, '(')
    case None => None
    case Some((offset, rest)) =>
      if rest == [] || rest[|rest| - 1] != ')' then None
      else
        RestoreLast(rest);
        Some((offset, rest[..|rest| - 1]))
  }

  lemma ParseAddressOf(offset: string, base: string)
    requires '(' !in offset
    ensures ParseAddress(offset + (['('] + (base + [')']))) == Some((offset, base))
  {
    var tail := base + [')'];
    SplitAtFirstOf(offset, '(', tail);
    assert tail[..|tail| - 1] == base;
  }

  lemma ParseRegisterOf(reg: string, offset: string, base: string)
    requires ',' !in reg && '(' !in offset
    ensures ParseRegister(reg + ([','] + ([' '] + (offset + (['('] + (base + [')'])))))) == Some((reg, offset, base))
  {
    var address := offset + (['('] + (base + [')']));
    SplitAtFirstOf(reg, ',', [' '] + address);
    assert ([' '] + address)[1..] == address;
    ParseAddressOf(offset, base);
  }

  lemma ParseFormat(mnemonic: string, reg: string, offset: int, base: string)
    requires ' ' !in mnemonic && ',' !in reg
    ensures ParseMemDisassembly(Format(mnemonic, reg, offset, base))
         == Some(Operands(mnemonic, reg, IntToString(offset), base))
  {
    var off := IntToString(offset);
    var rest := reg + ([','] + ([' '] + (off + (['('] + (base + [')'])))));
    SplitAtFirstOf(mnemonic, ' ', rest);
    OffsetTextPlain(offset);
    ParseRegisterOf(reg, off, base);
  }

  // ---------------------------------------------------------------------
  // StoreData::execute

  /** The split-store progress flags the store-data micro-op sets on its entry. */
  datatype StoreStatus = DataReady | StdPipeFinish

  /** The store-queue entry of a split store: its data buffer, the instruction's own memData
   *  buffer when it has one, whether the store's address half faulted, and the statuses set. */
  class SqEntry {
    var data: seq<byte>
    var memData: Option<seq<byte>>
    var faulted: bool
    var status: set<StoreStatus>

    constructor(size: nat, memData: Option<seq<byte>>, faulted: bool)
      ensures |data| == size && this.memData == memData && this.faulted == faulted
      ensures status == {}
    {
      data := seq(size, _ => 0);
      this.memData := memData;
      this.faulted := faulted;
      status := {};
    }

    /**
     * `StoreData::execute` with operand 0 equal to `value`: unless the store already faulted,
     * the memsize low-order bytes of the value, least significant first as on the
     * little-endian hosts the simulator runs on, are copied to the start of the entry's
     * buffer and of memData, and the entry is marked DataReady and StdPipeFinish.
     * The micro-op itself never faults.
     */
    method StoreData(value: nat, memsize: nat) returns (fault: bool)
      requires value < U64 && memsize <= 8
      requires memsize <= |data|
      requires memData.Some? ==> memsize <= |memData.value|
      modifies this
      ensures !fault
      ensures faulted == old(faulted)
      ensures old(faulted) ==> data == old(data) && memData == old(memData) && status == old(status)
      ensures !old(faulted) ==>
        data == Nemu.LeBytes(value, memsize) + old(data)[memsize..]
        && memData == (if old(memData).Some?
                       then Some(Nemu.LeBytes(value, memsize) + old(memData).value[memsize..])
                       else None)
        && status == old(status) + {DataReady, StdPipeFinish}
    {
      if !faulted {
        var bytes := Nemu.LeBytes(value, memsize);
        if memData.Some? {
          memData := Some(bytes + memData.value[memsize..]);
        }
        data := bytes + data[memsize..];
        status := status + {DataReady};
        status := status + {StdPipeFinish};
      }
      fault := false;
    }
  }

  /** The bytes the store writes read back as the stored value truncated to memsize bytes. */
  lemma StoredBytesReadBack(value: nat, memsize: nat)
    ensures Nemu.LeValue(Nemu.LeBytes(value, memsize)) == value % Pow2(8 * memsize)
  {
    Nemu.LeValueOfLeBytes(value, memsize);
  }
}
