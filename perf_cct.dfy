/**
 * The commit-trace recorder of the out-of-order CPU. Each in-flight
 * instruction owns a slot of a ring of 1500 records, chosen by its sequence
 * number; the pipeline stamps the tick at which the instruction reached each
 * stage, and at commit the record becomes one SQL `INSERT` row for the
 * `LifeTimeCommitTrace` table. With tracing disabled every call does nothing.
 */
module PerfCct {
  import opened Common

  /** `MaxMetas`: the number of record slots, the most instructions in flight. */
  const MaxMetas: nat := 1500

  /** `InstMeta`: the sequence number, one tick per pipeline position up to and including
   *  commit, the disassembly and the pc of the instruction that last took the slot. */
  datatype InstMeta = InstMeta(sn: nat, posTick: seq<nat>, disasm: string, pc: nat)

  /** The instruction fields a record is reset from. */
  datatype Inst = Inst(seqNum: nat, pc: nat, disasm: string)

  /** `getMeta`: the slot of sequence number sn. */
  function Slot(sn: nat): (i: nat)
    ensures i < MaxMetas
  {
    sn % MaxMetas
  }

  /** Two sequence numbers share a slot exactly when they are congruent modulo 1500; in
   *  particular numbers fewer than 1500 apart never do. */
  lemma SlotsShared(sn: nat, sn': nat)
    ensures Slot(sn) == Slot(sn') <==> (sn - sn') % MaxMetas == 0
    ensures sn < sn' < sn + MaxMetas ==> Slot(sn) != Slot(sn')
  {
    var q, q' := sn / MaxMetas, sn' / MaxMetas;
    var r, r' := sn % MaxMetas, sn' % MaxMetas;
    assert sn - sn' == (q - q') * MaxMetas + (r - r');
    if r == r' {
      DivModUnique(sn - sn', MaxMetas, q - q', 0);
    } else if r > r' {
      DivModUnique(sn - sn', MaxMetas, q - q', r - r');
    } else {
      DivModUnique(sn - sn', MaxMetas, q - q' - 1, MaxMetas + r - r');
    }
  }

  // ---------------------------------------------------------------------
  // Comma-separated lists

  /** The items separated by commas. */
  function JoinComma(items: seq<string>): string
  {
    if |items| == 0 then ""
    else if |items| == 1 then items[0]
    else items[0] + ([','] + JoinComma(items[1..]))
  }

  lemma {:induction false} JoinCommaSnoc(items: seq<string>, x: string)
    requires |items| >= 1
    ensures JoinComma(items + [x]) == JoinComma(items) + ([','] + x)
  {
    if |items| > 1 {
      assert (items + [x])[1..] == items[1..] + [x];
      JoinCommaSnoc(items[1..], x);
    }
  }

  /** Cutting text at every comma. */
  function SplitComma(s: string): (items: seq<string>)
    ensures |items| >= 1
  {
    SplitAll(s, ',')
  }

  predicate NoComma(items: seq<string>)
  {
    forall i :: 0 <= i < |items| ==> ',' !in items[i]
  }

  /** A list of comma-free items can be read back from its joined form. */
  lemma {:induction false} SplitJoinComma(items: seq<string>)
    requires |items| >= 1 && NoComma(items)
    ensures SplitComma(JoinComma(items)) == items
  {
    if |items| == 1 {
      assert SplitAtFirst(items[0], ',') == None;
    } else {
      SplitAtFirstOf(items[0], ',', JoinComma(items[1..]));
      SplitJoinComma(items[1..]);
    }
  }

  /** Decimal numbers carry no comma. */
  lemma DecimalsNoComma(ticks: seq<nat>)
    ensures NoComma(Decimals(ticks))
  {
    forall i | 0 <= i < |ticks| ensures ',' !in NatToString(ticks[i]) {
      var t := NatToString(ticks[i]);
      assert forall c :: c in t ==> '0' <= c <= '9';
    }
  }

  function Decimals(ticks: seq<nat>): (r: seq<string>)
    ensures |r| == |ticks| && forall i :: 0 <= i < |ticks| ==> r[i] == NatToString(ticks[i])
  {
    seq(|ticks|, i requires 0 <= i < |ticks| => NatToString(ticks[i]))
  }

  // ---------------------------------------------------------------------
  // Rows

  /** The statement text before the values: the table's columns named by the record strings. */
  function InsertPrefix(names: seq<string>): string
  {
    "INSERT INTO LifeTimeCommitTrace(" + JoinComma(names) + ") VALUES("
  }

  /** The row of a record: the ticks in position order, the quoted disassembly, the pc. */
  function Row(prefix: string, meta: InstMeta): string
  {
    prefix + JoinComma(Decimals(meta.posTick)) + ",'" + meta.disasm + "'," + NatToString(meta.pc) + ");"
  }

  /** The ticks can be read back from a row, in position order. */
  lemma RowTicksReadBack(prefix: string, meta: InstMeta)
    requires |meta.posTick| >= 1
    ensures var ticks := JoinComma(Decimals(meta.posTick));
      Row(prefix, meta) == prefix + ticks + ",'" + meta.disasm + "'," + NatToString(meta.pc) + ");"
      && |SplitComma(ticks)| == |meta.posTick|
      && forall i :: 0 <= i < |meta.posTick| ==>
           IsDigits(SplitComma(ticks)[i]) && DigitsValue(SplitComma(ticks)[i]) == meta.posTick[i]
  {
    DecimalsNoComma(meta.posTick);
    SplitJoinComma(Decimals(meta.posTick));
    forall i | 0 <= i < |meta.posTick| ensures DigitsValue(NatToString(meta.posTick[i])) == meta.posTick[i] {
      NatToStringRoundTrip(meta.posTick[i]);
    }
  }

  /** `InstMeta::reset`: the record of inst, with one zero tick per position up to commit. */
  function Reset(inst: Inst, atCommit: nat): (m: InstMeta)
    ensures m.sn == inst.seqNum && m.pc == inst.pc && m.disasm == inst.disasm
    ensures |m.posTick| == atCommit + 1 && forall i :: 0 <= i < |m.posTick| ==> m.posTick[i] == 0
  {
    InstMeta(inst.seqNum, seq(atCommit + 1, _ => 0), inst.disasm, inst.pc)
  }

  /** Builds the prefix as the constructor streams it: the first name, then comma and name. */
  method BuildInsertPrefix(names: seq<string>) returns (cmd: string)
    requires |names| >= 1
    ensures cmd == InsertPrefix(names)
  {
    var columns := names[0];
    var i := 1;
    while i < |names|
      invariant 1 <= i <= |names|
      invariant columns == JoinComma(names[..i])
    {
      JoinCommaSnoc(names[..i], names[i]);
      assert names[..i + 1] == names[..i] + [names[i]];
      columns := columns + "," + names[i];
      i := i + 1;
    }
    assert names[..i] == names;
    cmd := "INSERT INTO LifeTimeCommitTrace(" + columns + ") VALUES(";
  }

  /** Streams a row: the prefix, the first tick, then comma and tick for the rest. */
  method BuildRow(prefix: string, meta: InstMeta) returns (row: string)
    requires |meta.posTick| >= 1
    ensures row == Row(prefix, meta)
  {
    var ticks := Decimals(meta.posTick);
    var text := NatToString(meta.posTick[0]);
    assert ticks[..1] == [text];
    var i := 1;
    while i < |meta.posTick|
      invariant 1 <= i <= |meta.posTick|
      invariant text == JoinComma(ticks[..i])
    {
      JoinCommaSnoc(ticks[..i], ticks[i]);
      assert ticks[..i + 1] == ticks[..i] + [ticks[i]];
      text := text + "," + NatToString(meta.posTick[i]);
      i := i + 1;
    }
    assert ticks[..i] == ticks;
    row := prefix + text + ",'" + meta.disasm + "'," + NatToString(meta.pc) + ");";
  }

  /**
   * `PerfCCT`. `names` are the record strings, one per column, and `atCommit` is the
   * position of commit, the last position a tick is kept for. `executed` lists the
   * statements handed to the database, oldest first.
   */
  class PerfCct {
    const enabled: bool
    const names: seq<string>
    const atCommit: nat
    const sqlInsertCmd: string
    var metas: seq<InstMeta>
    var executed: seq<string>

    predicate Valid()
      reads this
    {
      (enabled ==> |metas| == MaxMetas && sqlInsertCmd == InsertPrefix(names))
      && (!enabled ==> metas == [] && sqlInsertCmd == "")
    }

    /** With tracing enabled the ring gets its 1500 slots and the prefix is built. */
    constructor(enable: bool, names: seq<string>, atCommit: nat)
      requires |names| >= 1
      ensures Valid() && enabled == enable && this.names == names && this.atCommit == atCommit
      ensures executed == []
      ensures enable ==> forall i :: 0 <= i < MaxMetas ==> metas[i] == InstMeta(0, [], "", 0)
    {
      enabled := enable;
      this.names := names;
      this.atCommit := atCommit;
      executed := [];
      if enable {
        metas := seq(MaxMetas, _ => InstMeta(0, [], "", 0));
        var cmd := BuildInsertPrefix(names);
        sqlInsertCmd := cmd;
      } else {
        metas := [];
        sqlInsertCmd := "";
      }
    }

    /** `createMeta`: resets the slot of the instruction's sequence number. */
    method CreateMeta(inst: Inst)
      requires Valid()
      modifies this
      ensures Valid() && executed == old(executed)
      ensures enabled ==> metas == old(metas)[Slot(inst.seqNum) := Reset(inst, atCommit)]
      ensures !enabled ==> metas == old(metas)
    {
      if !enabled {
        return;
      }
      metas := metas[Slot(inst.seqNum) := Reset(inst, atCommit)];
    }

    /**
     * `updateInstPos`: stamps `curTick` at position pos of sn's slot. The position is
     * bounds-checked; an out-of-range one raises, which is reported as `ok == false`
     * with nothing changed.
     */
    method UpdateInstPos(sn: nat, pos: nat, curTick: nat) returns (ok: bool)
      requires Valid()
      modifies this
      ensures Valid() && executed == old(executed)
      ensures ok <==> !enabled || pos < |old(metas)[Slot(sn)].posTick|
      ensures enabled && ok ==>
        metas == old(metas)[Slot(sn) := old(metas)[Slot(sn)].(posTick := old(metas)[Slot(sn)].posTick[pos := curTick])]
      ensures !ok || !enabled ==> metas == old(metas)
    {
      if !enabled {
        return true;
      }
      var meta := metas[Slot(sn)];
      if pos >= |meta.posTick| {
        return false;
      }
      metas := metas[Slot(sn) := meta.(posTick := meta.posTick[pos := curTick])];
      ok := true;
    }

    /** `commitMeta`: hands the row of sn's slot to the database; the slots are unchanged.
     *  The slot must have been reset, so that it holds at least one tick. */
    method CommitMeta(sn: nat)
      requires Valid()
      requires enabled ==> |metas[Slot(sn)].posTick| >= 1
      modifies this
      ensures Valid() && metas == old(metas)
      ensures enabled ==> executed == old(executed) + [Row(sqlInsertCmd, metas[Slot(sn)])]
      ensures !enabled ==> executed == old(executed)
    {
      if !enabled {
        return;
      }
      var row := BuildRow(sqlInsertCmd, metas[Slot(sn)]);
      executed := executed + [row];
    }
  }
}
