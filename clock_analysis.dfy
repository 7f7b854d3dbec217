/**
 * The offline commit-trace analyser. It reads the rows of the
 * `LifeTimeCommitTrace` table inside a window of commit cycles, turns stage
 * ticks into cycles and stored pcs back into unsigned values, and then either
 * lists the rows of a pc range, or cuts the trace of (pc, instruction) pairs
 * into basic blocks and counts how often each block occurs.
 */
module ClockAnalysis {
  import opened Common

  // ---------------------------------------------------------------------
  // Branch detection

  /** The characters `str.split()` cuts at: those `str.isspace()` accepts, the ASCII
   *  controls \t to \r and \x1c to \x1f, the space, and the Unicode line, paragraph
   *  and space separators. */
  const Blanks: set<char> := {
    '\U{0009}', '\U{000a}', '\U{000b}', '\U{000c}', '\U{000d}',
    '\U{001c}', '\U{001d}', '\U{001e}', '\U{001f}', '\U{0020}',
    '\U{0085}', '\U{00a0}', '\U{1680}',
    '\U{2000}', '\U{2001}', '\U{2002}', '\U{2003}', '\U{2004}', '\U{2005}',
    '\U{2006}', '\U{2007}', '\U{2008}', '\U{2009}', '\U{200a}',
    '\U{2028}', '\U{2029}', '\U{202f}', '\U{205f}', '\U{3000}'}

  predicate IsBlank(c: char)
  {
    c in Blanks
  }

  /** The run of non-blank characters s starts with. */
  function Word(s: string): string
  {
    if s == [] || IsBlank(s[0]) then [] else [s[0]] + Word(s[1..])
  }

  /** `s.split()[0]`: the first blank-free word, or None where the index raises because s
   *  holds only blanks. */
  function FirstWord(s: string): Option<string>
  {
    if s == [] then None else if IsBlank(s[0]) then FirstWord(s[1..]) else Some(Word(s))
  }

  lemma {:induction false} WordIsRun(s: string)
    ensures |Word(s)| <= |s| && s[..|Word(s)|] == Word(s)
    ensures forall i :: 0 <= i < |Word(s)| ==> !IsBlank(Word(s)[i])
    ensures |Word(s)| < |s| ==> IsBlank(s[|Word(s)|])
  {
    if s != [] && !IsBlank(s[0]) {
      WordIsRun(s[1..]);
    }
  }

  /** The first word is there exactly when s holds a non-blank character; it is a non-empty
   *  run of non-blank characters that starts after blanks only and ends at a blank or at the
   *  end of s. */
  lemma {:induction false} FirstWordIsWord(s: string)
    ensures FirstWord(s).None? <==> forall i :: 0 <= i < |s| ==> IsBlank(s[i])
    ensures FirstWord(s).Some? ==>
      exists b :: 0 <= b < |s| && (forall i :: 0 <= i < b ==> IsBlank(s[i])) && FirstWord(s).value == Word(s[b..])
    ensures FirstWord(s).Some? ==>
      |FirstWord(s).value| >= 1 && forall i :: 0 <= i < |FirstWord(s).value| ==> !IsBlank(FirstWord(s).value[i])
  {
    if s != [] {
      if IsBlank(s[0]) {
        FirstWordIsWord(s[1..]);
        if FirstWord(s).Some? {
          var b :| 0 <= b < |s[1..]| && (forall i :: 0 <= i < b ==> IsBlank(s[1..][i])) && FirstWord(s[1..]).value == Word(s[1..][b..]);
          assert s[1..][b..] == s[b + 1..];
          assert forall i :: 0 <= i < b + 1 ==> IsBlank(s[i]) by {
            forall i | 0 <= i < b + 1 ensures IsBlank(s[i]) {
              if i > 0 { assert s[i] == s[1..][i - 1]; }
            }
          }
        } else {
          forall i | 0 <= i < |s| ensures IsBlank(s[i]) {
            if i > 0 { assert s[i] == s[1..][i - 1]; }
          }
        }
      } else {
        WordIsRun(s);
        assert s[0..] == s;
      }
    }
  }

  /** The mnemonics the analyser treats as ending a basic block. */
  const BranchMnemonics: seq<string> :=
    ["beq", "bne", "blt", "bge", "bltu", "bgeu", "beqz", "bnez", "j", "jal", "jalr", "ret",
     "c_beqz", "c_bnez", "c_j", "c_jal", "c_jr", "c_jalr"]

  predicate IsPrefix(p: string, s: string)
  {
    |p| <= |s| && s[..|p|] == p
  }

  /** `IsBranchInst`: the first word starts with one of the mnemonics. None when the
   *  instruction text has no word, where the source raises. */
  function IsBranchInst(instr: string): (r: Option<bool>)
    ensures r.None? <==> FirstWord(instr).None?
  {
    match FirstWord(instr)
    case None => None
    case Some(w) => Some(exists i :: 0 <= i < |BranchMnemonics| && IsPrefix(BranchMnemonics[i], w))
  }

  /** The file separator \x1c is a blank as well: "\x1cj" has the word "j", a branch,
   *  and "\x1c" has no word at all. */
  lemma FileSeparatorIsBlank()
    ensures FirstWord("\U{001c}") == None
    ensures FirstWord("\U{001c}j") == Some("j")
    ensures IsBranchInst("\U{001c}j") == Some(true)
  {
    assert "\U{001c}"[1..] == [];
    assert "\U{001c}j"[1..] == "j";
    assert "j"[1..] == [];
    assert Word("j") == ['j'] + Word([]) == "j";
    assert FirstWord("\U{001c}j") == FirstWord("j") == Some("j");
    assert IsPrefix(BranchMnemonics[8], "j");
  }

  /** Because the test is by prefix, six mnemonics decide it: every word starting with `j`
   *  counts (a `jal`, a `jalr`, but any other word beginning with that letter as well), and so
   *  does every word starting with `beq`, `bne`, `blt`, `bge`, `ret` or `c_j`; `c_beqz` and
   *  `c_bnez` complete the list. */
  lemma BranchByPrefixes(w: string)
    ensures (exists i :: 0 <= i < |BranchMnemonics| && IsPrefix(BranchMnemonics[i], w))
        <==> (IsPrefix("beq", w) || IsPrefix("bne", w) || IsPrefix("blt", w) || IsPrefix("bge", w)
              || IsPrefix("j", w) || IsPrefix("ret", w)
              || IsPrefix("c_beqz", w) || IsPrefix("c_bnez", w) || IsPrefix("c_j", w))
  {
    var M := BranchMnemonics;
    if exists i :: 0 <= i < |M| && IsPrefix(M[i], w) {
      var i :| 0 <= i < |M| && IsPrefix(M[i], w);
      assert w[..|M[i]|] == M[i];
      if i in {4, 6} { assert w[..3] == M[i][..3]; }       // bltu, beqz
      else if i in {5} { assert w[..3] == M[i][..3]; }     // bgeu
      else if i in {7} { assert w[..3] == M[i][..3]; }     // bnez
      else if i in {9, 10} { assert w[..1] == M[i][..1]; } // jal, jalr
      else if i in {15, 16, 17} { assert w[..3] == M[i][..3]; } // c_jal, c_jr, c_jalr
    } else {
      assert !IsPrefix(M[0], w) && !IsPrefix(M[1], w) && !IsPrefix(M[2], w) && !IsPrefix(M[3], w);
      assert !IsPrefix(M[8], w) && !IsPrefix(M[11], w);
      assert !IsPrefix(M[12], w) && !IsPrefix(M[13], w) && !IsPrefix(M[14], w);
    }
  }

  // ---------------------------------------------------------------------
  // Basic blocks

  /** One trace record: the pc text and the instruction text. */
  datatype Rec = Rec(pc: string, inst: string)

  predicate EndsBlock(r: Rec)
  {
    IsBranchInst(r.inst) == Some(true)
  }

  /** Every record's instruction has a first word, so the branch test never raises. */
  predicate Classifiable(trace: seq<Rec>)
  {
    forall i :: 0 <= i < |trace| ==> IsBranchInst(trace[i].inst).Some?
  }

  /** A block that ends in a branch: the next record opens a new one. */
  predicate Closed(b: seq<Rec>)
  {
    b != [] && EndsBlock(Last(b))
  }

  function Last<T>(s: seq<T>): T
    requires |s| > 0
  {
    s[|s| - 1]
  }

  /** One step of the loop: r joins the last block while that is still open, and opens a new
   *  block otherwise. */
  function Extend(bs: seq<seq<Rec>>, r: Rec): (bs': seq<seq<Rec>>)
  {
    if bs != [] && !Closed(Last(bs)) then bs[..|bs| - 1] + [Last(bs) + [r]] else bs + [[r]]
  }

  /** The blocks of a trace, in order, one step per record. */
  function Blocks(trace: seq<Rec>): (bs: seq<seq<Rec>>)
    decreases |trace|
  {
    if trace == [] then [] else Extend(Blocks(trace[..|trace| - 1]), trace[|trace| - 1])
  }

  lemma BlocksSnoc(t: seq<Rec>, r: Rec)
    ensures Blocks(t + [r]) == Extend(Blocks(t), r)
  {
    assert (t + [r])[..|t|] == t;
  }

  function Flatten(bs: seq<seq<Rec>>): (t: seq<Rec>)
  {
    if bs == [] then [] else Flatten(bs[..|bs| - 1]) + Last(bs)
  }

  /** The shape `ExtractBasicBlocks` promises: no block is empty, each block but the last ends
   *  in a branch, and no block holds a branch before its last record. */
  predicate WellCut(bs: seq<seq<Rec>>)
  {
    (forall j :: 0 <= j < |bs| ==> |bs[j]| >= 1)
    && (forall j :: 0 <= j < |bs| - 1 ==> EndsBlock(Last(bs[j])))
    && (forall j, p :: 0 <= j < |bs| && 0 <= p < |bs[j]| - 1 ==> !EndsBlock(bs[j][p]))
  }

  lemma FlattenExtend(bs: seq<seq<Rec>>, r: Rec)
    ensures Flatten(Extend(bs, r)) == Flatten(bs) + [r]
  {
    var bs' := Extend(bs, r);
    if bs != [] && !Closed(Last(bs)) {
      var k := |bs| - 1;
      assert bs'[..k] == bs[..k];
      assert Flatten(bs') == Flatten(bs[..k]) + (bs[k] + [r]);
    } else {
      assert bs'[..|bs|] == bs;
    }
  }

  lemma WellCutExtend(bs: seq<seq<Rec>>, r: Rec)
    requires WellCut(bs)
    ensures WellCut(Extend(bs, r))
  {
    var bs' := Extend(bs, r);
    if bs != [] && !Closed(Last(bs)) {
      var k := |bs| - 1;
      forall j, p | 0 <= j < |bs'| && 0 <= p < |bs'[j]| - 1 ensures !EndsBlock(bs'[j][p]) {
        if j < k {
          assert bs'[j] == bs[j];
        } else if p < |bs[k]| - 1 {
          assert bs'[j][p] == bs[k][p];
        } else {
          assert bs'[j][p] == Last(bs[k]);
        }
      }
      forall j | 0 <= j < |bs'| - 1 ensures EndsBlock(Last(bs'[j])) {
        assert bs'[j] == bs[j];
      }
    } else {
      forall j, p | 0 <= j < |bs'| && 0 <= p < |bs'[j]| - 1 ensures !EndsBlock(bs'[j][p]) {
        assert bs'[j] == bs[j];
      }
      forall j | 0 <= j < |bs'| - 1 ensures EndsBlock(Last(bs'[j])) {
        assert bs'[j] == bs[j];
      }
    }
  }

  /** The blocks, laid end to end, are the trace, and they are cut exactly after branches. */
  lemma {:induction false} BlocksPartition(trace: seq<Rec>)
    ensures Flatten(Blocks(trace)) == trace
    ensures WellCut(Blocks(trace))
    decreases |trace|
  {
    if trace != [] {
      var t := trace[..|trace| - 1];
      var r := trace[|trace| - 1];
      assert Blocks(trace) == Extend(Blocks(t), r);
      BlocksPartition(t);
      assert Flatten(Blocks(trace)) == trace by {
        FlattenExtend(Blocks(t), r);
        assert trace == t + [r];
      }
      assert WellCut(Blocks(trace)) by {
        WellCutExtend(Blocks(t), r);
      }
    }
  }

  /** The sum of the block lengths. */
  function TotalLength(bs: seq<seq<Rec>>): nat
  {
    if bs == [] then 0 else TotalLength(bs[..|bs| - 1]) + |Last(bs)|
  }

  /** Summed over the blocks, count times length is the trace length: no record is lost or
   *  counted twice. */
  lemma {:induction false} BlockLengthsSum(trace: seq<Rec>)
    ensures TotalLength(Blocks(trace)) == |trace|
  {
    BlocksPartition(trace);
    FlattenLength(Blocks(trace));
  }

  lemma {:induction false} FlattenLength(bs: seq<seq<Rec>>)
    ensures |Flatten(bs)| == TotalLength(bs)
  {
    if bs != [] {
      FlattenLength(bs[..|bs| - 1]);
    }
  }

  /** The blocks the loop holds: the closed ones, then the open one when it is not empty. */
  function Pending(closed: seq<seq<Rec>>, current: seq<Rec>): seq<seq<Rec>>
  {
    closed + (if current == [] then [] else [current])
  }

  /** One iteration of the loop keeps its view equal to the blocks of the trace read so far. */
  lemma LoopStep(t: seq<Rec>, r: Rec, closed: seq<seq<Rec>>, current: seq<Rec>)
    requires Blocks(t) == Pending(closed, current)
    requires closed != [] ==> Closed(Last(closed))
    requires current != [] ==> !EndsBlock(Last(current))
    ensures EndsBlock(r) ==> Blocks(t + [r]) == Pending(closed + [current + [r]], [])
    ensures !EndsBlock(r) ==> Blocks(t + [r]) == Pending(closed, current + [r])
  {
    BlocksSnoc(t, r);
    var bs := Pending(closed, current);
    if current != [] {
      assert Last(bs) == current;
      assert bs[..|bs| - 1] == closed;
    } else {
      assert bs == closed;
      assert current + [r] == [r];
    }
    assert Extend(bs, r) == closed + [current + [r]];
  }

  /** The loop's invariant survives reading record i. */
  lemma StepKeeps(trace: seq<Rec>, i: nat, branch: bool, closed0: seq<seq<Rec>>, current0: seq<Rec>,
                  closed: seq<seq<Rec>>, current: seq<Rec>)
    requires i < |trace| && EndsBlock(trace[i]) == branch
    requires Blocks(trace[..i]) == Pending(closed0, current0)
    requires closed0 != [] ==> Closed(Last(closed0))
    requires current0 != [] ==> !EndsBlock(Last(current0))
    requires branch ==> closed == closed0 + [current0 + [trace[i]]] && current == []
    requires !branch ==> closed == closed0 && current == current0 + [trace[i]]
    ensures Blocks(trace[..i + 1]) == Pending(closed, current)
    ensures closed != [] ==> Closed(Last(closed))
    ensures current != [] ==> !EndsBlock(Last(current))
  {
    assert trace[..i + 1] == trace[..i] + [trace[i]];
    LoopStep(trace[..i], trace[i], closed0, current0);
  }

  /** What the loop of `ExtractBasicBlocks` knows after reading i records: all of them have a
   *  word, its view is the blocks read so far, and the counter holds the closed blocks. */
  ghost predicate Scanned(trace: seq<Rec>, i: nat, closed: seq<seq<Rec>>, current: seq<Rec>, counts: multiset<seq<Rec>>)
  {
    && i <= |trace|
    && (forall k :: 0 <= k < i ==> IsBranchInst(trace[k].inst).Some?)
    && Blocks(trace[..i]) == Pending(closed, current)
    && (closed != [] ==> Closed(Last(closed)))
    && (current != [] ==> !EndsBlock(Last(current)))
    && counts == multiset(closed)
  }

  /** Reading record i, which has a word, keeps `Scanned`. */
  lemma ScannedNext(trace: seq<Rec>, i: nat, branch: bool, closed0: seq<seq<Rec>>, current0: seq<Rec>,
                    counts0: multiset<seq<Rec>>, closed: seq<seq<Rec>>, current: seq<Rec>, counts: multiset<seq<Rec>>)
    requires i < |trace| && IsBranchInst(trace[i].inst) == Some(branch)
    requires Scanned(trace, i, closed0, current0, counts0)
    requires branch ==> closed == closed0 + [current0 + [trace[i]]] && current == [] && counts == counts0 + multiset{current0 + [trace[i]]}
    requires !branch ==> closed == closed0 && current == current0 + [trace[i]] && counts == counts0
    ensures Scanned(trace, i + 1, closed, current, counts)
  {
    StepKeeps(trace, i, branch, closed0, current0, closed, current);
  }

  /** After the last record the counter, with the open block, is the multiset of the blocks. */
  lemma ScannedAll(trace: seq<Rec>, closed: seq<seq<Rec>>, current: seq<Rec>, counts: multiset<seq<Rec>>)
    requires Scanned(trace, |trace|, closed, current, counts)
    ensures Classifiable(trace)
    ensures counts + (if current == [] then multiset{} else multiset{current}) == multiset(Blocks(trace))
  {
    assert trace[..|trace|] == trace;
    PendingCounts(closed, current);
  }

  /** The multiset of the blocks in view is that of the closed ones and the open one. */
  lemma PendingCounts(closed: seq<seq<Rec>>, current: seq<Rec>)
    ensures multiset(Pending(closed, current)) == multiset(closed) + (if current == [] then multiset{} else multiset{current})
  {
    var tail: seq<seq<Rec>> := if current == [] then [] else [current];
    assert Pending(closed, current) == closed + tail;
    assert multiset(closed + tail) == multiset(closed) + multiset(tail);
  }

  /**
   * `ExtractBasicBlocks`: the counter of blocks, a multiset. `failed` reports the first
   * record whose instruction has no word, where the branch test raises and nothing is
   * returned.
   */
  method ExtractBasicBlocks(trace: seq<Rec>) returns (counts: multiset<seq<Rec>>, failed: bool)
    ensures failed <==> !Classifiable(trace)
    ensures !failed ==> counts == multiset(Blocks(trace))
  {
    counts := multiset{};
    var current: seq<Rec> := [];
    ghost var closed: seq<seq<Rec>> := [];
    var i := 0;
    while i < |trace|
      invariant Scanned(trace, i, closed, current, counts)
    {
      var r := trace[i];
      var isBranch := IsBranchInst(r.inst);
      if isBranch.None? {
        return counts, true;
      }
      ghost var closed0, current0, counts0 := closed, current, counts;
      current := current + [r];
      if isBranch.value {
        counts := counts + multiset{current};
        closed := closed + [current];
        current := [];
      }
      ScannedNext(trace, i, isBranch.value, closed0, current0, counts0, closed, current, counts);
      i := i + 1;
    }
    ScannedAll(trace, closed, current, counts);
    counts := counts + if current == [] then multiset{} else multiset{current};
    failed := false;
  }

  // ---------------------------------------------------------------------
  // Reading rows

  /** 2^63: sqlite's integers are signed 64-bit, in [-2^63, 2^63). */
  const Half: int := 0x8000_0000_0000_0000

  /** sqlite stores a pc of 2^63 or more as pc - 2^64. */
  function StoredPc(pc: nat): (v: int)
    requires pc < U64
    ensures -Half <= v < Half
  {
    if pc < Half then pc else pc - U64
  }

  /** The reader's fix: a negative stored pc is read as itself plus 2^64. */
  function FixPc(v: int): (pc: int)
  {
    if v < 0 then v + U64 else v
  }

  /** Every stored pc is mapped back to the pc that was stored. */
  lemma FixPcRestores(pc: nat)
    requires pc < U64
    ensures FixPc(StoredPc(pc)) == pc
  {
  }

  /** Every value sqlite can hold becomes an unsigned 64-bit pc congruent to it. */
  lemma FixPcRange(v: int)
    requires -Half <= v < Half
    ensures 0 <= FixPc(v) < U64
    ensures FixPc(v) % U64 == v % U64
  {
    if v < 0 {
      DivModUnique(v, U64, -1, v + U64);
    }
    DivModUnique(FixPc(v), U64, 0, FixPc(v));
  }

  /** Python's floor division `a // b`; None where it raises on a zero divisor. */
  function FloorDiv(a: int, b: int): (q: Option<int>)
    ensures q.None? <==> b == 0
    ensures b > 0 ==> q.Some? && q.value * b <= a < (q.value + 1) * b
    ensures b < 0 ==> q.Some? && q.value * b >= a > (q.value + 1) * b
  {
    if b == 0 then None
    else if b > 0 then
      DivModUnique(a, b, a / b, a % b);
      Some(a / b)
    else
      DivModUnique(-a, -b, (-a) / (-b), (-a) % (-b));
      Some((-a) / (-b))
  }

  /** The period in ticks per cycle: the RTL platform's traces are already in cycles. */
  function EffectivePeriod(platformIsRtl: bool, period: int): (p: int)
    ensures platformIsRtl ==> p == 1
    ensures !platformIsRtl ==> p == period
  {
    if platformIsRtl then 1 else period
  }

  /** On the RTL platform a stage's cycle is its tick. */
  lemma RtlCyclesAreTicks(tick: int, period: int)
    ensures FloorDiv(tick, EffectivePeriod(true, period)) == Some(tick)
  {
  }

  /** The rows the query selects: commit at or after the start cycle's first tick, and, when
   *  the end is not before the start, at or before the end cycle's first tick. */
  predicate InWindow(atCommit: int, startClock: int, endClock: int, period: int)
  {
    atCommit >= startClock * period && (endClock >= startClock ==> atCommit <= endClock * period)
  }

  /** In cycles, the window keeps exactly the rows that commit in a cycle from the start on;
   *  at the end it keeps every row of the earlier cycles but, of the end cycle, only a row
   *  committing on its first tick. */
  lemma WindowInCycles(atCommit: int, startClock: int, endClock: int, period: int)
    requires period > 0 && endClock >= startClock
    ensures var c := FloorDiv(atCommit, period).value;
      InWindow(atCommit, startClock, endClock, period)
      <==> startClock <= c && (c < endClock || (c == endClock && atCommit == endClock * period))
  {
    var c := FloorDiv(atCommit, period).value;
    if c >= startClock {
      MulMonoInt(startClock, c, period);
    } else {
      MulMonoInt(c + 1, startClock, period);
    }
    if c < endClock {
      MulMonoInt(c + 1, endClock, period);
    } else if c > endClock {
      MulMonoInt(endClock + 1, c, period);
    }
  }

  lemma MulMonoInt(x: int, y: int, m: int)
    requires x <= y && m > 0
    ensures x * m <= y * m
  {
    MulNonneg(y - x, m);
    assert y * m - x * m == (y - x) * m;
  }

  /** `--inter-gap` and `--inner-gap` together are refused. */
  function GapMode(interGap: bool, innerGap: bool): (r: Option<bool>)
    ensures r.None? <==> interGap && innerGap
    ensures r == Some(true) <==> interGap && !innerGap
  {
    if interGap && innerGap then None else Some(interGap)
  }

  // ---------------------------------------------------------------------
  // Listing rows

  /** A row as `perfcct_main` sees it: the pc value, its text, and the stage cycles. */
  datatype Row = Row(pc: nat, pcText: string, cycles: seq<int>)

  /** Whether a row is listed: in the pc range unless only attention pcs are asked for, and
   *  then only when its pc text is an attention pc. */
  predicate Listed(r: Row, startPc: nat, endPc: nat, attention: seq<string>, onlyAttention: bool)
  {
    (!onlyAttention && startPc <= r.pc <= endPc) || (onlyAttention && r.pcText in attention)
  }

  /** Some entry of listed names row k. */
  predicate Chosen(listed: seq<(nat, bool)>, k: nat)
  {
    exists j :: 0 <= j < |listed| && listed[j].0 == k
  }

  lemma ChosenAppend(listed: seq<(nat, bool)>, e: (nat, bool))
    ensures forall k :: Chosen(listed + [e], k) <==> Chosen(listed, k) || e.0 == k
  {
    forall k ensures Chosen(listed + [e], k) <==> Chosen(listed, k) || e.0 == k {
      if Chosen(listed, k) {
        var j :| 0 <= j < |listed| && listed[j].0 == k;
        assert (listed + [e])[j] == listed[j];
      }
      if e.0 == k {
        assert (listed + [e])[|listed|] == e;
      }
      if Chosen(listed + [e], k) {
        var j :| 0 <= j < |listed| + 1 && (listed + [e])[j].0 == k;
        if j < |listed| {
          assert (listed + [e])[j] == listed[j];
        }
      }
    }
  }

  lemma NotChosenAbove(listed: seq<(nat, bool)>, k: nat)
    requires forall j :: 0 <= j < |listed| ==> listed[j].0 < k
    ensures !Chosen(listed, k)
  {
  }

  /** `perfcct_main`: the rows listed, in trace order, each with its attention mark. */
  method ListRows(rows: seq<Row>, startPc: nat, endPc: nat, attention: seq<string>, onlyAttention: bool)
    returns (listed: seq<(nat, bool)>)
    ensures forall j :: 0 <= j < |listed| ==> listed[j].0 < |rows|
    ensures forall j, j' :: 0 <= j < j' < |listed| ==> listed[j].0 < listed[j'].0
    ensures forall i :: 0 <= i < |rows| ==>
      (Listed(rows[i], startPc, endPc, attention, onlyAttention) <==> Chosen(listed, i))
    ensures forall j :: 0 <= j < |listed| ==> listed[j].1 == (rows[listed[j].0].pcText in attention)
  {
    listed := [];
    var i := 0;
    while i < |rows|
      invariant 0 <= i <= |rows|
      invariant forall j :: 0 <= j < |listed| ==> listed[j].0 < i
      invariant forall j, j' :: 0 <= j < j' < |listed| ==> listed[j].0 < listed[j'].0
      invariant forall k :: 0 <= k < i ==>
        (Listed(rows[k], startPc, endPc, attention, onlyAttention) <==> Chosen(listed, k))
      invariant forall j :: 0 <= j < |listed| ==> listed[j].1 == (rows[listed[j].0].pcText in attention)
    {
      var r := rows[i];
      if !onlyAttention && (r.pc < startPc || r.pc > endPc) {
        NotChosenAbove(listed, i);
        i := i + 1;
        continue;
      }
      if onlyAttention && r.pcText !in attention {
        NotChosenAbove(listed, i);
        i := i + 1;
        continue;
      }
      ChosenAppend(listed, (i, r.pcText in attention));
      listed := listed + [(i, r.pcText in attention)];
      i := i + 1;
    }
  }
}
