/**
 * The checkpoint-partition list generator: each numbered checkpoint directory
 * that holds a compressed checkpoint becomes an entry, the entries are sorted
 * by part number, renumbered 1, 2, ... in that order, and an entry is listed
 * only while the instructions already run for it (summed over earlier runs)
 * stay below the per-core batch size; its count field is what remains, in
 * units of 20.
 */
module GcptList {
  import opened Common

  /** `math.ceil(interval_count / core_num)`: the intervals one core runs. */
  function BatchSize(intervalCount: nat, coreNum: nat): (b: nat)
    requires coreNum > 0
    ensures b * coreNum >= intervalCount
    ensures b > 0 ==> (b - 1) * coreNum < intervalCount
  {
    DivMod(intervalCount, coreNum);
    if intervalCount % coreNum == 0 then intervalCount / coreNum else intervalCount / coreNum + 1
  }

  /** A checkpoint directory: its numeric name and the path `find` printed for its `*.zstd`
   *  file, empty when it holds none. */
  datatype Dir = Dir(partNumber: nat, zstd: string)

  /** An entry `[part<n>, file, "20", count]` before renumbering. */
  datatype Entry = Entry(part: nat, zstd: string)

  /** One line of the output list: `part<index> <file> 20 <count>`. */
  datatype OutLine = OutLine(index: nat, zstd: string, count: int)

  function Render(l: OutLine): (s: string)
    ensures |s| > 4 && s[..4] == "part"
  {
    ("part" + NatToString(l.index)) + ([' '] + (l.zstd + ([' '] + ("20" + ([' '] + IntToString(l.count))))))
  }

  lemma NumbersUnblank(index: nat, count: int)
    ensures ' ' !in "part" + NatToString(index) && ' ' !in IntToString(count)
  {
    var n, c := NatToString(index), IntToString(count);
    forall i | 0 <= i < |"part" + n| ensures ("part" + n)[i] != ' ' {
      if i >= 4 { assert ("part" + n)[i] == n[i - 4]; }
    }
    forall i | 0 <= i < |c| ensures c[i] != ' ' {
      if count < 0 && i > 0 { assert c[i] == c[1..][i - 1]; }
    }
  }

  /** Text without c after some c-free fields: splitting peels the fields off one by one. */
  lemma SplitOff(a: string, b: string)
    requires ' ' !in a
    ensures SplitAll(a + ([' '] + b), ' ') == [a] + SplitAll(b, ' ')
  {
    SplitAtFirstOf(a, ' ', b);
  }

  /** Four blank-free fields joined by blanks split back into the four fields. */
  lemma SplitFour(a: string, b: string, c: string, d: string)
    requires ' ' !in a && ' ' !in b && ' ' !in c && ' ' !in d
    ensures SplitAll(a + ([' '] + (b + ([' '] + (c + ([' '] + d))))), ' ') == [a, b, c, d]
  {
    var t3 := c + ([' '] + d);
    var t2 := b + ([' '] + t3);
    assert SplitAll(d, ' ') == [d];
    SplitOff(c, d);
    SplitOff(b, t3);
    SplitOff(a, t2);
    FourFields(a, b, c, d);
  }

  lemma FourFields(a: string, b: string, c: string, d: string)
    ensures [a] + ([b] + ([c] + [d])) == [a, b, c, d]
  {
  }

  /** A line whose file path has no blank splits at its blanks into `part<index>`, the path,
   *  `20` and the count, and both numbers read back. */
  lemma RenderReadBack(l: OutLine)
    requires ' ' !in l.zstd
    ensures SplitAll(Render(l), ' ') == ["part" + NatToString(l.index), l.zstd, "20", IntToString(l.count)]
    ensures DigitsValue(NatToString(l.index)) == l.index
    ensures l.count >= 0 ==> IsDigits(IntToString(l.count)) && DigitsValue(IntToString(l.count)) == l.count
  {
    NumbersUnblank(l.index, l.count);
    SplitFour("part" + NatToString(l.index), l.zstd, "20", IntToString(l.count));
    NatToStringRoundTrip(l.index);
    if l.count >= 0 {
      NatToStringRoundTrip(l.count);
    }
  }

  /** The directories that hold a checkpoint, in the order `find` listed them. */
  function Discover(dirs: seq<Dir>): (entries: seq<Entry>)
    ensures |entries| <= |dirs|
    ensures forall e :: e in entries <==> exists d :: d in dirs && d.zstd != [] && e == Entry(d.partNumber, d.zstd)
  {
    if dirs == [] then []
    else (if dirs[0].zstd != [] then [Entry(dirs[0].partNumber, dirs[0].zstd)] else []) + Discover(dirs[1..])
  }

  predicate SortedByPart(s: seq<Entry>)
  {
    forall i, j :: 0 <= i < j < |s| ==> s[i].part <= s[j].part
  }

  /** The entries of s with part number p, in their order in s. */
  function PartRun(s: seq<Entry>, p: nat): seq<Entry>
  {
    if s == [] then [] else (if s[0].part == p then [s[0]] else []) + PartRun(s[1..], p)
  }

  lemma {:induction false} PartRunConcat(a: seq<Entry>, b: seq<Entry>, p: nat)
    ensures PartRun(a + b, p) == PartRun(a, p) + PartRun(b, p)
  {
    if a != [] {
      var h := if a[0].part == p then [a[0]] else [];
      assert (a + b)[0] == a[0] && (a + b)[1..] == a[1..] + b;
      PartRunConcat(a[1..], b, p);
      assert PartRun(a + b, p) == h + (PartRun(a[1..], p) + PartRun(b, p));
      assert h + (PartRun(a[1..], p) + PartRun(b, p)) == (h + PartRun(a[1..], p)) + PartRun(b, p);
    } else {
      assert a + b == b;
    }
  }

  /** Where e goes: after the last entry whose part number is not larger. */
  function InsertPos(s: seq<Entry>, e: Entry): (i: nat)
    ensures i <= |s| && (i > 0 ==> s[i - 1].part <= e.part)
    ensures forall j :: i <= j < |s| ==> s[j].part > e.part
  {
    if s == [] || s[|s| - 1].part <= e.part then |s| else InsertPos(s[..|s| - 1], e)
  }

  function InsertSorted(s: seq<Entry>, e: Entry): (r: seq<Entry>)
    ensures |r| == |s| + 1
  {
    var i := InsertPos(s, e);
    s[..i] + [e] + s[i..]
  }

  /** `entries.sort(key=part number)`: Python's sort is stable, as insertion sort is. */
  function SortByPart(entries: seq<Entry>): (r: seq<Entry>)
    ensures |r| == |entries|
  {
    if entries == [] then [] else InsertSorted(SortByPart(entries[..|entries| - 1]), entries[|entries| - 1])
  }

  /** Inserting keeps the order and adds e once. */
  lemma InsertSortedSpec(s: seq<Entry>, e: Entry)
    requires SortedByPart(s)
    ensures SortedByPart(InsertSorted(s, e))
    ensures multiset(InsertSorted(s, e)) == multiset(s) + multiset{e}
  {
    var i := InsertPos(s, e);
    SortedInsert(s, i, e);
    InsertCounts(s, i, e);
  }

  lemma InsertRun(s: seq<Entry>, i: nat, e: Entry, p: nat)
    requires i <= |s| && forall j :: i <= j < |s| ==> s[j].part > e.part
    ensures PartRun(s[..i] + [e] + s[i..], p) == PartRun(s, p) + (if e.part == p then [e] else [])
  {
    var a, b := s[..i], s[i..];
    PartRunConcat(a + [e], b, p);
    PartRunConcat(a, [e], p);
    PartRunConcat(a, b, p);
    assert a + b == s;
    assert PartRun([e], p) == (if e.part == p then [e] else []) by {
      assert [e][1..] == [];
    }
    if e.part == p {
      PartRunAbove(b, p);
    }
  }

  lemma {:induction false} PartRunAbove(s: seq<Entry>, p: nat)
    requires forall j :: 0 <= j < |s| ==> s[j].part > p
    ensures PartRun(s, p) == []
  {
    if s != [] {
      PartRunAbove(s[1..], p);
    }
  }

  /** The sort orders by part number, keeps every entry, and keeps entries with the same
   *  part number in the order `find` listed them. */
  lemma SortByPartSpec(entries: seq<Entry>)
    ensures SortedByPart(SortByPart(entries))
    ensures multiset(SortByPart(entries)) == multiset(entries)
    ensures forall p :: PartRun(SortByPart(entries), p) == PartRun(entries, p)
  {
    SortByPartPerm(entries);
    forall p ensures PartRun(SortByPart(entries), p) == PartRun(entries, p) {
      SortByPartRun(entries, p);
    }
  }

  lemma {:induction false} SortByPartPerm(entries: seq<Entry>)
    ensures SortedByPart(SortByPart(entries))
    ensures multiset(SortByPart(entries)) == multiset(entries)
  {
    if entries != [] {
      var init, e := entries[..|entries| - 1], entries[|entries| - 1];
      SortByPartPerm(init);
      var sorted := SortByPart(init);
      InsertSortedSpec(sorted, e);
      assert SortByPart(entries) == InsertSorted(sorted, e);
      LastSplit(entries);
    }
  }

  lemma LastSplit(entries: seq<Entry>)
    requires entries != []
    ensures multiset(entries) == multiset(entries[..|entries| - 1]) + multiset{entries[|entries| - 1]}
  {
    assert entries == entries[..|entries| - 1] + [entries[|entries| - 1]];
  }

  lemma {:induction false} SortByPartRun(entries: seq<Entry>, p: nat)
    ensures PartRun(SortByPart(entries), p) == PartRun(entries, p)
  {
    if entries != [] {
      var init, e := entries[..|entries| - 1], entries[|entries| - 1];
      SortByPartRun(init, p);
      var sorted := SortByPart(init);
      InsertRun(sorted, InsertPos(sorted, e), e, p);
      assert entries == init + [e];
      PartRunConcat(init, [e], p);
      assert PartRun([e], p) == (if e.part == p then [e] else []) by {
        assert [e][1..] == [];
      }
    }
  }

  /** The insertion sort over the list. */
  method SortEntries(entries: seq<Entry>) returns (sorted: seq<Entry>)
    ensures sorted == SortByPart(entries)
  {
    sorted := [];
    var n := 0;
    while n < |entries|
      invariant 0 <= n <= |entries|
      invariant sorted == SortByPart(entries[..n])
    {
      sorted := InsertByPart(sorted, entries[n]);
      assert entries[..n + 1][..n] == entries[..n];
      n := n + 1;
    }
    assert entries[..n] == entries;
  }

  /** Places e after every entry whose part number is not larger. */
  method InsertByPart(s: seq<Entry>, e: Entry) returns (r: seq<Entry>)
    ensures r == InsertSorted(s, e)
  {
    var i := |s|;
    while i > 0 && s[i - 1].part > e.part
      invariant 0 <= i <= |s|
      invariant InsertPos(s[..i], e) == InsertPos(s, e)
    {
      assert s[..i][..i - 1] == s[..i - 1];
      i := i - 1;
    }
    assert InsertPos(s[..i], e) == i;
    r := s[..i] + [e] + s[i..];
  }

  lemma InsertCounts(s: seq<Entry>, i: nat, e: Entry)
    requires i <= |s|
    ensures multiset(s[..i] + [e] + s[i..]) == multiset(s) + multiset{e}
  {
    assert s == s[..i] + s[i..];
  }

  /** Inserting e where everything before is not larger and everything after is larger keeps
   *  the order. */
  lemma SortedInsert(s: seq<Entry>, i: nat, e: Entry)
    requires SortedByPart(s) && i <= |s|
    requires i > 0 ==> s[i - 1].part <= e.part
    requires forall j :: i <= j < |s| ==> s[j].part > e.part
    ensures SortedByPart(s[..i] + [e] + s[i..])
  {
    var r := s[..i] + [e] + s[i..];
    forall a, b | 0 <= a < b < |r| ensures r[a].part <= r[b].part {
      if b < i {
        assert r[a] == s[a] && r[b] == s[b];
      } else if b == i {
        assert r[a] == s[a];
      } else if a == i {
        assert r[b] == s[b - 1];
      } else if a < i {
        assert r[a] == s[a] && r[b] == s[b - 1];
      } else {
        assert r[a] == s[a - 1] && r[b] == s[b - 1];
      }
    }
  }

  /** Some line of out is the entry renumbered k. */
  predicate Listed(out: seq<OutLine>, k: nat)
  {
    exists j :: 0 <= j < |out| && out[j].index == k
  }

  lemma ListedAppend(out: seq<OutLine>, line: OutLine)
    ensures forall k :: Listed(out + [line], k) <==> Listed(out, k) || line.index == k
  {
    forall k ensures Listed(out + [line], k) <==> Listed(out, k) || line.index == k {
      if Listed(out, k) {
        var j :| 0 <= j < |out| && out[j].index == k;
        assert (out + [line])[j] == out[j];
      }
      if line.index == k {
        assert (out + [line])[|out|] == line;
      }
      if Listed(out + [line], k) {
        var j :| 0 <= j < |out| + 1 && (out + [line])[j].index == k;
        if j < |out| {
          assert (out + [line])[j] == out[j];
        }
      }
    }
  }

  lemma NotListedAbove(out: seq<OutLine>, k: nat)
    requires forall j :: 0 <= j < |out| ==> out[j].index < k
    ensures !Listed(out, k)
  {
  }

  /** The lines the write loop produces for the first n sorted entries. */
  function ListFrom(entries: seq<Entry>, runSum: seq<int>, batchSize: nat, n: nat): seq<OutLine>
    requires n <= |entries| && n <= |runSum|
  {
    if n == 0 then []
    else
      ListFrom(entries, runSum, batchSize, n - 1)
      + (if runSum[n - 1] < batchSize then [OutLine(n, entries[n - 1].zstd, (batchSize - runSum[n - 1]) * 20)] else [])
  }

  /** What the lines for the first n entries say: entry k (from 1) is listed, as part k with
   *  its file and count `(batch_size - run_sum[k-1]) * 20`, exactly when its sum is below the
   *  batch size, and the lines follow the entries' order. */
  predicate ListingFacts(out: seq<OutLine>, entries: seq<Entry>, runSum: seq<int>, batchSize: nat, n: nat)
    requires n <= |entries| && n <= |runSum|
  {
    && (forall j :: 0 <= j < |out| ==> 1 <= out[j].index <= n)
    && (forall j, j' :: 0 <= j < j' < |out| ==> out[j].index < out[j'].index)
    && (forall j :: 0 <= j < |out| ==>
          out[j].zstd == entries[out[j].index - 1].zstd
          && out[j].count == (batchSize - runSum[out[j].index - 1]) * 20
          && out[j].count > 0)
    && forall k :: 1 <= k <= n ==> (runSum[k - 1] < batchSize <==> Listed(out, k))
  }

  /** Appending the line for entry n keeps the facts. */
  lemma ListingAppend(prev: seq<OutLine>, entries: seq<Entry>, runSum: seq<int>, batchSize: nat, n: nat)
    requires 1 <= n <= |entries| && n <= |runSum| && runSum[n - 1] < batchSize
    requires ListingFacts(prev, entries, runSum, batchSize, n - 1)
    ensures ListingFacts(prev + [OutLine(n, entries[n - 1].zstd, (batchSize - runSum[n - 1]) * 20)],
                         entries, runSum, batchSize, n)
  {
    var line := OutLine(n, entries[n - 1].zstd, (batchSize - runSum[n - 1]) * 20);
    var out := prev + [line];
    ListedAppend(prev, line);
    forall j | 0 <= j < |out|
      ensures 1 <= out[j].index <= n
      ensures out[j].zstd == entries[out[j].index - 1].zstd
      ensures out[j].count == (batchSize - runSum[out[j].index - 1]) * 20 && out[j].count > 0
    {
      if j < |prev| {
        assert out[j] == prev[j];
      }
    }
    forall j, j' | 0 <= j < j' < |out|
      ensures out[j].index < out[j'].index
    {
      assert out[j] == prev[j];
      if j' < |prev| {
        assert out[j'] == prev[j'];
      }
    }
  }

  /** Skipping entry n keeps the facts. */
  lemma ListingSkip(prev: seq<OutLine>, entries: seq<Entry>, runSum: seq<int>, batchSize: nat, n: nat)
    requires 1 <= n <= |entries| && n <= |runSum| && runSum[n - 1] >= batchSize
    requires ListingFacts(prev, entries, runSum, batchSize, n - 1)
    ensures ListingFacts(prev, entries, runSum, batchSize, n)
  {
    NotListedAbove(prev, n);
  }

  lemma {:induction false} ListFromSpec(entries: seq<Entry>, runSum: seq<int>, batchSize: nat, n: nat)
    requires n <= |entries| && n <= |runSum|
    ensures ListingFacts(ListFrom(entries, runSum, batchSize, n), entries, runSum, batchSize, n)
  {
    if n > 0 {
      ListFromSpec(entries, runSum, batchSize, n - 1);
      var prev := ListFrom(entries, runSum, batchSize, n - 1);
      if runSum[n - 1] < batchSize {
        ListingAppend(prev, entries, runSum, batchSize, n);
      } else {
        assert ListFrom(entries, runSum, batchSize, n) == prev;
        ListingSkip(prev, entries, runSum, batchSize, n);
      }
    }
  }

  /**
   * The write loop: the k-th sorted entry (from 1) is renamed part<k>; it is written when
   * `run_sum[k-1] < batch_size`, with count `(batch_size - run_sum[k-1]) * 20`, and skipped
   * otherwise. A `run_sum` shorter than the entry list stops the loop with an index error
   * at the first entry it does not cover, after the lines before it were written.
   */
  method WriteList(entries: seq<Entry>, runSum: seq<int>, batchSize: nat)
    returns (out: seq<OutLine>, failed: bool)
    ensures failed <==> |runSum| < |entries|
    ensures forall j :: 0 <= j < |out| ==> 1 <= out[j].index <= |entries| && out[j].index <= |runSum|
    ensures forall j, j' :: 0 <= j < j' < |out| ==> out[j].index < out[j'].index
    ensures forall j :: 0 <= j < |out| ==>
      out[j].zstd == entries[out[j].index - 1].zstd
      && out[j].count == (batchSize - runSum[out[j].index - 1]) * 20
      && out[j].count > 0
    ensures forall k :: 1 <= k <= |entries| && k <= |runSum| ==>
      (runSum[k - 1] < batchSize <==> Listed(out, k))
    ensures out == ListFrom(entries, runSum, batchSize, if failed then |runSum| else |entries|)
  {
    out := [];
    var k := 1;
    while k <= |entries|
      invariant 1 <= k <= |entries| + 1 && k - 1 <= |runSum|
      invariant out == ListFrom(entries, runSum, batchSize, k - 1)
    {
      if k - 1 >= |runSum| {
        ListFromSpec(entries, runSum, batchSize, k - 1);
        return out, true;
      }
      if runSum[k - 1] < batchSize {
        out := out + [OutLine(k, entries[k - 1].zstd, (batchSize - runSum[k - 1]) * 20)];
      }
      k := k + 1;
    }
    failed := false;
    ListFromSpec(entries, runSum, batchSize, |entries|);
  }

  /** With nothing run yet and a positive batch size, entry k is written as part k with
   *  count batch_size * 20. */
  lemma {:induction false} ListFromUnrun(entries: seq<Entry>, batchSize: nat, n: nat)
    requires batchSize > 0 && n <= |entries|
    ensures var out := ListFrom(entries, seq(|entries|, _ => 0), batchSize, n);
      |out| == n && forall j :: 0 <= j < n ==> out[j] == OutLine(j + 1, entries[j].zstd, batchSize * 20)
  {
    if n > 0 {
      ListFromUnrun(entries, batchSize, n - 1);
    }
  }

  function Rendered(out: seq<OutLine>): (lines: seq<string>)
  {
    seq(|out|, j requires 0 <= j < |out| => Render(out[j]))
  }

  /**
   * `gen_gcpt_list`: discovery, the stable sort, and the write loop. `runInfo` is the
   * per-entry sum of the earlier runs' counts when the run directory exists; without it
   * every sum is zero.
   */
  method GenGcptList(dirs: seq<Dir>, intervalCount: nat, coreNum: nat, runInfo: Option<seq<int>>)
    returns (lines: seq<string>, failed: bool)
    requires coreNum > 0
    ensures var entries := SortByPart(Discover(dirs));
      var runSum := if runInfo.Some? then runInfo.value else seq(|entries|, _ => 0);
      && (failed <==> |runSum| < |entries|)
      && lines == Rendered(ListFrom(entries, runSum, BatchSize(intervalCount, coreNum), if failed then |runSum| else |entries|))
    ensures runInfo.None? && intervalCount > 0 ==>
      var entries := SortByPart(Discover(dirs));
      && !failed && |lines| == |Discover(dirs)|
      && forall j :: 0 <= j < |lines| ==>
           lines[j] == Render(OutLine(j + 1, entries[j].zstd, BatchSize(intervalCount, coreNum) * 20))
    ensures forall j :: 0 <= j < |lines| ==> |lines[j]| > 4 && lines[j][..4] == "part"
  {
    var batchSize := BatchSize(intervalCount, coreNum);
    var discovered := Discover(dirs);
    var entries := SortEntries(discovered);
    SortByPartSpec(discovered);
    assert |entries| == |discovered| by {
      assert |multiset(entries)| == |multiset(discovered)|;
    }
    var runSum := if runInfo.Some? then runInfo.value else seq(|entries|, _ => 0);
    var out;
    out, failed := WriteList(entries, runSum, batchSize);
    if runInfo.None? && intervalCount > 0 {
      ListFromUnrun(entries, batchSize, |entries|);
    }
    lines := Rendered(out);
  }

  /** Strictly increasing indices from 1..n that include every one of 1..n are all of them. */
  lemma AllIndicesListed(out: seq<OutLine>, n: nat)
    requires forall j :: 0 <= j < |out| ==> 1 <= out[j].index <= n
    requires forall j, j' :: 0 <= j < j' < |out| ==> out[j].index < out[j'].index
    requires forall k :: 1 <= k <= n ==> Listed(out, k)
    ensures |out| == n
  {
    if |out| < n {
      assert Listed(out, n);
      var j :| 0 <= j < |out| && out[j].index == n;
      IndexIsPosition(out, n, j);
    } else if |out| > n {
      IndexIsPosition(out, n, n);
    }
  }

  /** Under the same conditions the j-th line carries index j + 1. */
  lemma {:induction false} IndexIsPosition(out: seq<OutLine>, n: nat, j: nat)
    requires forall j :: 0 <= j < |out| ==> 1 <= out[j].index <= n
    requires forall j, j' :: 0 <= j < j' < |out| ==> out[j].index < out[j'].index
    requires forall k :: 1 <= k <= n ==> Listed(out, k)
    requires j < |out|
    ensures out[j].index == j + 1
  {
    if j > 0 {
      IndexIsPosition(out, n, j - 1);
    }
    assert Listed(out, j + 1);
    var w :| 0 <= w < |out| && out[w].index == j + 1;
    if w < j {
      IndexIsPosition(out, n, w);
    }
  }
}
