/**
 * Vocabulary shared by the models of the simulator's components: optional
 * values, unsigned bit fields computed on unbounded naturals, decimal
 * rendering as done by C++ output streams, and the least-recently-used key
 * cache (`boost::compute::detail::lru_cache`) that several components use as
 * a filter.
 *
 * Bit manipulation is written arithmetically: `x >> k` is `x / Pow2(k)`,
 * `x & ((1 << k) - 1)` is `x % Pow2(k)`, and `a | b` of operands whose set
 * bits do not overlap is `a + b`.
 */
module Common {

  datatype Option<T> = None | Some(value: T)

  /** An 8-bit unsigned value, `uint8_t`. */
  type byte = x: int | 0 <= x < 256

  /** Two to the power n, `1ull << n`. */
  function Pow2(n: nat): (r: nat)
    ensures r >= 1
  {
    if n == 0 then 1 else 2 * Pow2(n - 1)
  }

  lemma {:induction false} Pow2Add(a: nat, b: nat)
    ensures Pow2(a + b) == Pow2(a) * Pow2(b)
  {
    if a > 0 {
      Pow2Add(a - 1, b);
      assert Pow2(a + b) == 2 * Pow2(a - 1 + b);
    }
  }

  lemma {:induction false} Pow2Monotone(a: nat, b: nat)
    requires a <= b
    ensures Pow2(a) <= Pow2(b)
  {
    if a < b {
      Pow2Monotone(a, b - 1);
    }
  }

  // Small facts of nonlinear arithmetic, stated once.

  lemma MulDist(x: int, y: int, m: int)
    ensures (x + y) * m == x * m + y * m
  {}
  lemma MulNonneg(x: nat, m: nat)
    ensures x * m >= 0
  {}
  lemma MulPos(x: int, y: int)
    requires x > 0 && y > 0
    ensures x * y > 0
  {
    MulMono(1, x, y);
  }
  lemma MulAssoc(x: int, y: int, z: int)
    ensures (x * y) * z == x * (y * z)
  {}
  lemma MulMono(x: nat, y: nat, m: nat)
    requires x <= y
    ensures x * m <= y * m
  {
    MulDist(x, y - x, m);
    MulNonneg(y - x, m);
  }
  /** Division and remainder are determined by any decomposition
   *  v == q*m + r with 0 <= r < m. */
  lemma DivModUnique(v: int, m: int, q: int, r: int)
    requires m > 0 && 0 <= r < m && v == q * m + r
    ensures v / m == q && v % m == r
  {
    var q', r' := v / m, v % m;
    assert v == q' * m + r';
    if q' > q {
      var d := q' - q;
      MulDist(q, d, m);
      MulDist(d - 1, 1, m);
      MulNonneg(d - 1, m);
      assert false;
    } else if q' < q {
      var d := q - q';
      MulDist(q', d, m);
      MulDist(d - 1, 1, m);
      MulNonneg(d - 1, m);
      assert false;
    }
  }
  /** Euclidean division of a natural by a positive number, spelled out. */
  lemma DivMod(v: nat, m: nat)
    requires m > 0
    ensures v / m >= 0 && 0 <= v % m < m && v == (v / m) * m + v % m
  {
  }

  /** The two low digits of v in the mixed radix (a, b). */
  lemma ModSplit(v: nat, a: nat, b: nat)
    requires a > 0 && b > 0
    ensures v % (a * b) == v % a + ((v / a) % b) * a
    ensures v / (a * b) == (v / a) / b
  {
    var q := v / a;
    var hi, mid, lo := q / b, q % b, v % a;
    var ab := a * b;
    assert ab > 0 by { MulMono(1, b, a); }
    assert q == hi * b + mid;
    assert v == q * a + lo;
    assert q * a == hi * ab + mid * a by {
      MulDist(hi * b, mid, a);
      MulAssoc(hi, b, a);
    }
    assert mid * a + lo < ab by {
      MulDist(mid, 1, a);
      MulMono(mid + 1, b, a);
    }
    DivModUnique(v, ab, hi, mid * a + lo);
  }

  /** 2^64: the modulus of `uint64_t` arithmetic. */
  const U64: nat := 0x1_0000_0000_0000_0000

  /** `d << s` and `d >> s` on unbounded naturals. */
  function Shl(d: nat, s: nat): nat
  {
    if s == 0 then d else 2 * Shl(d, s - 1)
  }

  function Shr(d: nat, s: nat): nat
  {
    if s == 0 then d else Shr(d / 2, s - 1)
  }

  /** `d << s` multiplies by 2^s. */
  lemma {:induction false} ShlIsMul(d: nat, s: nat)
    ensures Shl(d, s) == d * Pow2(s)
  {
    if s > 0 {
      ShlIsMul(d, s - 1);
      MulAssoc(2, d, Pow2(s - 1));
    }
  }

  /** `d >> s` divides by 2^s. */
  lemma {:induction false} ShrIsDiv(d: nat, s: nat)
    ensures Shr(d, s) == d / Pow2(s)
  {
    if s > 0 {
      ShrIsDiv(d / 2, s - 1);
      ModSplit(d, 2, Pow2(s - 1));
    }
  }

  /** `d & ((1 << s) - 1)`: the low s bits of d. */
  function LowMask(d: nat, s: nat): nat
  {
    if s == 0 then 0 else d % 2 + 2 * LowMask(d / 2, s - 1)
  }

  /** The low s bits are the remainder by 2^s. */
  lemma {:induction false} LowMaskIsMod(d: nat, s: nat)
    ensures LowMask(d, s) == d % Pow2(s)
  {
    if s > 0 {
      LowMaskIsMod(d / 2, s - 1);
      ModSplit(d, 2, Pow2(s - 1));
    }
  }

  /** `BITS(x, hi, lo)`: the field x[hi:lo], as in a Verilog slice. */
  function Bits(x: nat, hi: nat, lo: nat): (r: nat)
    requires lo <= hi
    ensures r < Pow2(hi - lo + 1)
  {
    (x / Pow2(lo)) % Pow2(hi - lo + 1)
  }

  /** Splitting x at bit k: x == High * 2^k + Low. */
  lemma SplitAt(x: nat, k: nat)
    ensures x == (x / Pow2(k)) * Pow2(k) + x % Pow2(k)
  {
  }

  /** The field x[hi:lo] is zero iff x is unchanged by clearing it: used to read
   *  "bits 1:0 are zero" as "x is a multiple of 4". */
  lemma {:induction false} LowBitsZero(x: nat, k: nat)
    ensures Bits(x, k, 0) == 0 <==> x % Pow2(k + 1) == 0
  {
    assert Pow2(0) == 1;
    assert x / 1 == x;
  }

  // ---------------------------------------------------------------------
  // Decimal rendering, as `std::stringstream << n` writes an integer.

  function DigitChar(d: nat): (c: char)
    requires d < 10
    ensures '0' <= c <= '9'
  {
    "0123456789"[d]
  }

  predicate IsDigits(s: string) {
    forall i :: 0 <= i < |s| ==> '0' <= s[i] <= '9'
  }

  /** The decimal digits of n, most significant first, with no leading zero. */
  function NatToString(n: nat): (s: string)
    ensures |s| >= 1 && IsDigits(s)
    ensures |s| > 1 ==> s[0] != '0'
  {
    if n < 10 then [DigitChar(n)] else NatToString(n / 10) + [DigitChar(n % 10)]
  }

  /** A signed integer: a minus sign followed by the magnitude when negative. */
  function IntToString(i: int): (s: string)
    ensures |s| >= 1
    ensures i >= 0 ==> IsDigits(s)
    ensures i < 0 ==> s[0] == '-' && IsDigits(s[1..])
  {
    if i < 0 then "-" + NatToString(-i) else NatToString(i)
  }

  /** Reading decimal digits back, most significant first. */
  function DigitsValue(s: string): nat
    requires IsDigits(s)
  {
    if s == [] then 0 else 10 * DigitsValue(s[..|s| - 1]) + (s[|s| - 1] - '0') as nat
  }

  lemma {:induction false} NatToStringRoundTrip(n: nat)
    ensures DigitsValue(NatToString(n)) == n
  {
    var s := NatToString(n);
    if n >= 10 {
      NatToStringRoundTrip(n / 10);
      assert s[..|s| - 1] == NatToString(n / 10);
      assert s[|s| - 1] == DigitChar(n % 10);
    }
  }

  /** Distinct numbers render differently: a row of numbers can be read back. */
  lemma NatToStringInjective(a: nat, b: nat)
    requires NatToString(a) == NatToString(b)
    ensures a == b
  {
    NatToStringRoundTrip(a);
    NatToStringRoundTrip(b);
  }

  // ---------------------------------------------------------------------
  // boost::compute::detail::lru_cache, keys only. The sequence lists the
  // keys most recently used first. `insert` of a key already present does
  // nothing; a full cache evicts its least recently used key first.

  predicate NoDup<K(==)>(s: seq<K>) {
    forall i, j :: 0 <= i < j < |s| ==> s[i] != s[j]
  }

  function LruInsert<K(==)>(s: seq<K>, k: K, capacity: nat): (r: seq<K>)
    requires capacity > 0
    ensures k in r
    ensures k in s ==> r == s
    ensures k !in s ==> r[0] == k
    ensures k !in s && |s| < capacity ==> r == [k] + s
    ensures k !in s && |s| >= capacity ==> r == [k] + s[..|s| - 1]
    ensures forall x :: x in r ==> x == k || x in s
    ensures |s| <= capacity ==> |r| <= capacity
    ensures NoDup(s) ==> NoDup(r)
  {
    if k in s then s
    else if |s| >= capacity then [k] + s[..|s| - 1]
    else [k] + s
  }

  /** A set-associative replacement on a map: the victim's entry (if any) makes way for key k. */
  function MapReplace<K, V>(m: map<K, V>, victim: K, k: K, v: V): (r: map<K, V>)
    requires k !in m
    ensures k in r && r[k] == v
    ensures forall x :: x in r ==> x == k || (x in m && x != victim)
    ensures forall x :: x in m && x != victim ==> x in r && r[x] == m[x]
    ensures |r| == if victim in m then |m| else |m| + 1
  {
    var rest := m - {victim};
    assert rest.Keys == m.Keys - {victim};
    assert |rest| == if victim in m then |m| - 1 else |m| by {
      if victim !in m { assert rest == m; }
    }
    rest[k := v]
  }

  /** Inserting the keys of xs one after another, xs[0] first. */
  function LruInsertAll<K(==)>(s: seq<K>, xs: seq<K>, capacity: nat): (r: seq<K>)
    requires capacity > 0
    ensures |s| <= capacity ==> |r| <= capacity
    ensures xs != [] ==> xs[|xs| - 1] in r
  {
    if xs == [] then s
    else LruInsert(LruInsertAll(s, xs[..|xs| - 1], capacity), xs[|xs| - 1], capacity)
  }

  lemma AppendAssoc<T>(a: seq<T>, b: seq<T>, c: seq<T>)
    ensures a + b + c == a + (b + c)
  {
  }

  /** The keys after the inserts are old keys or inserted ones. */
  lemma {:induction false} LruInsertAllKeys<K>(s: seq<K>, xs: seq<K>, capacity: nat, x: K)
    requires capacity > 0 && x in LruInsertAll(s, xs, capacity)
    ensures x in s || x in xs
  {
    if xs != [] {
      var last := xs[|xs| - 1];
      if x != last {
        LruInsertAllKeys(s, xs[..|xs| - 1], capacity, x);
        assert xs == xs[..|xs| - 1] + [last];
      }
    }
  }

  lemma LruInsertAllSnoc<K>(s: seq<K>, xs: seq<K>, x: K, capacity: nat)
    requires capacity > 0
    ensures LruInsertAll(s, xs + [x], capacity) == LruInsert(LruInsertAll(s, xs, capacity), x, capacity)
  {
    assert (xs + [x])[..|xs|] == xs;
  }

  /** Inserting xs and then ys is inserting xs + ys. */
  lemma {:induction false} LruInsertAllAppend<K>(s: seq<K>, xs: seq<K>, ys: seq<K>, capacity: nat)
    requires capacity > 0
    ensures LruInsertAll(s, xs + ys, capacity) == LruInsertAll(LruInsertAll(s, xs, capacity), ys, capacity)
  {
    if ys != [] {
      var init, last := ys[..|ys| - 1], ys[|ys| - 1];
      assert ys == init + [last];
      assert xs + ys == (xs + init) + [last];
      LruInsertAllAppend(s, xs, init, capacity);
      LruInsertAllSnoc(s, xs + init, last, capacity);
      LruInsertAllSnoc(LruInsertAll(s, xs, capacity), init, last, capacity);
    } else {
      assert xs + ys == xs;
    }
  }

  /** The position of the first occurrence of k. */
  function IndexOf<K(==)>(s: seq<K>, k: K): (i: nat)
    requires k in s
    ensures i < |s| && s[i] == k && k !in s[..i]
  {
    if s[0] == k then 0 else 1 + IndexOf(s[1..], k)
  }

  /** `get` on a present key: it becomes the most recently used. */
  function LruTouch<K(==)>(s: seq<K>, k: K): (r: seq<K>)
    requires k in s
    ensures |r| == |s| && r[0] == k
    ensures multiset(r) == multiset(s)
    ensures NoDup(s) ==> NoDup(r)
  {
    var i := IndexOf(s, k);
    MoveToFront(s, i);
    [k] + s[..i] + s[i + 1..]
  }

  /** Moving one element to the front keeps the elements and their distinctness. */
  lemma MoveToFront<K>(s: seq<K>, i: nat)
    requires i < |s|
    ensures multiset([s[i]] + s[..i] + s[i + 1..]) == multiset(s)
    ensures NoDup(s) ==> NoDup([s[i]] + s[..i] + s[i + 1..])
  {
    var r := [s[i]] + s[..i] + s[i + 1..];
    assert s == s[..i] + [s[i]] + s[i + 1..];
    if NoDup(s) {
      forall a, b | 0 <= a < b < |r| ensures r[a] != r[b] {
        // r[0] is s[i]; r[1..] lists s without position i, in order
        var pa := if a == 0 then i else if a <= i then a - 1 else a;
        var pb := if b <= i then b - 1 else b;
        assert r[a] == s[pa] && r[b] == s[pb] && pa != pb;
      }
    }
  }

  // ---------------------------------------------------------------------
  // Splitting text at a separator

  /** The position of the first c in s, or |s| when there is none. */
  function FirstIndex(s: string, c: char): (i: nat)
    ensures i <= |s| && c !in s[..i]
    ensures i < |s| ==> s[i] == c
  {
    if s == [] then 0 else if s[0] == c then 0 else 1 + FirstIndex(s[1..], c)
  }

  lemma {:induction false} FirstIndexAfter(a: string, c: char, b: string)
    requires c !in a
    ensures FirstIndex(a + [c] + b, c) == |a|
  {
    if a != [] {
      assert (a + [c] + b)[1..] == a[1..] + [c] + b;
      FirstIndexAfter(a[1..], c, b);
    }
  }

  /** The text before and after the first c, when s holds one. */
  function SplitAtFirst(s: string, c: char): (r: Option<(string, string)>)
    ensures r.Some? ==> c !in r.value.0 && s == r.value.0 + ([c] + r.value.1)
    ensures r.None? <==> c !in s
  {
    var i := FirstIndex(s, c);
    if i == |s| then None
    else
      assert s == s[..i] + ([c] + s[i + 1..]);
      Some((s[..i], s[i + 1..]))
  }

  /** Cutting text at every c. */
  function SplitAll(s: string, c: char): (items: seq<string>)
    ensures |items| >= 1
    decreases |s|
  {
    match SplitAtFirst(s, c)
    case None => [s]
    case Some((head, rest)) => [head] + SplitAll(rest, c)
  }

  lemma SplitAtFirstOf(a: string, c: char, b: string)
    requires c !in a
    ensures SplitAtFirst(a + ([c] + b), c) == Some((a, b))
  {
    assert a + ([c] + b) == a + [c] + b;
    FirstIndexAfter(a, c, b);
    assert (a + [c] + b)[..|a|] == a;
    assert (a + [c] + b)[|a| + 1..] == b;
  }
}
