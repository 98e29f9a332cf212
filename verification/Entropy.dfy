/** Integer entropy estimates from a byte histogram. */
module Entropy {
  import opened Arith
  import opened MachineInts
  import opened Rank

  /** bits.Len64: the number of binary digits. */
  function Len64(x: nat): (n: nat)
    ensures x > 0 ==> n > 0 && Pow2(n - 1) <= x < Pow2(n)
  {
    if x == 0 then 0 else 1 + Len64(x / 2)
  }

  lemma {:induction false} Pow2Add(j: nat, k: nat)
    ensures Pow2(j + k) == Pow2(j) * Pow2(k)
    decreases j
  {
    if j > 0 {
      Pow2Add(j - 1, k);
      assert 2 * (Pow2(j - 1) * Pow2(k)) == (2 * Pow2(j - 1)) * Pow2(k);
    }
  }

  lemma {:induction false} Pow2Less(j: nat, k: nat)
    requires Pow2(j) < Pow2(k)
    ensures j < k
  {
    if j >= k { Pow2Mono(k, j); }
  }

  lemma {:induction false} Pow2Mono(j: nat, k: nat)
    requires j <= k
    ensures Pow2(j) <= Pow2(k)
    decreases k
  {
    if j < k { Pow2Mono(j, k - 1); }
  }

  lemma Pow2Of64()
    ensures Pow2(63) == 0x8000_0000_0000_0000 && Pow2(64) == 0x1_0000_0000_0000_0000
  {
    assert Pow2(4) == 16;
    Pow2Add(4, 4);
    Pow2Add(8, 8);
    Pow2Add(16, 16);
    Pow2Add(32, 32);
    assert Pow2(64) == 2 * Pow2(63);
  }

  /** floor(log2 x), and the first 16 bits of its binary expansion after the leading one. */
  function IntLog2Q16(x: uint64): (r: (int, uint32))
    ensures x == 0 ==> r == (0, 0)
    ensures x > 0 ==> 0 <= r.0 <= 63 && Pow2(r.0) <= x as nat < Pow2(r.0 + 1)
    ensures x > 0 ==> r.1 < Q_ONE
    ensures x > 0 ==>
      (0x1_0000 + r.1 as nat) * Pow2(r.0) <= x as nat * 0x1_0000 < (0x1_0000 + r.1 as nat + 1) * Pow2(r.0)
  {
    if x == 0 then (0, 0)
    else
      var ilog := Len64(x as nat) - 1;
      Pow2Of64();
      Pow2Less(ilog, 64);
      var y := x as nat * Pow2(63 - ilog);   // top bit at 63
      LeadingBits(x as nat, ilog);
      (ilog, ((y / 0x8000_0000_0000) % 0x1_0000) as uint32)
  }

  lemma LeadingBits(x: nat, ilog: nat)
    requires ilog <= 63 && Pow2(ilog) <= x < Pow2(ilog + 1)
    ensures var y := x * Pow2(63 - ilog); var q := y / 0x8000_0000_0000;
      y < 0x1_0000_0000_0000_0000 && 0x1_0000 <= q < 0x2_0000 && q % 0x1_0000 == q - 0x1_0000
      && q * Pow2(ilog) <= x * 0x1_0000 < (q + 1) * Pow2(ilog)
  {
    var p, r := Pow2(ilog), Pow2(63 - ilog);
    Pow2Add(ilog, 63 - ilog);
    Pow2Of64();
    assert Pow2(ilog + 1) == 2 * p;
    hide Pow2;
    TopBits(x, p, r);
  }

  lemma TopBits(x: nat, p: nat, r: nat)
    requires p >= 1 && r >= 1 && p * r == 0x8000_0000_0000_0000 && p <= x < 2 * p
    ensures var y := x * r; var q := y / 0x8000_0000_0000;
      y < 0x1_0000_0000_0000_0000 && 0x1_0000 <= q < 0x2_0000 && q * p <= x * 0x1_0000 < (q + 1) * p
  {
    var y := x * r;
    var q := y / 0x8000_0000_0000;
    MulMono(p, x, r);
    MulMono(x + 1, 2 * p, r);
    assert (2 * p) * r == 2 * (p * r);
    assert (x + 1) * r == x * r + r;
    // q * 2^47 <= x * r < (q + 1) * 2^47, and 2^47 * 2^16 == p * r
    CancelFactor(q, p, r, x);
    CancelFactor(q + 1, p, r, x);
  }

  lemma CancelFactor(q: nat, p: nat, r: nat, x: nat)
    requires r >= 1 && p * r == 0x8000_0000_0000_0000
    ensures q * 0x8000_0000_0000 <= x * r ==> q * p <= x * 0x1_0000
    ensures x * r < q * 0x8000_0000_0000 ==> x * 0x1_0000 < q * p
  {
    assert (q * p) * r == q * 0x8000_0000_0000_0000 by { assert (q * p) * r == q * (p * r); }
    assert (x * 0x1_0000) * r == (x * r) * 0x1_0000;
    MulCancel(q * p, x * 0x1_0000, r);
    MulCancel(x * 0x1_0000, q * p, r);
  }

  // ---------- estimators ----------

  const WRAP: nat := 0x1_0000_0000_0000_0000

  /** k is the base-two logarithm of x rounded down, or the cap if that is less. */
  ghost predicate CappedLog(x: nat, cap: nat, k: nat) {
    k <= cap && Pow2(k) <= x && (k < cap ==> x < Pow2(k + 1))
  }

  /** The capped integer logarithm of a ratio. */
  function LogOfRatio(ratio: uint64, cap: uint16): (r: uint16)
    ensures r <= cap && (ratio == 0 ==> r == 0)
    ensures ratio > 0 ==> CappedLog(ratio as nat, cap as nat, r as nat)
  {
    if ratio == 0 then 0
    else
      var ilog := IntLog2Q16(ratio).0;
      Pow2Mono(if ilog > cap as int then cap as nat else ilog, ilog);
      MinU16(MinU16(ilog as uint16, cap), 128)
  }

  function MinU16(a: uint16, b: uint16): uint16 {
    if a > b then b else a
  }

  function HMinBits(n: uint64, maxCnt: uint64, seedBitCap: uint16): (r: uint16)
    ensures n == 0 || maxCnt == 0 || n < maxCnt ==> r == 0
    ensures 0 < maxCnt <= n ==> CappedLog(n as nat / maxCnt as nat, seedBitCap as nat, r as nat)
  {
    if n == 0 || maxCnt == 0 then 0
    else
      Quotient64(n, maxCnt);
      LogOfRatio(n / maxCnt, seedBitCap)
  }

  lemma Quotient64(a: uint64, b: uint64)
    requires b > 0
    ensures 0 <= a as int / b as int <= a as int && (a as int / b as int > 0 <==> a >= b)
  {
    DivAtLeast(a as int, b as nat, 0);
    DivAtLeast(a as int, b as nat, 1);
    DivBounds(a as int, b as nat);
    MulMono(1, b as int, a as int / b as int);
  }

  /** The square of n in 64 bits: exact below 2^32, and 0 at 2^32. */
  function Squared(n: uint64): (r: nat)
    ensures r < WRAP && (n < 0x1_0000_0000 ==> r == n as nat * n as nat) && (n == 0x1_0000_0000 ==> r == 0)
  {
    SquareFits(n as nat);
    (n as nat * n as nat) % WRAP
  }

  lemma SquareFits(n: nat)
    ensures n < 0x1_0000_0000 ==> n * n < WRAP && (n * n) % WRAP == n * n
  {
    if n < 0x1_0000_0000 { MulMono(n, 0xFFFF_FFFF, n); }
  }

  function HRenyi2Bits(n: uint64, sumSq: uint64, seedBitCap: uint16): (r: uint16)
    ensures if n == 0 || sumSq == 0 || Squared(n) < sumSq as nat then r == 0
      else CappedLog(Squared(n) / sumSq as nat, seedBitCap as nat, r as nat)
  {
    if n == 0 || sumSq == 0 then 0 else Estimate(Squared(n) as uint64, sumSq, seedBitCap)
  }

  function Estimate(num: uint64, sumSq: uint64, cap: uint16): (r: uint16)
    requires sumSq > 0
    ensures num < sumSq ==> r == 0
    ensures num >= sumSq ==> CappedLog(num as nat / sumSq as nat, cap as nat, r as nat)
  {
    if num == 0 then 0
    else
      Quotient64(num, sumSq);
      LogOfRatio(num / sumSq, cap)
  }

  method HLowerBoundBits(vals: seq<uint16>) returns (m: uint16)
    ensures vals == [] ==> m == 0
    ensures vals != [] ==> exists v :: v in vals && m == if v > 128 then 128 else v
    ensures forall v :: v in vals ==> m <= v
  {
    if |vals| == 0 { return 0; }
    m := vals[0];
    for i := 1 to |vals|
      invariant m in vals && forall j :: 0 <= j < i ==> m <= vals[j]
    {
      if vals[i] < m { m := vals[i]; }
    }
    if m > 128 { return 128; }
  }

  /** Min-entropy is at most collision entropy, because the squares sum to at most maxCnt times n. */
  lemma HMinAtMostH2(n: uint64, maxCnt: uint64, sumSq: uint64, hmin: uint16, h2: uint16)
    requires 0 < maxCnt <= n < 0x1_0000_0000 && 0 < sumSq as nat <= maxCnt as nat * n as nat
    requires hmin == HMinBits(n, maxCnt, 128) && h2 == HRenyi2Bits(n, sumSq, 128)
    ensures hmin <= h2
  {
    MulMono(maxCnt as int, n as int, n as nat);
    RatioGrows(n as nat, maxCnt as nat, sumSq as nat);
    Pow2Less(hmin as nat, h2 as nat + 1);
  }

  lemma RatioGrows(n: nat, m: nat, q: nat)
    requires m > 0 && q > 0 && q <= m * n
    ensures n / m <= (n * n) / q
  {
    var a := n / m;
    DivBounds(n, m);
    DivAtLeast(n, m, 0);
    MulMono(q, m * n, a);
    MulMono(a * m, n, n);
    assert a * (m * n) == (a * m) * n;
    DivAtLeast(n * n, q, a);
  }

  /** With 256 symbols the most frequent one takes at least a 256th. */
  lemma HMinAtMost8(n: uint64, maxCnt: uint64)
    requires 0 < maxCnt <= n && n as nat <= 256 * maxCnt as nat
    ensures HMinBits(n, maxCnt, 128) <= 8
  {
    var r := HMinBits(n, maxCnt, 128) as nat;
    DivAtLeast(n as int, maxCnt as nat, 257);
    assert Pow2(4) == 16 && Pow2(9) == 2 * Pow2(8);
    Pow2Add(4, 4);
    Pow2Less(r, 9);
  }

  // ---------- the histogram ----------

  function Sum(f: seq<uint64>): nat {
    if f == [] then 0 else Sum(f[..|f| - 1]) + f[|f| - 1] as nat
  }

  function SumSq(f: seq<uint64>): nat {
    if f == [] then 0 else SumSq(f[..|f| - 1]) + f[|f| - 1] as nat * f[|f| - 1] as nat
  }

  lemma {:induction false} SumUpdate(f: seq<uint64>, i: nat, v: uint64)
    requires i < |f|
    ensures Sum(f[i := v]) == Sum(f) - f[i] as nat + v as nat
  {
    var last := |f| - 1;
    if i == last {
      assert f[i := v][..last] == f[..last];
    } else {
      SumUpdate(f[..last], i, v);
      assert f[i := v][..last] == f[..last][i := v];
    }
  }

  lemma {:induction false} SumZero(f: seq<uint64>)
    requires forall i :: 0 <= i < |f| ==> f[i] == 0
    ensures Sum(f) == 0
  {
    if f != [] { SumZero(f[..|f| - 1]); }
  }

  /** Sums bounded by the greatest entry m. */
  lemma {:induction false} SumBounds(f: seq<uint64>, m: nat)
    requires forall i :: 0 <= i < |f| ==> f[i] as nat <= m
    ensures Sum(f) <= |f| * m && SumSq(f) <= m * Sum(f)
  {
    if f != [] {
      var rest, x := f[..|f| - 1], f[|f| - 1] as nat;
      SumBounds(rest, m);
      MulMono(x, m, x);
      Distribute(|rest|, 1, m);
      Distribute(Sum(rest), x, m);
      hide Sum, SumSq;
    }
  }

  lemma Distribute(a: nat, b: nat, m: nat)
    ensures (a + b) * m == a * m + b * m && m * (a + b) == m * a + m * b
  {
  }

  lemma {:induction false} EntryAtMostSum(f: seq<uint64>, i: nat)
    requires i < |f|
    ensures f[i] as nat <= Sum(f) && f[i] as nat * f[i] as nat <= SumSq(f)
  {
    var rest, x := f[..|f| - 1], f[|f| - 1] as nat;
    MulMono(0, x, x);
    if i < |rest| { EntryAtMostSum(rest, i); }
  }

  function Flatten(streams: seq<seq<byte>>): seq<byte> {
    if streams == [] then [] else Flatten(streams[..|streams| - 1]) + streams[|streams| - 1]
  }

  ghost predicate Histogram(f: seq<uint64>, s: seq<byte>) {
    |f| == 256 && Sum(f) == |s| && forall b: byte :: f[b as int] as nat == multiset(s)[b]
  }

  lemma CountByte(f: seq<uint64>, s: seq<byte>, b: byte)
    requires Histogram(f, s) && f[b as int] < 0xFFFF_FFFF_FFFF_FFFF
    ensures Histogram(f[b as int := f[b as int] + 1], s + [b])
  {
    SumUpdate(f, b as int, f[b as int] + 1);
  }

  /** k is the integer min-entropy of s: the logarithm of its length over its greatest frequency. */
  ghost predicate IsMinEntropy(s: seq<byte>, k: nat) {
    exists b: byte :: IsModeWith(s, k, b)
  }

  ghost predicate IsModeWith(s: seq<byte>, k: nat, b: byte) {
    var m := multiset(s)[b];
    m > 0 && (forall c: byte :: multiset(s)[c] <= m) && Pow2(k) <= |s| / m < Pow2(k + 1)
  }

  /** Count the bytes of all streams, one by one. */
  method CountBytes(streams: seq<seq<byte>>) returns (freq: seq<uint64>, n: uint64)
    requires |Flatten(streams)| < WRAP   // bytes in storage never exhaust a 64-bit counter
    ensures Histogram(freq, Flatten(streams)) && n as nat == |Flatten(streams)|
  {
    freq, n := seq(256, i => 0), 0;
    SumZero(freq);
    assert streams[..0] == [];
    for i := 0 to |streams|
      invariant Histogram(freq, Flatten(streams[..i])) && n as nat == |Flatten(streams[..i])|
    {
      var bytes := streams[i];
      ghost var before := Flatten(streams[..i]);
      assert streams[..i + 1][..i] == streams[..i];
      assert Flatten(streams[..i + 1]) == before + bytes;
      FlattenGrows(streams, i + 1);
      assert before + bytes[..0] == before;
      for j := 0 to |bytes|
        invariant Histogram(freq, before + bytes[..j]) && n as nat == |before| + j
      {
        var b := bytes[j];
        hide Histogram;
        FreqBound(freq, before + bytes[..j], b);
        CountByte(freq, before + bytes[..j], b);
        freq, n := freq[b as int := freq[b as int] + 1], n + 1;
        assert before + bytes[..j + 1] == before + bytes[..j] + [b];
      }
      assert bytes[..|bytes|] == bytes;
    }
    assert streams[..|streams|] == streams;
  }

  lemma FreqBound(f: seq<uint64>, s: seq<byte>, b: byte)
    requires Histogram(f, s)
    ensures |f| == 256 && f[b as int] as nat <= |s|
  {
    EntryAtMostSum(f, b as nat);
  }

  lemma {:induction false} FlattenGrows(streams: seq<seq<byte>>, i: nat)
    requires i <= |streams|
    ensures |Flatten(streams[..i])| <= |Flatten(streams)|
    decreases |streams|
  {
    if i == |streams| {
      assert streams[..i] == streams;
    } else {
      FlattenGrows(streams[..|streams| - 1], i);
      assert streams[..|streams| - 1][..i] == streams[..i];
    }
  }

  /** The greatest entry, and the sum of squares in 64 bits. */
  method Stats(freq: seq<uint64>) returns (maxCnt: uint64, sumSq: uint64)
    requires |freq| == 256
    ensures maxCnt in freq && (forall c :: c in freq ==> c <= maxCnt)
    ensures sumSq as nat == SumSq(freq) % WRAP
  {
    maxCnt, sumSq := 0, 0;
    for i := 0 to 256
      invariant (maxCnt == 0 || maxCnt in freq[..i]) && forall j :: 0 <= j < i ==> freq[j] <= maxCnt
      invariant sumSq as nat == SumSq(freq[..i]) % WRAP
    {
      var c := freq[i];
      if c > maxCnt { maxCnt := c; }
      assert freq[..i + 1][..i] == freq[..i];
      AddWrapped(SumSq(freq[..i]), c as nat * c as nat);
      sumSq := ((sumSq as nat + (c as nat * c as nat) % WRAP) % WRAP) as uint64;
    }
    assert freq[..256] == freq;
    if maxCnt == 0 { assert freq[0] == 0; }
  }

  lemma AddWrapped(a: nat, b: nat)
    ensures (a % WRAP + b % WRAP) % WRAP == (a + b) % WRAP
  {
  }

  /** The collision estimate, as taken in 64 bits, is at least k. */
  ghost predicate Unlowered(f: seq<uint64>, n: uint64, k: nat) {
    k == 0 || (SumSq(f) % WRAP > 0 && Squared(n) / (SumSq(f) % WRAP) >= Pow2(k))
  }

  /** The result r follows from the bytes: with k their min-entropy it is at most k in units of 2^16 / 128,
      and it is k if and only if the collision estimate in 64 bits does not lower it. */
  ghost predicate Measures(s: seq<byte>, r: uint32, f: seq<uint64>, k: nat)
    requires |s| < WRAP
  {
    Histogram(f, s) && IsMinEntropy(s, k) && k <= 8 && r as nat <= 512 * k
    && (r as nat == 512 * k <==> Unlowered(f, |s| as uint64, k))
  }

  /** Below 2^32 bytes nothing wraps and the normalised entropy is the min-entropy of the bytes, at most 8 bits. */
  method EpochEntropyQ16(streams: seq<seq<byte>>) returns (r: uint32)
    requires |Flatten(streams)| < WRAP
    ensures Flatten(streams) == [] ==> r == 0
    ensures Flatten(streams) != [] ==> exists f, k: nat :: Measures(Flatten(streams), r, f, k)
    ensures 0 < |Flatten(streams)| < 0x1_0000_0000 ==>
      exists k: nat :: k <= 8 && IsMinEntropy(Flatten(streams), k) && r as nat == 512 * k
    ensures |Flatten(streams)| == 0x1_0000_0000 ==> r == 0
  {
    ghost var all := Flatten(streams);
    var freq, n := CountBytes(streams);
    if n == 0 { return 0; }
    var maxCnt, sumSq := Stats(freq);
    var hmin, h2 := HMinBits(n, maxCnt, 128), HRenyi2Bits(n, sumSq, 128);
    var hb := HLowerBoundBits([hmin, h2]);
    assert hmin in [hmin, h2] && h2 in [hmin, h2];
    assert hb == if hmin <= h2 then hmin else h2 by { MinEstimate(freq, all, n, maxCnt); }
    r := NormalizeEntropyQ16(hb);
    MinEstimate(freq, all, n, maxCnt);
    CollisionEstimate(freq, n, sumSq, hmin as nat);
    hide Histogram, IsMinEntropy, SumSq, Pow2, HMinBits, HRenyi2Bits, Squared;
    assert Measures(all, r, freq, hmin as nat);
    if n < 0x1_0000_0000 { CollisionIsMore(freq, all, n, maxCnt, sumSq); }
    if n == 0x1_0000_0000 { AtWrap(n, sumSq); }
  }

  lemma AtWrap(n: uint64, sumSq: uint64)
    requires n == 0x1_0000_0000
    ensures HRenyi2Bits(n, sumSq, 128) == 0
  {
  }

  lemma HistogramFacts(f: seq<uint64>, n: nat, m: nat)
    requires |f| == 256 && Sum(f) == n && 0 < n
    requires (exists i :: 0 <= i < |f| && f[i] as nat == m) && forall i :: 0 <= i < |f| ==> f[i] as nat <= m
    ensures 1 <= m <= n <= 256 * m && 0 < SumSq(f) <= m * n
  {
    var i :| 0 <= i < |f| && f[i] as nat == m;
    SumBounds(f, m);
    EntryAtMostSum(f, i);
    assert m >= 1;
    MulMono(1, m, m);
  }

  lemma ModeIsMinEntropy(f: seq<uint64>, s: seq<byte>, i: nat, k: nat)
    requires Histogram(f, s) && i < 256 && f[i] > 0 && (forall j :: 0 <= j < 256 ==> f[j] <= f[i])
    requires Pow2(k) <= |s| / f[i] as nat < Pow2(k + 1)
    ensures IsMinEntropy(s, k)
  {
    assert multiset(s)[i as byte] == f[i] as nat;
    forall c: byte ensures multiset(s)[c] <= multiset(s)[i as byte] { assert f[c as int] <= f[i]; }
    assert IsModeWith(s, k, i as byte);
  }

  /** The min-entropy estimate is the min-entropy, at most 8 bits. */
  lemma MinEstimate(f: seq<uint64>, s: seq<byte>, n: uint64, maxCnt: uint64)
    requires Histogram(f, s) && 0 < n as nat == |s| && maxCnt in f && forall c :: c in f ==> c <= maxCnt
    ensures var k := HMinBits(n, maxCnt, 128) as nat; k <= 8 && IsMinEntropy(s, k)
    ensures 0 < maxCnt <= n && 0 < SumSq(f) <= maxCnt as nat * n as nat
  {
    var i :| 0 <= i < |f| && f[i] == maxCnt;
    assert forall j :: 0 <= j < 256 ==> f[j] in f;
    HistogramFacts(f, n as nat, maxCnt as nat);
    hide Sum, SumSq, Pow2, IsMinEntropy, HMinBits;
    HMinAtMost8(n, maxCnt);
    ModeIsMinEntropy(f, s, i, HMinBits(n, maxCnt, 128) as nat);
  }

  /** The collision estimate is at least k exactly when the ratio in 64 bits is at least 2^k. */
  lemma CollisionEstimate(f: seq<uint64>, n: uint64, sumSq: uint64, k: nat)
    requires n > 0 && sumSq as nat == SumSq(f) % WRAP && k <= 8
    ensures HRenyi2Bits(n, sumSq, 128) as nat >= k <==> Unlowered(f, n, k)
  {
    var h2 := HRenyi2Bits(n, sumSq, 128) as nat;
    if sumSq > 0 {
      var q := Squared(n) / sumSq as nat;
      DivAtLeast(Squared(n), sumSq as nat, 1);
      if h2 >= k { Pow2Mono(k, h2); } else { Pow2Mono(h2 + 1, k); }
    }
    hide SumSq, Squared, HRenyi2Bits;
  }

  /** Below 2^32 bytes the collision estimate does not lower the result. */
  lemma CollisionIsMore(f: seq<uint64>, s: seq<byte>, n: uint64, maxCnt: uint64, sumSq: uint64)
    requires Histogram(f, s) && 0 < n as nat == |s| < 0x1_0000_0000
    requires maxCnt in f && (forall c :: c in f ==> c <= maxCnt) && sumSq as nat == SumSq(f) % WRAP
    ensures HMinBits(n, maxCnt, 128) <= HRenyi2Bits(n, sumSq, 128)
  {
    MinEstimate(f, s, n, maxCnt);
    MulMono(maxCnt as int, n as int, n as nat);
    SquareFits(n as nat);
    hide SumSq, Pow2, HMinBits, HRenyi2Bits, Squared, Histogram, IsMinEntropy;
    HMinAtMostH2(n, maxCnt, sumSq, HMinBits(n, maxCnt, 128), HRenyi2Bits(n, sumSq, 128));
  }
}
