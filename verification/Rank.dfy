/** Fixed-point weights and the 33-byte rank of a VRF output. */
module Rank {
  import opened Arith
  import opened BigEndian
  import opened MachineInts

  const Q_ONE: uint32 := 0x1_0000

  // ---------- weights ----------

  function MovingAvg4Q16(v0: uint32, v1: uint32, v2: uint32, v3: uint32): (r: uint32)
    ensures 4 * r as int <= v0 as int + v1 as int + v2 as int + v3 as int < 4 * r as int + 4
  {
    var s0 := v0 as uint64 + v1 as uint64 + v2 as uint64 + v3 as uint64;
    (s0 / 4) as uint32
  }

  /** At least one in Q16.16, so a rank is never divided by zero. */
  function WeightQ16(alphaQ16: uint32, h0: uint32, h1: uint32, h2: uint32, h3: uint32): (r: uint32)
    ensures r >= Q_ONE
    ensures var product := alphaQ16 as int * MovingAvg4Q16(h0, h1, h2, h3) as int; var gain := r as int - 0x1_0000;
      gain * 0x1_0000 <= product && (r < 0xFFFF_FFFF ==> product < (gain + 1) * 0x1_0000)
  {
    var ma := MovingAvg4Q16(h0, h1, h2, h3);
    MulBound(alphaQ16 as int, ma as int);
    var prod := (alphaQ16 as uint64 * ma as uint64) / 0x1_0000;
    var wt := Q_ONE as uint64 + prod;
    if wt > 0xFFFF_FFFF then 0xFFFF_FFFF else wt as uint32
  }

  lemma MulBound(a: nat, b: nat)
    requires a < 0x1_0000_0000 && b < 0x1_0000_0000
    ensures a * b <= 0xFFFF_FFFF * 0xFFFF_FFFF
  {
    MulMono(a, 0xFFFF_FFFF, b);
  }

  /** More entropy never weighs less. */
  lemma WeightMonotone(alpha: uint32, h0: uint32, h1: uint32, h2: uint32, h3: uint32, g0: uint32, g1: uint32,
      g2: uint32, g3: uint32)
    requires h0 <= g0 && h1 <= g1 && h2 <= g2 && h3 <= g3
    ensures WeightQ16(alpha, h0, h1, h2, h3) <= WeightQ16(alpha, g0, g1, g2, g3)
  {
    var a, b := MovingAvg4Q16(h0, h1, h2, h3) as int, MovingAvg4Q16(g0, g1, g2, g3) as int;
    MulMono(a, b, alpha as nat);
    MulBound(alpha as int, a);
    MulBound(alpha as int, b);
  }

  function NormalizeEntropyQ16(bits: uint16): (r: uint32)
    ensures r <= Q_ONE && r as int == 512 * (if bits > 128 then 128 else bits) as int
  {
    var v := (if bits > 128 then 128 else bits) as uint32;
    (v * 0x1_0000) / 128
  }

  // ---------- the rank ----------

  /** The 33-byte numerator: the VRF output times 2^16, without what overflows 33 bytes. */
  function Numerator(y: seq<byte>): nat {
    (Value(y) * 0x1_0000) % Pow256(33)
  }

  /** The low bytes of the shifted number and the carry account for the input bytes so far. */
  ghost predicate ShiftedSoFar(low: seq<byte>, carry: nat, rest: seq<byte>) {
    |low| == |rest| && Value(low) + carry * Pow256(|low|) == Value(rest) * 0x1_0000
  }

  lemma ShiftByte(low: seq<byte>, carry: nat, rest: seq<byte>, b: byte, v: nat)
    requires ShiftedSoFar(low, carry, rest) && v == b as nat * 0x1_0000 + carry
    ensures ShiftedSoFar([(v % 0x100) as byte] + low, v / 0x100, [b] + rest)
  {
    ValueCons((v % 0x100) as byte, low);
    ValueCons(b, rest);
    ShiftStep(v, b as nat, carry, Pow256(|low|), Value(low), Value(rest));
  }

  lemma ShiftDone(low: seq<byte>, carry: nat, y: seq<byte>)
    requires |y| == 32 && ShiftedSoFar(low, carry, y)
    ensures Value([(carry % 0x100) as byte] + low) == Numerator(y)
  {
    var num := [(carry % 0x100) as byte] + low;
    ValueCons((carry % 0x100) as byte, low);
    ValueBound(num);
    assert Pow256(33) == 256 * Pow256(32);
    hide Pow256, Value;
    LowPart(Value(y) * 0x1_0000, Value(num), carry, Pow256(32), Value(low));
  }

  /** Shift a 32-byte number left by 16 bits into 33 bytes. */
  method ShiftLeft16(y: seq<byte>) returns (num: seq<byte>)
    requires |y| == 32
    ensures |num| == 33 && Value(num) == Numerator(y)
  {
    var buf := new byte[33];
    var carry: uint32 := 0;
    var i := 32;
    assert ShiftedSoFar(buf[33..], 0, y[32..]);
    hide ShiftedSoFar, Value, Numerator;
    while i > 0
      invariant 0 <= i <= 32 && carry < 0x1_0000 && ShiftedSoFar(buf[i + 1..], carry as nat, y[i..])
    {
      ghost var low := buf[i + 1..];
      i := i - 1;
      var v := y[i] as uint32 * 0x1_0000 + carry;   // the two operands of the source's | have no common bit
      ShiftByte(low, carry as nat, y[i + 1..], y[i], v as nat);
      buf[i + 1] := (v % 0x100) as byte;
      carry := v / 0x100;
      assert buf[i + 1..] == [buf[i + 1]] + low && y[i..] == [y[i]] + y[i + 1..];
    }
    ghost var low := buf[1..];
    buf[0] := (carry % 0x100) as byte;
    num := buf[..];
    assert num == [buf[0]] + low && y[0..] == y;
    ShiftDone(low, carry as nat, y);
  }

  lemma ShiftStep(v: nat, b: nat, c: nat, p: nat, low: nat, rest: nat)
    requires v == b * 0x1_0000 + c && low + c * p == rest * 0x1_0000
    ensures (v % 0x100) * p + low + (v / 0x100) * (256 * p) == (b * p + rest) * 0x1_0000
  {
    calc {
      (v % 0x100) * p + low + (v / 0x100) * (256 * p);
      ((v % 0x100) + 256 * (v / 0x100)) * p + low;
      { assert (v % 0x100) + 256 * (v / 0x100) == v; }
      v * p + low;
      (b * 0x1_0000) * p + c * p + low;
      (b * p) * 0x1_0000 + rest * 0x1_0000;
      (b * p + rest) * 0x1_0000;
    }
  }

  lemma LowPart(total: nat, num: nat, carry: nat, p: nat, low: nat)
    requires p > 0 && num < 256 * p && num == (carry % 256) * p + low && low + carry * p == total
    ensures total % (256 * p) == num
  {
    var high := carry / 256;
    calc {
      total;
      low + (256 * high + carry % 256) * p;
      high * (256 * p) + num;
    }
    DivUnique(total, high, 256 * p, num);
  }

  /** The digits of the quotient and the remainder account for the digits of the dividend. */
  ghost predicate DividedSoFar(num: seq<byte>, out: seq<byte>, d: nat, rem: nat) {
    rem < d && Value(num) == Value(out) * d + rem
  }

  lemma DivideByte(num: seq<byte>, out: seq<byte>, d: nat, rem: nat, b: byte, q: byte, rem': nat)
    requires DividedSoFar(num, out, d, rem) && NextDigit(rem, b, d, q, rem')
    ensures DividedSoFar(num + [b], out + [q], d, rem')
  {
    ValueSnoc(num, b);
    ValueSnoc(out, q);
    DivisionStep(Value(num), Value(out), rem, b as nat, d, q as nat, rem');
  }

  /** One step of long division by d. */
  ghost predicate NextDigit(rem: nat, b: byte, d: nat, q: byte, rem': nat) {
    rem' < d && rem * 256 + b as nat == q as nat * d + rem'
  }

  /** The digit fits a byte and nothing overflows 64 bits. */
  method DivideDigit(rem: uint64, b: byte, d: uint64) returns (q: byte, rem': uint64)
    requires rem < d <= 0xFFFF_FFFF
    ensures NextDigit(rem as nat, b, d as nat, q, rem' as nat)
  {
    var cur := rem * 0x100 + b as uint64;
    DigitFits(rem as nat, b as nat, d as nat);
    DivBounds(cur as int, d as nat);
    q, rem' := (cur / d) as byte, cur % d;
  }

  /** The rank of a VRF output under a weight. */
  ghost function ExactRank(y: seq<byte>, w: nat): nat
    requires w > 0
  {
    DivAtLeast(Numerator(y), w, 0);
    Numerator(y) / w
  }

  /** The result is the exact quotient. */
  method RankValue(y: seq<byte>, wtQ16: uint32) returns (rank: seq<byte>)
    requires |y| == 32 && wtQ16 > 0   // a zero weight would divide by zero; see WeightQ16
    ensures |rank| == 33 && Value(rank) == ExactRank(y, wtQ16 as nat)
  {
    var num := ShiftLeft16(y);
    var out := new byte[33];
    var rem: uint64, d := 0, wtQ16 as uint64;
    assert DividedSoFar([], [], d as nat, 0);
    assert num[..0] == [] == out[..0];
    hide DividedSoFar, Value, Numerator, NextDigit, ExactRank;
    for i := 0 to 33
      invariant rem < d && DividedSoFar(num[..i], out[..i], d as nat, rem as nat)
    {
      ghost var quot, rem0 := out[..i], rem as nat;
      out[i], rem := DivideDigit(rem, num[i], d);
      assert num[..i + 1] == num[..i] + [num[i]] && out[..i + 1] == quot + [out[i]];
      DivideByte(num[..i], quot, d as nat, rem0, num[i], out[i], rem as nat);
      DividedRemainder(num[..i + 1], out[..i + 1], d as nat, rem as nat);
    }
    rank := out[..];
    assert num[..33] == num && out[..33] == rank;
    DivideDone(y, num, rank, d as nat, rem as nat);
  }

  lemma DividedRemainder(num: seq<byte>, out: seq<byte>, d: nat, rem: nat)
    requires DividedSoFar(num, out, d, rem)
    ensures rem < d
  {
  }

  lemma DivideDone(y: seq<byte>, num: seq<byte>, out: seq<byte>, d: nat, rem: nat)
    requires DividedSoFar(num, out, d, rem) && Value(num) == Numerator(y)
    ensures d > 0 && Value(out) == ExactRank(y, d)
  {
    DivUnique(Value(num), Value(out), d, rem);
  }

  lemma DigitFits(rem: nat, b: nat, d: nat)
    requires rem < d && b < 256
    ensures 0 <= (rem * 256 + b) / d < 256 && 0 <= (rem * 256 + b) % d < d
  {
    DivAtLeast(rem * 256 + b, d, 256);
    DivAtLeast(rem * 256 + b, d, 0);
  }

  lemma DivisionStep(n: nat, quot: nat, rem: nat, b: nat, d: nat, q: nat, rem': nat)
    requires n == quot * d + rem && rem * 256 + b == q * d + rem'
    ensures n * 256 + b == (quot * 256 + q) * d + rem'
  {
    calc {
      n * 256 + b;
      (quot * d) * 256 + (q * d + rem');
      (quot * 256 + q) * d + rem';
    }
  }

  /** CmpRank is comparison of numbers. */
  method CmpRank(a: seq<byte>, b: seq<byte>) returns (c: int)
    requires |a| == |b|
    ensures c == if Value(a) < Value(b) then -1 else if Value(a) > Value(b) then 1 else 0
  {
    for i := 0 to |a|
      invariant a[..i] == b[..i]
    {
      if a[i] < b[i] {
        FirstDifferenceDecides(a, b, i);
        return -1;
      }
      if a[i] > b[i] {
        FirstDifferenceDecides(b, a, i);
        return 1;
      }
    }
    assert a == a[..|a|] == b[..|a|] == b;
    return 0;
  }

  lemma FirstDifferenceDecides(a: seq<byte>, b: seq<byte>, i: nat)
    requires i < |a| == |b| && a[..i] == b[..i] && a[i] < b[i]
    ensures Value(a) < Value(b)
  {
    var k := |a| - i - 1;
    assert a == a[..i + 1] + a[i + 1..] && a[..i + 1] == a[..i] + [a[i]];
    assert b == b[..i + 1] + b[i + 1..] && b[..i + 1] == b[..i] + [b[i]];
    ValueConcat(a[..i + 1], a[i + 1..]);
    ValueConcat(b[..i + 1], b[i + 1..]);
    ValueSnoc(a[..i], a[i]);
    ValueSnoc(b[..i], b[i]);
    ValueBound(a[i + 1..]);
    LexLess(Value(a[..i + 1]), Value(b[..i + 1]), Pow256(k), Value(a[i + 1..]), Value(b[i + 1..]));
    hide Value, Pow256;
  }

  lemma LexLess(x: nat, y: nat, p: nat, low: nat, low': nat)
    requires x < y && low < p
    ensures x * p + low < y * p + low'
  {
    MulMono(x + 1, y, p);
    assert (x + 1) * p == x * p + p;
  }

  // ---------- what ranks order ----------

  /** The numerator is the low 31 bytes of the output, shifted: the top byte is lost. */
  lemma NumeratorIsLowBytes(y: seq<byte>)
    requires |y| == 32
    ensures Numerator(y) == Value(y[1..]) * 0x1_0000
    ensures Value(y[1..]) == Value(y) % Pow256(31)
  {
    assert y == [y[0]] + y[1..];
    ValueCons(y[0], y[1..]);
    ValueBound(y[1..]);
    DivUnique(Value(y), y[0] as nat, Pow256(31), Value(y[1..]));
    Shifted(Value(y), y[0] as nat, Value(y[1..]), Pow256(31));
  }

  lemma Regroup(b: nat, p: nat)
    ensures (b * p) * 0x1_0000 == b * (0x1_0000 * p)
  {
  }

  lemma Shifted(v: nat, b: nat, low: nat, p: nat)
    requires v == b * p + low && low < p == Pow256(31)
    ensures (v * 0x1_0000) % Pow256(33) == low * 0x1_0000
  {
    assert Pow256(32) == 256 * p;
    assert Pow256(33) == 0x1_0000 * p;
    hide Pow256;
    Regroup(b, p);
    DivUnique(v * 0x1_0000, b, 0x1_0000 * p, low * 0x1_0000);
  }

  /** A heavier weight never ranks later. */
  lemma HeavierRanksNoLater(y: seq<byte>, w: nat, v: nat)
    requires 0 < w <= v
    ensures ExactRank(y, v) <= ExactRank(y, w)
  {
    QuotientFalls(Numerator(y), w, v);
  }

  lemma QuotientFalls(n: nat, w: nat, v: nat)
    requires 0 < w <= v
    ensures n / v <= n / w
  {
    DivBounds(n, v);
    MulMono(w, v, n / v);
    DivAtLeast(n, w, n / v);
  }

  /** The k-th multiple of w lies above one numerator and not above the other. */
  predicate Separates(k: nat, w: nat, n1: nat, n2: nat) {
    n1 < k * w <= n2
  }

  /** For one weight, ranks follow the outputs without their top byte: one is less than another exactly when
      a multiple of the weight separates them, and at weight one always. */
  lemma RankFollowsLowBytes(y1: seq<byte>, y2: seq<byte>, w: nat)
    requires |y1| == |y2| == 32 && w > 0
    ensures var m1, m2 := Value(y1) % Pow256(31), Value(y2) % Pow256(31);
      (m1 <= m2 ==> ExactRank(y1, w) <= ExactRank(y2, w)) &&
      (ExactRank(y1, w) < ExactRank(y2, w) <==> exists k: nat :: Separates(k, w, m1 * 0x1_0000, m2 * 0x1_0000)) &&
      (w <= 0x1_0000 ==> (ExactRank(y1, w) < ExactRank(y2, w) <==> m1 < m2))
  {
    NumeratorIsLowBytes(y1);
    NumeratorIsLowBytes(y2);
    DivMonotone(Value(y1[1..]), Value(y2[1..]), w);
    DivMonotone(Value(y2[1..]), Value(y1[1..]), w);
    QuotientsDiffer(Numerator(y1), Numerator(y2), w);
    hide Value, Pow256, Separates;
  }

  lemma QuotientsDiffer(n1: nat, n2: nat, w: nat)
    requires w > 0
    ensures n1 / w < n2 / w <==> exists k: nat :: Separates(k, w, n1, n2)
  {
    DivBounds(n1, w);
    if n1 / w < n2 / w {
      DivAtLeast(n1, w, n2 / w);
      DivAtLeast(n2, w, n2 / w);
      DivAtLeast(n2, w, 0);
      assert Separates(n2 / w, w, n1, n2);
    }
    if k: nat :| Separates(k, w, n1, n2) {
      DivAtLeast(n1, w, k);
      DivAtLeast(n2, w, k);
    }
  }

  lemma DivMonotone(m1: nat, m2: nat, w: nat)
    requires w > 0
    ensures m1 <= m2 ==> (m1 * 0x1_0000) / w <= (m2 * 0x1_0000) / w
    ensures m1 < m2 && w <= 0x1_0000 ==> (m1 * 0x1_0000) / w < (m2 * 0x1_0000) / w
  {
    var a := (m1 * 0x1_0000) / w;
    DivBounds(m1 * 0x1_0000, w);
    DivAtLeast(m2 * 0x1_0000, w, a);
    assert (a + 1) * w == a * w + w;
    DivAtLeast(m2 * 0x1_0000, w, a + 1);
  }

  /** Outputs that differ only in the top byte rank the same under every weight, although one is
      larger: ranks do not follow the outputs themselves. */
  lemma TopByteIsIgnored(y1: seq<byte>, y2: seq<byte>, w: nat)
    requires |y1| == |y2| == 32 && y1[1..] == y2[1..] && y1[0] < y2[0] && w > 0
    ensures ExactRank(y1, w) == ExactRank(y2, w) && Value(y1) < Value(y2)
  {
    NumeratorIsLowBytes(y1);
    NumeratorIsLowBytes(y2);
    FirstDifferenceDecides(y1, y2, 0);
  }
}
