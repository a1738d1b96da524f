/**
 The consensus arithmetic of src/consensus.rs and src/backend/bc3.rs: compact
 targets, the 256-bit shift and long division behind a share target, the
 byte-wise comparison of a hash with a target, and the kernel's limbs.
 Targets are 32 bytes read big-endian, hashes 32 bytes read little-endian.
 */
module Targets {
  import opened Machine

  /** The largest target difficulty 1 allows: 0x00000000ffff << 208. */
  ghost const DIFF1: nat := 0xffff_0000_0000_0000_0000_0000_0000_0000_0000_0000_0000_0000_0000_0000

  const TWO_256: nat := 0x1_0000_0000_0000_0000_0000_0000_0000_0000_0000_0000_0000_0000_0000_0000_0000_0000

  const SCALE_BITS: nat := 31
  const MAX_DIVISOR: nat := 0x100_0000_0000_0000_0000_0000_0000_0000 - 1   // 2^120 - 1

  ghost predicate Meets(hash: seq<u8>, target: seq<u8>)
  {
    LE(hash) <= BE(target)
  }

  // ----- nBits -----

  function Exponent(bits: u32): nat { bits / 0x100_0000 }
  function Mantissa(bits: u32): nat { bits % 0x80_0000 }
  predicate Negative(bits: u32) { bits / 0x80_0000 % 2 == 1 }

  /** m * 256^e. */
  ghost function Scaled(m: nat, e: nat): nat
  {
    if e == 0 then m else 256 * Scaled(m, e - 1)
  }

  lemma {:induction false} ScaledIs(m: nat, e: nat)
    ensures Scaled(m, e) == m * Pow256(e)
  {
    if e != 0 {
      ScaledIs(m, e - 1);
      MulAssoc(256, m, Pow256(e - 1));
      MulAssoc(m, 256, Pow256(e - 1));
    }
  }

  /**
   The target nBits stand for, mantissa * 256^(exponent - 3): none with the sign
   bit set, with a fraction, or from 2^256 on.
   */
  ghost function BlockTarget(bits: u32): (t: Option<nat>)
  {
    var scaled := Scaled(Mantissa(bits), Exponent(bits));
    if Negative(bits) || scaled % 0x100_0000 != 0 || scaled / 0x100_0000 >= TWO_256 then None
    else Some(scaled / 0x100_0000)
  }

  /** The target the miner takes them for: none for an exponent above 32, whatever the value. */
  ghost function MinedTarget(bits: u32): (t: Option<nat>)
  {
    var scaled := Scaled(Mantissa(bits), Exponent(bits));
    if Negative(bits) || Exponent(bits) > 32 || scaled % 0x100_0000 != 0 then None
    else Some(scaled / 0x100_0000)
  }

  lemma {:induction false} Pow256Le(m: nat, n: nat)
    requires m <= n
    ensures Pow256(m) <= Pow256(n)
  {
    if m < n { Pow256Le(m, n - 1); }
  }

  lemma BelowTop(m: nat, e: nat, v: nat)
    requires m < 0x80_0000 && e <= 32 && v * 0x100_0000 <= m * Pow256(e)
    ensures v < TWO_256
  {
    TopPower();
    var top := 32;
    Pow256Le(e, top);
    BelowInNumbers(m, Pow256(e), v, TWO_256);
  }

  lemma BelowInNumbers(m: nat, p: nat, v: nat, top: nat)
    requires m < 0x80_0000 && 1 <= p <= top && v * 0x100_0000 <= m * p
    ensures v < top
  {
    MulLe(m, 0x80_0000, p);
  }

  /** The miner has the target nBits stand for if and only if the exponent is at most 32, or there is none. */
  lemma MinedIsBlockTarget(bits: u32)
    ensures MinedTarget(bits) == BlockTarget(bits) <==> Exponent(bits) <= 32 || BlockTarget(bits).None?
  {
    var scaled := Scaled(Mantissa(bits), Exponent(bits));
    if Exponent(bits) <= 32 {
      ScaledIs(Mantissa(bits), Exponent(bits));
      DivMod(scaled, 0x100_0000);
      BelowTop(Mantissa(bits), Exponent(bits), scaled / 0x100_0000);
    }
  }

  /** nBits in normal form, of a target from 2^255 on, that the miner has none for. */
  lemma MissedTarget()
    ensures MinedTarget(0x2100ffff) == None
    ensures BlockTarget(0x2100ffff) == Some(0xffff * Pow256(30)) && 0xffff * Pow256(30) >= TWO_256 / 2
  {
    var bits: u32 := 0x2100ffff;
    assert Exponent(bits) == 33 && Mantissa(bits) == 0xffff && !Negative(bits);
    ScaledIs(0xffff, 33);
    TopPower();
    MissedInNumbers(Pow256(30), Pow256(33));
  }

  lemma MissedInNumbers(p: nat, q: nat)
    requires p == Pow256(30) && q == Pow256(33)
    ensures 0xffff * q == 0xffff * p * 0x100_0000 && 0x1_0000 * p == TWO_256
    ensures (0xffff * q) % 0x100_0000 == 0 && (0xffff * q) / 0x100_0000 == 0xffff * p
  {
    TopPower();
    Pow256Add(30, 2);
    Pow256Add(30, 3);
    assert Pow256(2) == 0x1_0000 && Pow256(3) == 0x100_0000;
    DivIs(0xffff * q, 0x100_0000, 0xffff * p, 0);
  }

  /** Setting a zero byte of a big-endian number, n bytes from its end. */
  lemma BESet(s: seq<u8>, i: nat, b: u8, n: nat)
    requires i < |s| && s[i] == 0 && n == |s| - 1 - i
    ensures BE(s[i := b]) == BE(s) + b * Pow256(n)
  {
    var t := s[i := b];
    assert s[..i + 1] == s[..i] + [0] && t[..i + 1] == s[..i] + [b] && t[i + 1..] == s[i + 1..];
    SplitAt(s, i + 1, n);
    SplitAt(t, i + 1, n);
    BESnoc(s[..i], 0);
    BESnoc(s[..i], b);
    MulAdd(BE(t[..i + 1]), BE(s[..i + 1]), b, Pow256(n));
  }

  lemma SplitAt(s: seq<u8>, i: nat, n: nat)
    requires i <= |s| && n == |s| - i
    ensures BE(s) == BE(s[..i]) * Pow256(n) + BE(s[i..])
  {
    assert s == s[..i] + s[i..];
    BEConcat(s[..i], s[i..], n);
  }

  /** The three mantissa bytes, most significant first. */
  function MantissaByte(bits: u32, i: nat): u8
    requires i < 3
  {
    if i == 0 then Mantissa(bits) / 0x1_0000
    else if i == 1 then Mantissa(bits) / 0x100 % 0x100
    else Mantissa(bits) % 0x100
  }

  /** The mantissa with its last 3 - i bytes cleared. */
  function MantissaTop(bits: u32, i: nat): nat
    requires i <= 3
  {
    if i == 0 then 0
    else MantissaTop(bits, i - 1) + MantissaByte(bits, i - 1) * (if i == 1 then 0x1_0000 else if i == 2 then 0x100 else 1)
  }

  lemma PlaceByte(bits: u32, i: nat, value: nat)
    requires i < 3 && i < Exponent(bits) <= 32
    requires value * 0x100_0000 == MantissaTop(bits, i) * Pow256(Exponent(bits))
    ensures (value + MantissaByte(bits, i) * Pow256(Exponent(bits) - 1 - i)) * 0x100_0000
            == MantissaTop(bits, i + 1) * Pow256(Exponent(bits))
  {
    var e, b, p := Exponent(bits), MantissaByte(bits, i), Pow256(Exponent(bits) - 1 - i);
    var place := if i == 0 then 0x1_0000 else if i == 1 then 0x100 else 1;
    Pow256Add(e - 1 - i, i + 1);
    assert place * Pow256(i + 1) == 0x100_0000 by {
      assert Pow256(1) == 256 && Pow256(2) == 0x1_0000 && Pow256(3) == 0x100_0000;
    }
    MulSwap(b, place, p, Pow256(i + 1));
    MulDist(MantissaTop(bits, i), b * place, Pow256(e));
  }

  lemma PlaceStep(bits: u32, i: nat, out: seq<u8>, pos: nat)
    requires i < 3 && i < Exponent(bits) <= 32 && pos == 32 - Exponent(bits) + i
    requires |out| == 32 && out[pos] == 0
    requires BE(out) * 0x100_0000 == MantissaTop(bits, i) * Pow256(Exponent(bits))
    ensures BE(out[pos := MantissaByte(bits, i)]) * 0x100_0000 == MantissaTop(bits, i + 1) * Pow256(Exponent(bits))
  {
    PlaceByte(bits, i, BE(out));
    BESet(out, pos, MantissaByte(bits, i), Exponent(bits) - 1 - i);
  }

  /** The target with the first n mantissa bytes in place: none if one does not fit. */
  function Placed(bits: u32, n: nat): (r: Option<seq<u8>>)
    requires n <= 3
    ensures r.Some? ==> |r.value| == 32
  {
    if n == 0 then Some(seq(32, _ => 0)) else
    match Placed(bits, n - 1)
    case None => None
    case Some(out) =>
      if Exponent(bits) > 32 then None   // checked_sub
      else
        var pos, b := 32 - Exponent(bits) + (n - 1), MantissaByte(bits, n - 1);
        if pos < 32 then Some(out[pos := b]) else if b != 0 then None else Some(out)
  }

  /** The first n bytes in place, and zeros after them. */
  ghost predicate InPlace(bits: u32, n: nat, out: seq<u8>)
    requires n <= 3 && Exponent(bits) <= 32
  {
    && |out| == 32 && (forall j :: 32 - Exponent(bits) + n <= j < 32 ==> out[j] == 0)
    && BE(out) * 0x100_0000 == MantissaTop(bits, n) * Pow256(Exponent(bits))
  }

  lemma NextInPlace(bits: u32, n: nat, out: seq<u8>)
    requires n < 3 && Exponent(bits) <= 32 && InPlace(bits, n, out)
    ensures n < Exponent(bits) ==> InPlace(bits, n + 1, out[32 - Exponent(bits) + n := MantissaByte(bits, n)])
    ensures n >= Exponent(bits) && MantissaByte(bits, n) == 0 ==> InPlace(bits, n + 1, out)
  {
    if n < Exponent(bits) {
      PlaceStep(bits, n, out, 32 - Exponent(bits) + n);
    } else if MantissaByte(bits, n) == 0 {
      assert MantissaTop(bits, n + 1) == MantissaTop(bits, n);
    }
  }

  lemma NoneInPlace(bits: u32, out: seq<u8>)
    requires Exponent(bits) <= 32 && out == seq(32, _ => 0)
    ensures InPlace(bits, 0, out)
  {
    BEZeros(32);
    assert MantissaTop(bits, 0) == 0;
  }

  lemma PlacedNext(bits: u32, n: nat)
    requires n < 3 && Exponent(bits) <= 32 && Placed(bits, n + 1).Some?
    ensures Placed(bits, n).Some?
    ensures var out, next := Placed(bits, n).value, Placed(bits, n + 1).value;
      if n < Exponent(bits) then next == out[32 - Exponent(bits) + n := MantissaByte(bits, n)]
      else next == out && MantissaByte(bits, n) == 0
  {
  }

  lemma {:induction false} PlacedIs(bits: u32, n: nat)
    requires n <= 3 && Exponent(bits) <= 32 && Placed(bits, n).Some?
    ensures InPlace(bits, n, Placed(bits, n).value)
  {
    if n == 0 {
      NoneInPlace(bits, Placed(bits, 0).value);
    } else {
      PlacedNext(bits, n - 1);
      PlacedIs(bits, n - 1);
      NextInPlace(bits, n - 1, Placed(bits, n - 1).value);
    }
  }

  lemma PlacedFails(bits: u32)
    requires Exponent(bits) <= 32 && Placed(bits, 3).None?
    ensures Mantissa(bits) * Pow256(Exponent(bits)) % 0x100_0000 != 0
  {
    assert Placed(bits, 0).Some?;
    if Placed(bits, 1).None? {
      Truncated(bits, 0);
    } else if Placed(bits, 2).None? {
      Truncated(bits, 1);
    } else {
      Truncated(bits, 2);
    }
  }

  lemma PlacedDenotes(bits: u32)
    requires !Negative(bits)
    ensures Placed(bits, 3).None? <==> MinedTarget(bits).None?
    ensures Placed(bits, 3).Some? ==> BE(Placed(bits, 3).value) == MinedTarget(bits).value
  {
    ScaledIs(Mantissa(bits), Exponent(bits));
    if Exponent(bits) > 32 {
      assert Placed(bits, 1).None? && Placed(bits, 2).None?;
    } else if Placed(bits, 3).None? {
      PlacedFails(bits);
    } else {
      PlacedIs(bits, 3);
      MantissaWhole(bits);
      var v := BE(Placed(bits, 3).value);
      DivIs(v * 0x100_0000, 0x100_0000, v, 0);
    }
  }

  /** `compact_to_target`. */
  method CompactToTarget(bits: u32) returns (r: Option<seq<u8>>)
    ensures r.None? <==> MinedTarget(bits).None?
    ensures r.Some? ==> |r.value| == 32 && BE(r.value) == MinedTarget(bits).value
  {
    var exponent := Exponent(bits);
    if Negative(bits) || exponent > 34 {
      return None;
    }
    PlacedDenotes(bits);
    var out: seq<u8> := seq(32, _ => 0);
    for i := 0 to 3
      invariant Placed(bits, i) == Some(out)
    {
      assert Placed(bits, i + 1).None? ==> Placed(bits, 3).None? by { PlacedStaysNone(bits, i + 1); }
      if exponent > 32 {
        return None;
      }
      var pos := 32 - exponent + i;
      var b := MantissaByte(bits, i);
      if pos < 32 {
        out := out[pos := b];
      } else if b != 0 {
        return None;
      }
    }
    r := Some(out);
  }

  lemma PlacedStaysNone(bits: u32, n: nat)
    requires 1 <= n <= 3
    ensures Placed(bits, n).None? ==> Placed(bits, 3).None?
  {
    assert Placed(bits, 2).None? ==> Placed(bits, 3).None?;
    assert Placed(bits, 1).None? ==> Placed(bits, 2).None?;
  }

  lemma MantissaWhole(bits: u32)
    ensures MantissaTop(bits, 3) == Mantissa(bits)
  {
    assert MantissaTop(bits, 1) == MantissaByte(bits, 0) * 0x1_0000;
    assert MantissaTop(bits, 2) == MantissaTop(bits, 1) + MantissaByte(bits, 1) * 0x100;
    assert MantissaTop(bits, 3) == MantissaTop(bits, 2) + MantissaByte(bits, 2);
    Bytes3(Mantissa(bits));
  }

  lemma Bytes3(m: nat)
    ensures m / 0x1_0000 * 0x1_0000 + m / 0x100 % 0x100 * 0x100 + m % 0x100 == m
  {
    assert m / 0x1_0000 == m / 0x100 / 0x100;
  }

  lemma Truncated(bits: u32, i: nat)
    requires i < 3 && Exponent(bits) <= i && MantissaByte(bits, i) != 0
    ensures Mantissa(bits) * Pow256(Exponent(bits)) % 0x100_0000 != 0
  {
    var e := Exponent(bits);
    SmallPowers(e);
    if e == 0 {
    } else if e == 1 {
      CutByOne(Mantissa(bits));
    } else {
      CutByTwo(Mantissa(bits));
    }
  }

  lemma SmallPowers(e: nat)
    requires e <= 2
    ensures Pow256(e) == if e == 0 then 1 else if e == 1 then 0x100 else 0x1_0000
  {
    if e == 2 { assert Pow256(e - 1) == 256 * Pow256(e - 2); }
  }

  lemma CutByOne(m: nat)
    requires m < 0x80_0000
    ensures m * 256 % 0x100_0000 == m % 0x1_0000 * 256
    ensures m / 0x100 % 0x100 != 0 || m % 0x100 != 0 ==> m % 0x1_0000 != 0
  {
    DivIs(m * 256, 0x100_0000, m / 0x1_0000, m % 0x1_0000 * 256);
    Bytes3(m);
  }

  lemma CutByTwo(m: nat)
    requires m < 0x80_0000
    ensures m * 0x1_0000 % 0x100_0000 == m % 0x100 * 0x1_0000
  {
    DivIs(m * 0x1_0000, 0x100_0000, m / 0x100, m % 0x100 * 0x1_0000);
  }

  // ----- Shifting -----

  /** 2^bits and 2^(8 - bits). */
  predicate Split(p: nat, q: nat)
  {
    p * q == 256
  }

  lemma SplitAtBits(bits: nat)
    requires bits < 8
    ensures Split(Pow2(bits), Pow2(8 - bits))
  {
    Pow2Add(bits, 8 - bits);
    assert Pow2(8) == 256;
  }

  function ByteAt(x: seq<u8>, i: nat): (b: u8)
  {
    if i < |x| then x[i] else 0
  }

  /**
   (hi << bits) | (lo >> 8 - bits) in a byte, p = 2^bits and q = 2^(8 - bits).
   The two have no bit in common, so the or is a sum; for no bits lo / 256 is 0.
   */
  function ShiftSum(hi: u8, lo: u8, p: nat, q: nat): (b: u8)
    requires Split(p, q)
  {
    ShiftSumFits(hi, lo, p, q);
    hi * p % 256 + lo / q
  }

  lemma ShiftSumFits(hi: u8, lo: u8, p: nat, q: nat)
    requires Split(p, q)
    ensures q >= 1 && 0 <= hi * p % 256 + lo / q < 256
    ensures hi * p == 256 * (hi / q) + hi * p % 256
    ensures p == 1 ==> hi * p % 256 + lo / q == hi
  {
    var a, r := hi / q, hi % q;
    DivMod(hi, q);
    MulAdd(hi, a * q, r, p);
    MulAssoc(a, q, p);
    MulLe(r, q - 1, p);
    MulDist(q, -1, p);
    MulLe(0, r, p);
    DivIs(hi * p, 256, a, r * p);
    SmallQuotient(lo, q, p);
  }

  lemma SmallQuotient(v: int, q: int, p: int)
    requires 0 <= v < p * q && q >= 1
    ensures 0 <= v / q < p
  {
    DivMod(v, q);
    if v / q >= p {
      MulLe(p, v / q, q);
    } else if v / q < 0 {
      MulLe(v / q, -1, q);
    }
  }

  /** `shl`'s byte i, for a shift by `bytes` bytes and the bits of p. */
  function ShiftedByte(x: seq<u8>, bytes: nat, p: nat, q: nat, i: nat): (b: u8)
    requires Split(p, q)
  {
    ShiftSum(ByteAt(x, i + bytes), ByteAt(x, i + bytes + 1), p, q)
  }

  /** x << bits as m + 1 bytes, one more in front for what is shifted past the top. */
  ghost function Shifted(x: seq<u8>, p: nat, q: nat, m: nat): (ys: seq<u8>)
    requires Split(p, q)
    ensures |ys| == m + 1
  {
    if m == 0 then [ShiftSum(0, ByteAt(x, 0), p, q)]
    else Shifted(x, p, q, m - 1) + [ShiftedByte(x, m - 1, p, q, 0)]
  }

  lemma {:induction false} ShiftedAt(x: seq<u8>, p: nat, q: nat, m: nat, j: nat)
    requires Split(p, q) && j < m
    ensures Shifted(x, p, q, m)[j + 1] == ShiftedByte(x, j, p, q, 0)
    ensures Shifted(x, p, q, m)[..j + 1] == Shifted(x, p, q, j)
  {
    if j < m - 1 {
      ShiftedAt(x, p, q, m - 1, j);
    }
  }

  lemma {:induction false} ShiftedIs(x: seq<u8>, p: nat, q: nat, m: nat)
    requires m < |x| && Split(p, q)
    ensures q >= 1 && BE(Shifted(x, p, q, m)) == BE(x[..m]) * p + x[m] / q
  {
    ShiftSumFits(0, x[0], p, q);
    if m == 0 {
      ShiftedTop(x, p, q);
    } else {
      ShiftedIs(x, p, q, m - 1);
      ShiftedStep(x, p, q, m - 1);
    }
  }

  lemma ShiftedTop(x: seq<u8>, p: nat, q: nat)
    requires x != [] && Split(p, q) && q >= 1
    ensures BE(Shifted(x, p, q, 0)) == BE(x[..0]) * p + x[0] / q
  {
    var y := ShiftSum(0, x[0], p, q);
    BESnoc([], y);
    assert [] + [y] == Shifted(x, p, q, 0);
    MulEq(p, BE(x[..0]), 0);
    ShiftSumFits(0, x[0], p, q);
  }

  lemma ShiftedStep(x: seq<u8>, p: nat, q: nat, i: nat)
    requires i + 1 < |x| && Split(p, q) && q >= 1
    requires BE(Shifted(x, p, q, i)) == BE(x[..i]) * p + x[i] / q
    ensures BE(Shifted(x, p, q, i + 1)) == BE(x[..i + 1]) * p + x[i + 1] / q
  {
    var b := ShiftedByte(x, i, p, q, 0);
    assert x[..i + 1] == x[..i] + [x[i]];
    BESnoc(x[..i], x[i]);
    BESnoc(Shifted(x, p, q, i), b);
    ShiftSumFits(x[i], x[i + 1], p, q);
    ShiftedInNumbers(BE(x[..i]), BE(x[..i + 1]), x[i], p, x[i] / q, BE(Shifted(x, p, q, i)), b, x[i + 1] / q);
  }

  lemma ShiftedInNumbers(b: int, next: int, hi: int, p: int, top: int, before: int, byte: int, lo: int)
    requires next == 256 * b + hi && before == b * p + top && byte == (hi * p - 256 * top) + lo
    ensures 256 * before + byte == next * p + lo
  {
    MulAdd(next, 256 * b, hi, p);
    MulAssoc(256, b, p);
  }

  method ShiftBytes(x: array<u8>, bytes: nat, p: nat, q: nat) returns (out: array<u8>)
    requires x.Length == 32 && Split(p, q)
    ensures fresh(out) && out.Length == 32
    ensures forall j :: 0 <= j < 32 ==> out[j] == ShiftedByte(x[..], bytes, p, q, j)
  {
    out := new u8[32];
    ghost var whole := x[..];
    for i := 0 to 32
      invariant fresh(out) && out.Length == 32 && x[..] == whole
      invariant forall j :: 0 <= j < i ==> out[j] == ShiftedByte(whole, bytes, p, q, j)
    {
      var byte, next := ByteAt(x[..], i + bytes), ByteAt(x[..], i + bytes + 1);
      ShiftSumFits(byte, next, p, q);
      out[i] := if p == 1 then byte else ShiftSum(byte, next, p, q);
    }
  }

  /** `shl`, n < 256: the product modulo 2^256. */
  method Shl(x: array<u8>, n: nat) returns (out: array<u8>)
    requires x.Length == 32 && n < 256
    ensures fresh(out) && out.Length == 32
    ensures BE(out[..]) == BE(x[..]) * Pow2(n) % TWO_256
  {
    SplitAtBits(n % 8);
    out := ShiftBytes(x, n / 8, Pow2(n % 8), Pow2(8 - n % 8));
    ShlIs(x[..], n / 8, n % 8, out[..]);
  }

  lemma ShlIs(x: seq<u8>, bytes: nat, bits: nat, out: seq<u8>)
    requires |x| == |out| == 32 && bytes < 32 && bits < 8 && Split(Pow2(bits), Pow2(8 - bits))
    requires forall j :: 0 <= j < 32 ==> out[j] == ShiftedByte(x, bytes, Pow2(bits), Pow2(8 - bits), j)
    ensures BE(out) == BE(x) * Pow2(8 * bytes + bits) % TWO_256
  {
    var p, q := Pow2(bits), Pow2(8 - bits);
    var xs: seq<u8> := x + seq(33, _ => 0);
    var lost, all := Shifted(xs, p, q, bytes), Shifted(xs, p, q, bytes + 32);
    forall j | 0 <= j < 32
      ensures all[bytes + 1 + j] == out[j]
    {
      ShiftedAt(xs, p, q, bytes + 32, bytes + j);
      assert out[j] == ShiftedByte(x, bytes, p, q, j);
    }
    ShiftedAt(xs, p, q, bytes + 32, bytes);
    assert all == lost + out;
    BEConcat(lost, out, 32);
    ShiftTotal(x, xs, bytes, bits, p, q);
    ToBEBE(out);
    TopPower();
    DivIs(BE(all), TWO_256, BE(lost), BE(out));
  }

  lemma ShiftTotal(x: seq<u8>, xs: seq<u8>, bytes: nat, bits: nat, p: nat, q: nat)
    requires |x| == 32 && xs == x + seq(33, _ => 0) && bytes < 32 && bits < 8
    requires Split(p, q) && p == Pow2(bits)
    ensures BE(Shifted(xs, p, q, bytes + 32)) == BE(x) * Pow2(8 * bytes + bits)
  {
    ShiftedIs(xs, p, q, bytes + 32);
    SmallQuotient(0, q, 1);
    BytesShifted(x, xs, bytes);
    Pow2Bytes(bytes);
    Pow2Add(8 * bytes, bits);
    ProductIs(BE(xs[..bytes + 32]), BE(x), Pow256(bytes), p, Pow2(8 * bytes + bits));
  }

  lemma ProductIs(b: int, x: int, bytes: int, p: int, all: int)
    requires b == x * bytes && all == bytes * p
    ensures b * p == x * all
  {
    MulAssoc(x, bytes, p);
  }

  lemma BytesShifted(x: seq<u8>, xs: seq<u8>, bytes: nat)
    requires |x| == 32 && xs == x + seq(33, _ => 0) && bytes < 32
    ensures BE(xs[..bytes + 32]) == BE(x) * Pow256(bytes)
  {
    var z: seq<u8> := seq(bytes, _ => 0);
    assert xs[..bytes + 32] == x + z;
    BEConcat(x, z, bytes);
    BEZeros(bytes);
  }

  // ----- The share target -----

  /** What `target_for_difficulty` divides: difficulty 1, shifted by 31 bits. */
  ghost const DIVIDEND: nat :=
    0x7fff_8000_0000_0000_0000_0000_0000_0000_0000_0000_0000_0000_0000_0000_0000_0000

  lemma Diff1Powers()
    ensures Pow256(26) == 0x1_0000_0000_0000_0000_0000_0000_0000_0000_0000_0000_0000_0000_0000
    ensures Pow256(29) == 0x100_0000 * Pow256(26)
  {
    Pow256At24();
    Pow256Add(24, 2);
  }

  lemma Pow256At24()
    ensures Pow256(24) == 0x1_0000_0000_0000_0000_0000_0000_0000_0000_0000_0000_0000_0000
  {
    var eight := 8;
    assert Pow256(eight) == U64;
    Pow256Add(eight, eight);
    Pow256Add(eight + eight, eight);
  }

  lemma Diff1Bits()
    ensures MinedTarget(0x1d00ffff) == Some(DIFF1)
  {
    Diff1Powers();
    ScaledIs(0xffff, 29);
  }

  lemma DividendFits()
    ensures DIVIDEND < TWO_256 && DIVIDEND == DIFF1 * Pow2(SCALE_BITS)
  {
    ScalePower();
  }

  lemma TopPower()
    ensures Pow256(32) == TWO_256
  {
    Pow256Add(8, 8);
    Pow256Add(16, 16);
  }

  lemma ScalePower()
    ensures Pow2(SCALE_BITS) == 0x8000_0000
  {
    Pow2Bytes(3);
    Pow2Add(24, 7);
    assert Pow2(7) == 128 && Pow256(3) == 0x100_0000;
  }

  method Diff1() returns (a: array<u8>)
    ensures fresh(a) && a.Length == 32 && BE(a[..]) == DIFF1
  {
    Diff1Bits();
    var diff1 := CompactToTarget(0x1d00ffff);
    a := new u8[32](i requires 0 <= i < 32 => diff1.value[i]);
    assert a[..] == diff1.value;
  }

  /** diff1 << 31, with no bit lost. */
  method ScaledDiff1(scale: nat) returns (dividend: array<u8>)
    requires scale == SCALE_BITS
    ensures fresh(dividend) && dividend.Length == 32 && BE(dividend[..]) == DIVIDEND
  {
    var a := Diff1();
    NoBitLost(BE(a[..]), scale);
    dividend := Shl(a, scale);
  }

  lemma NoBitLost(v: nat, scale: nat)
    requires v == DIFF1 && scale == SCALE_BITS
    ensures v * Pow2(scale) % TWO_256 == DIVIDEND
  {
    DividendFits();
    MulEq(Pow2(SCALE_BITS), v, DIFF1);
    DivIs(DIVIDEND, TWO_256, 0, DIVIDEND);
  }

  /** Long division of big-endian bytes: the quotient's bytes, and the remainder. */
  function LongDivision(s: seq<u8>, divisor: nat): (r: (seq<u8>, nat))
    requires divisor >= 1
    ensures |r.0| == |s| && r.1 < divisor
  {
    if s == [] then ([], 0)
    else
      var (q, before) := LongDivision(s[..|s| - 1], divisor);
      var rem := before * 256 + s[|s| - 1];
      QuotientByte(rem, divisor);
      (q + [rem / divisor], rem % divisor)
  }

  lemma QuotientByte(rem: int, divisor: int)
    requires 0 <= rem < 256 * divisor && divisor >= 1
    ensures 0 <= rem / divisor < 256
  {
    SmallQuotient(rem, divisor, 256);
  }

  /** The quotient's bytes denote the quotient. */
  lemma {:induction false} LongDivisionDivides(s: seq<u8>, divisor: nat)
    requires divisor >= 1
    ensures var (q, rem) := LongDivision(s, divisor);
      BE(s) == BE(q) * divisor + rem && BE(q) == BE(s) / divisor
  {
    var (q, r) := LongDivision(s, divisor);
    if s != [] {
      var i := |s| - 1;
      LongDivisionDivides(s[..i], divisor);
      var (q0, before) := LongDivision(s[..i], divisor);
      var rem := before * 256 + s[i];
      QuotientByte(rem, divisor);
      BESnoc(q0, rem / divisor);
      DivMod(rem, divisor);
      StepInNumbers(BE(q0), BE(q), rem / divisor, divisor, BE(s[..i]), before, rem, s[i]);
    }
    DivIs(BE(s), divisor, BE(q), r);
  }

  lemma StepInNumbers(out: int, next: int, q: int, divisor: int, done: int, before: int, rem: int, d: int)
    requires next == 256 * out + q && rem == before * 256 + d && done == out * divisor + before
    ensures 256 * done + d == next * divisor + (rem - q * divisor)
  {
    MulAdd(next, 256 * out, q, divisor);
    MulAssoc(256, out, divisor);
  }

  /**
   `target_for_difficulty` from its integer divisor on: byte-wise long
   division, the remainder in a u128, each quotient in a byte.
   */
  method TargetForDivisor(divisor: u128) returns (out: array<u8>)
    requires 1 <= divisor <= MAX_DIVISOR
    ensures fresh(out) && out.Length == 32
    ensures BE(out[..]) == DIVIDEND / divisor
  {
    var dividend := ScaledDiff1(SCALE_BITS);
    ghost var whole := dividend[..];
    out := new u8[32];
    var rem: u128 := 0;
    for i := 0 to 32
      invariant fresh(out) && out.Length == 32 && dividend != out && dividend[..] == whole
      invariant (out[..i], rem) == LongDivision(whole[..i], divisor)
    {
      assert whole[..i + 1][..i] == whole[..i];
      rem := rem * 256 + dividend[i];
      QuotientByte(rem, divisor);
      out[i] := rem / divisor;
      rem := rem % divisor;
      assert out[..i + 1] == out[..i] + [out[i]];
    }
    assert out[..32] == out[..] && whole[..32] == whole;
    LongDivisionDivides(whole, divisor);
  }

  // ----- Comparing -----

  /** `hash_meets_target`: from the most significant byte of each down. */
  method HashMeetsTarget(hash: seq<u8>, target: seq<u8>) returns (r: bool)
    requires |hash| == 32 && |target| == 32
    ensures r <==> Meets(hash, target)
  {
    for i := 32 downto 0
      invariant LE(hash[i..]) == BE(target[..32 - i])
    {
      var h, t := hash[i], target[31 - i];
      TopDecides(hash, target, i);
      if h < t {
        return true;
      }
      if h > t {
        return false;
      }
    }
    assert hash[0..] == hash && target[..32] == target;
    r := true;
  }

  lemma TopDecides(hash: seq<u8>, target: seq<u8>, i: nat)
    requires |hash| == |target| == 32 && i < 32
    requires LE(hash[i + 1..]) == BE(target[..31 - i])
    ensures LE(hash[i..]) - BE(target[..32 - i]) == (hash[i] as int) - target[31 - i]
    ensures hash[i] < target[31 - i] ==> LE(hash) < BE(target)
    ensures hash[i] > target[31 - i] ==> LE(hash) > BE(target)
  {
    var p := Pow256(i);
    assert hash[i..][1..] == hash[i + 1..];
    assert target[..32 - i] == target[..31 - i] + [target[31 - i]];
    BESnoc(target[..31 - i], target[31 - i]);
    assert hash == hash[..i] + hash[i..] && target == target[..32 - i] + target[32 - i..];
    LEConcat(hash[..i], hash[i..], i);
    BEConcat(target[..32 - i], target[32 - i..], i);
    LEBound(hash[..i]);
    ToBEBE(target[32 - i..]);
    Compare(LE(hash[i..]), BE(target[..32 - i]), p, LE(hash[..i]), BE(target[32 - i..]));
  }

  lemma Compare(h: int, t: int, p: int, h0: int, t0: int)
    requires 0 <= h0 < p && 0 <= t0 < p
    ensures h < t ==> h0 + p * h < t * p + t0
    ensures h > t ==> h0 + p * h > t * p + t0
  {
    if h < t {
      MulLe(h + 1, t, p);
      MulDist(h, 1, p);
    } else if h > t {
      MulLe(t + 1, h, p);
      MulDist(t, 1, p);
    }
  }

  /**
   A share counts exactly when its hash times the divisor is within the
   scaled difficulty 1, for every divisor the miner can be given: the
   rounding of the byte-wise division decides no share wrongly.
   */
  lemma MeetsExactly(hash: seq<u8>, target: seq<u8>, divisor: nat)
    requires divisor >= 1 && BE(target) == DIVIDEND / divisor
    ensures Meets(hash, target) <==> LE(hash) * divisor <= DIVIDEND
  {
    QuotientBounds(DIVIDEND, divisor, LE(hash));
  }

  lemma QuotientBounds(v: nat, d: nat, h: nat)
    requires d >= 1
    ensures h <= v / d <==> h * d <= v
  {
    var q := v / d;
    DivMod(v, d);
    if h <= q {
      MulLe(h, q, d);
    } else {
      MulLe(q + 1, h, d);
      MulDist(q, 1, d);
    }
  }

  /** The number limbs of 64 bits denote, least significant first. */
  function LimbValue(limbs: seq<u64>): (v: nat)
  {
    if limbs == [] then 0 else limbs[0] + U64 * LimbValue(limbs[1..])
  }

  /** Eight bytes of the target, the i-th from its end. */
  function LimbAt(target: seq<u8>, i: nat): (limb: u64)
    requires |target| == 32 && i < 4
  {
    var bytes := target[24 - 8 * i..32 - 8 * i];
    ToBEBE(bytes);
    assert Pow256(8) == U64;
    BE(bytes)
  }

  /** The limbs from the i-th on. */
  function LimbsFrom(target: seq<u8>, i: nat): (limbs: seq<u64>)
    requires |target| == 32 && i <= 4
    ensures |limbs| == 4 - i
    decreases 4 - i
  {
    if i == 4 then [] else [LimbAt(target, i)] + LimbsFrom(target, i + 1)
  }

  /** They denote the bytes above the i lowest limbs. */
  lemma {:induction false} LimbsDenote(target: seq<u8>, i: nat, end: nat)
    requires |target| == 32 && i <= 4 && end == 32 - 8 * i
    ensures LimbValue(LimbsFrom(target, i)) == BE(target[..end])
    decreases 4 - i
  {
    if i < 4 {
      LimbsDenote(target, i + 1, end - 8);
      LimbFirst(LimbAt(target, i), LimbsFrom(target, i + 1));
      NextLimb(target, i, end);
    }
  }

  lemma LimbFirst(x: u64, limbs: seq<u64>)
    ensures LimbValue([x] + limbs) == x + U64 * LimbValue(limbs)
  {
    assert ([x] + limbs)[1..] == limbs;
  }

  lemma NextLimb(target: seq<u8>, i: nat, end: nat)
    requires |target| == 32 && i < 4 && end == 32 - 8 * i
    ensures BE(target[..end]) == LimbAt(target, i) + U64 * BE(target[..end - 8])
  {
    var hi, lo := target[..end - 8], target[end - 8..end];
    assert target[..end] == hi + lo;
    BEConcat(hi, lo, 8);
    assert Pow256(8) == U64;
  }

  /** `target_limbs`. */
  method TargetLimbs(target: seq<u8>) returns (limbs: seq<u64>)
    requires |target| == 32
    ensures |limbs| == 4 && LimbValue(limbs) == BE(target)
  {
    limbs := [];
    for i := 0 to 4
      invariant limbs + LimbsFrom(target, i) == LimbsFrom(target, 0)
    {
      LimbsStep(limbs, target, i);
      limbs := limbs + [LimbAt(target, i)];
    }
    LimbsEnd(limbs, target);
  }

  lemma LimbsStep(limbs: seq<u64>, target: seq<u8>, i: nat)
    requires |target| == 32 && i < 4
    ensures limbs + LimbsFrom(target, i) == limbs + [LimbAt(target, i)] + LimbsFrom(target, i + 1)
  {
    Regroup(limbs, LimbAt(target, i), LimbsFrom(target, i + 1));
  }

  lemma Regroup(a: seq<u64>, x: u64, b: seq<u64>)
    ensures a + ([x] + b) == a + [x] + b
  {
  }

  lemma LimbsEnd(limbs: seq<u64>, target: seq<u8>)
    requires |target| == 32 && limbs + LimbsFrom(target, 4) == LimbsFrom(target, 0)
    ensures |limbs| == 4 && LimbValue(limbs) == BE(target)
  {
    LimbsDenote(target, 0, 32);
    assert target[..32] == target;
    assert limbs + [] == limbs;
  }
}
