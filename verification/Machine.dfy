/**
 The machine integers and the byte strings the miner works on. Integers are
 unbounded in Dafny, so every width and every wrap is written out.
 */
module Machine {

  datatype Option<+T> = None | Some(value: T)

  const U32: nat := 0x1_0000_0000
  const U64: nat := 0x1_0000_0000_0000_0000

  type u8 = x: int | 0 <= x < 0x100
  type u32 = x: int | 0 <= x < 0x1_0000_0000
  type u64 = x: int | 0 <= x < 0x1_0000_0000_0000_0000
  type u128 = x: int | 0 <= x < 0x1_0000_0000_0000_0000_0000_0000_0000_0000

  /** 32 bytes: a hash, a target, a block's name. */
  type Digest = s: seq<u8> | |s| == 32 witness seq(32, _ => 0)

  function Min(a: int, b: int): int { if a <= b then a else b }
  function Max(a: int, b: int): int { if a <= b then b else a }

  lemma MulDist(a: int, b: int, c: int)
    ensures (a + b) * c == a * c + b * c
  {
  }

  lemma MulAdd(y: int, x: int, d: int, p: int)
    requires y == x + d
    ensures y * p == x * p + d * p
  {
    MulDist(x, d, p);
  }

  lemma MulEq(a: int, p: int, q: int)
    requires p == q
    ensures a * p == a * q
  {
  }

  /** v / m and v % m by repeated subtraction, for use beside other arithmetic. */
  function Div(v: nat, m: nat): (q: nat)
    requires m >= 1
  {
    if v < m then 0 else 1 + Div(v - m, m)
  }

  function Mod(v: nat, m: nat): (r: nat)
    requires m >= 1
    ensures r < m
  {
    if v < m then v else Mod(v - m, m)
  }

  lemma {:induction false} DivModParts(v: nat, m: nat)
    requires m >= 1
    ensures v == Div(v, m) * m + Mod(v, m)
  {
    if v >= m {
      DivModParts(v - m, m);
      MulDist(Div(v - m, m), 1, m);
    }
  }

  lemma DivModAre(v: nat, m: nat)
    requires m >= 1
    ensures Div(v, m) == v / m && Mod(v, m) == v % m
  {
    DivModParts(v, m);
    DivIs(v, m, Div(v, m), Mod(v, m));
  }

  lemma DivMod(v: int, m: int)
    requires m >= 1
    ensures v == v / m * m + v % m
  {
  }

  lemma MulSwap(a: int, b: int, c: int, d: int)
    ensures (a * b) * (c * d) == (a * c) * (b * d)
  {
  }

  lemma MulAssoc(a: int, b: int, c: int)
    ensures (a * b) * c == a * (b * c)
  {
  }

  lemma MulLe(a: int, b: int, c: int)
    requires a <= b && c >= 0
    ensures a * c <= b * c
  {
  }

  /** Division has one answer. */
  lemma DivIs(v: int, m: int, q: int, r: int)
    requires v == q * m + r && 0 <= r < m
    ensures v / m == q && v % m == r
  {
    var a := v / m;
    assert v == a * m + v % m;
    if a < q {
      MulLe(a + 1, q, m);
      MulDist(a, 1, m);
    } else if q < a {
      MulLe(q + 1, a, m);
      MulDist(q, 1, m);
    }
  }

  /** 256 to the power n. */
  function Pow256(n: nat): (p: nat)
    ensures p >= 1
  {
    if n == 0 then 1 else 256 * Pow256(n - 1)
  }

  lemma Pow256Add(m: nat, n: nat)
    ensures Pow256(m + n) == Pow256(m) * Pow256(n)
  {
    if m != 0 {
      Pow256Add(m - 1, n);
      MulAssoc(256, Pow256(m - 1), Pow256(n));
    }
  }

  /** The number a big-endian byte string denotes. */
  function BE(s: seq<u8>): (v: nat)
  {
    if s == [] then 0 else 256 * BE(s[..|s| - 1]) + s[|s| - 1]
  }

  /** The number a little-endian byte string denotes. */
  function LE(s: seq<u8>): (v: nat)
  {
    if s == [] then 0 else s[0] + 256 * LE(s[1..])
  }

  /** The n low bytes of v, most significant first. */
  function ToBE(v: nat, n: nat): (s: seq<u8>)
    ensures |s| == n
  {
    if n == 0 then [] else ToBE(v / 256, n - 1) + [v % 256]
  }

  /** The n low bytes of v, least significant first. */
  function ToLE(v: nat, n: nat): (s: seq<u8>)
    ensures |s| == n
  {
    if n == 0 then [] else [v % 256] + ToLE(v / 256, n - 1)
  }

  lemma BESnoc(s: seq<u8>, b: u8)
    ensures BE(s + [b]) == 256 * BE(s) + b
  {
    assert (s + [b])[..|s|] == s;
  }

  lemma QuotientSmall(v: nat, p: nat)
    requires v < 256 * p
    ensures v / 256 < p
  {
  }

  lemma {:induction false} BEToBE(v: nat, n: nat)
    requires v < Pow256(n)
    ensures BE(ToBE(v, n)) == v
  {
    if n != 0 {
      var q, r := v / 256, v % 256;
      assert q < Pow256(n - 1) by { QuotientSmall(v, Pow256(n - 1)); }
      BEToBE(q, n - 1);
      BESnoc(ToBE(q, n - 1), r);
    }
  }

  lemma {:induction false} ToBEBE(s: seq<u8>)
    ensures BE(s) < Pow256(|s|)
    ensures ToBE(BE(s), |s|) == s
  {
    if s != [] {
      ToBEBE(s[..|s| - 1]);
      assert s == s[..|s| - 1] + [s[|s| - 1]];
    }
  }

  lemma {:induction false} LEToLE(v: nat, n: nat)
    requires v < Pow256(n)
    ensures LE(ToLE(v, n)) == v
  {
    if n != 0 {
      LEToLE(v / 256, n - 1);
      assert ToLE(v, n)[1..] == ToLE(v / 256, n - 1);
    }
  }

  /** 2 to the power n. */
  function Pow2(n: nat): (p: nat)
    ensures p >= 1
  {
    if n == 0 then 1 else 2 * Pow2(n - 1)
  }

  lemma {:induction false} Pow2Add(m: nat, n: nat)
    ensures Pow2(m + n) == Pow2(m) * Pow2(n)
  {
    if m != 0 {
      Pow2Add(m - 1, n);
      MulAssoc(2, Pow2(m - 1), Pow2(n));
    }
  }

  lemma {:induction false} Pow2Bytes(n: nat)
    ensures Pow2(8 * n) == Pow256(n)
  {
    if n != 0 {
      Pow2Bytes(n - 1);
      Pow2Add(8, 8 * (n - 1));
      assert Pow2(8) == 256;
    }
  }

  lemma {:induction false} BEConcat(s: seq<u8>, t: seq<u8>, n: nat)
    requires |t| == n
    ensures BE(s + t) == BE(s) * Pow256(n) + BE(t)
  {
    if n == 0 {
      assert s + t == s;
    } else {
      var i := n - 1;
      BEConcat(s, t[..i], i);
      assert s + t == (s + t[..i]) + [t[i]];
      BESnoc(s + t[..i], t[i]);
      MulAssoc(256, BE(s), Pow256(i));
      MulAssoc(BE(s), 256, Pow256(i));
    }
  }

  lemma {:induction false} LEConcat(s: seq<u8>, t: seq<u8>, n: nat)
    requires |s| == n
    ensures LE(s + t) == LE(s) + Pow256(n) * LE(t)
  {
    if n == 0 {
      assert s + t == t;
    } else {
      LEConcat(s[1..], t, n - 1);
      assert (s + t)[1..] == s[1..] + t;
      MulAssoc(256, Pow256(n - 1), LE(t));
    }
  }

  lemma {:induction false} LEBound(s: seq<u8>)
    ensures LE(s) < Pow256(|s|)
  {
    if s != [] {
      LEBound(s[1..]);
    }
  }

  lemma {:induction false} BEZeros(n: nat)
    ensures BE(seq(n, _ => 0)) == 0
  {
    if n != 0 {
      BEZeros(n - 1);
      var z: seq<u8> := seq(n, _ => 0);
      assert z[..n - 1] == seq(n - 1, _ => 0);
    }
  }
}
