/**
 The curve tables (bc3hash/src/shim.cpp, bc3hash/src/lib.rs,
 src/backend/cuda.rs): what their places hold, the builders that fill them, and
 that all of them fill them alike. A curve's points are the multiples of its
 generator P in a cyclic group of odd order n: k stands for k * P, and 0 for
 the identity, which secp256k1 refuses to name. A place is 8 words, x and y.
 */
module Tables {
  import opened Machine
  import opened Layout

  /** The order of secp256k1 (section 2.4.1 of SEC 2 version 2.0). */
  const SECP256K1_ORDER: nat := 0xFFFFFFFF_FFFFFFFF_FFFFFFFF_FFFFFFFE_BAAEDCE6_AF48A03B_BFD25E8C_D0364141

  /** All the tables need of the order: odd, and above every scalar they multiply by. */
  predicate OrderOk(n: nat)
  {
    n % 2 == 1 && n > Pow2(255)
  }

  lemma Doubling(m: nat, p: nat, q: nat)
    requires Pow2(m) == p && q == p * p
    ensures Pow2(m + m) == q
  {
    Pow2Add(m, m);
  }

  lemma Secp256k1OrderOk()
    ensures OrderOk(SECP256K1_ORDER)
  {
    var m := 8;
    assert Pow2(m) == 0x100;
    Doubling(m, 0x100, 0x1_0000);
    Doubling(m + m, 0x1_0000, 0x1_0000_0000);
    Doubling(m * 4, 0x1_0000_0000, 0x1_00000000_00000000);
    Doubling(m * 8, 0x1_00000000_00000000, 0x1_00000000_00000000_00000000_00000000);
    TopBit(m * 16, SECP256K1_ORDER);
  }

  lemma TopBit(m: nat, n: nat)
    requires m == 128 && Pow2(m) == 0x1_00000000_00000000_00000000_00000000 && n == SECP256K1_ORDER
    ensures OrderOk(n)
  {
    Doubling(m, 0x1_00000000_00000000_00000000_00000000, 0x1_00000000_00000000_00000000_00000000_00000000_00000000_00000000_00000000);
    assert Pow2(m + m) == 2 * Pow2(m + m - 1);
  }

  // ----- The group -----

  /** `secp256k1_ec_pubkey_combine` of two points; None: refused, the sum is the identity. */
  function Combine(n: nat, a: nat, b: nat): Option<nat>
    requires n >= 1
  {
    var c := Mod(a + b, n);
    if c == 0 then None else Some(c)
  }

  /** `secp256k1_ec_pubkey_tweak_mul`; None: refused, the scalar is 0 or not below the order. */
  function TweakMul(n: nat, a: nat, scalar: nat): Option<nat>
    requires n >= 1
  {
    if scalar == 0 || scalar >= n then None else Some(Mod(a * scalar, n))
  }

  /** b * 2^pos, by doubling. */
  function Shifted(b: nat, pos: nat): nat
  {
    if pos == 0 then b else 2 * Shifted(b, pos - 1)
  }

  lemma {:induction false} ShiftedIs(b: nat, pos: nat)
    ensures Shifted(b, pos) == b * Pow2(pos)
  {
    if pos > 0 {
      ShiftedIs(b, pos - 1);
      MulSwap(2, b, 1, Pow2(pos - 1));
    }
  }

  /** b * 2^pos * P. */
  function Entry(n: nat, pos: nat, b: nat): (k: nat)
    requires n >= 1
    ensures k < n
  {
    Mod(Shifted(b, pos), n)
  }

  lemma EntryIs(n: nat, pos: nat, b: nat)
    requires n >= 1
    ensures Entry(n, pos, b) == Mod(b * Pow2(pos), n)
  {
    ShiftedIs(b, pos);
  }

  lemma ModIs(v: nat, n: nat, q: nat, r: nat)
    requires n >= 1 && v == q * n + r && r < n
    ensures Div(v, n) == q && Mod(v, n) == r
  {
    DivIs(v, n, q, r);
    DivModAre(v, n);
  }

  lemma ModSum(a: nat, b: nat, n: nat)
    requires n >= 1
    ensures Mod(Mod(a, n) + Mod(b, n), n) == Mod(a + b, n)
  {
    var x, y := Mod(a, n), Mod(b, n);
    var q := Quot(a, n);
    var p := Quot(b, n);
    var r := Quot(x + y, n);
    Gather(q, p, r, n);
    ModIs(a + b, n, q + p + r, Mod(x + y, n));
  }

  lemma Quot(v: nat, n: nat) returns (q: nat)
    requires n >= 1
    ensures v == q * n + Mod(v, n)
  {
    DivModParts(v, n);
    q := Div(v, n);
  }

  lemma Gather(q: nat, p: nat, r: nat, n: nat)
    ensures (q + p + r) * n == q * n + p * n + r * n
  {
  }

  lemma ModProduct(a: nat, s: nat, n: nat)
    requires n >= 1
    ensures Mod(Mod(a, n) * s, n) == Mod(a * s, n)
  {
    var x := Mod(a, n);
    var q := Quot(a, n);
    var p := Quot(x * s, n);
    Distribute(q, n, x, s);
    MulDist(q * s, p, n);
    ModIs(a * s, n, q * s + p, Mod(x * s, n));
  }

  lemma Distribute(q: nat, n: nat, x: nat, s: nat)
    ensures (q * n + x) * s == q * s * n + x * s
  {
  }

  /** Halving a multiple of an odd number. */
  lemma Halve(x: nat, n: nat, q: nat)
    requires n % 2 == 1 && 2 * x == q * n
    ensures q % 2 == 0 && x == (q / 2) * n
  {
    if q % 2 == 1 {
      OddProduct(q, n);
      assert false;
    }
    assert q == 2 * (q / 2);
  }

  lemma OddProduct(q: nat, n: nat)
    requires q % 2 == 1 && n % 2 == 1
    ensures (q * n) % 2 == 1
  {
    var a, b := q / 2, n / 2;
    assert q == 2 * a + 1 && n == 2 * b + 1;
    assert q * n == 2 * (2 * a * b + a + b) + 1;
  }

  /** No power of two times b is a multiple of an odd number above b. */
  lemma {:induction false} NotMultiple(n: nat, pos: nat, b: nat, q: nat)
    requires n % 2 == 1 && 0 < b < n
    ensures b * Pow2(pos) != q * n
  {
    if b * Pow2(pos) == q * n {
      if pos == 0 {
        if q >= 1 { MulLe(1, q, n); }
        assert false;
      } else {
        assert b * Pow2(pos) == 2 * (b * Pow2(pos - 1));
        Halve(b * Pow2(pos - 1), n, q);
        NotMultiple(n, pos - 1, b, q / 2);
        assert false;
      }
    }
  }

  /** No entry of a table is the identity. */
  lemma EntryIsAPoint(n: nat, pos: nat, b: nat)
    requires OrderOk(n) && 0 < b < n
    ensures Entry(n, pos, b) != 0
  {
    EntryIs(n, pos, b);
    if Entry(n, pos, b) == 0 {
      DivModParts(b * Pow2(pos), n);
      NotMultiple(n, pos, b, Div(b * Pow2(pos), n));
      assert false;
    }
  }

  lemma {:induction false} ShiftedAdd(a: nat, b: nat, pos: nat)
    ensures Shifted(a, pos) + Shifted(b, pos) == Shifted(a + b, pos)
  {
    if pos > 0 { ShiftedAdd(a, b, pos - 1); }
  }

  /** One more base on top of an entry is the next entry. */
  lemma EntryNext(n: nat, pos: nat, b: nat)
    requires OrderOk(n) && 0 < b && b + 1 < n
    ensures Combine(n, Entry(n, pos, b), Entry(n, pos, 1)) == Some(Entry(n, pos, b + 1))
  {
    EntriesAdd(n, pos, b);
    EntryIsAPoint(n, pos, b + 1);
  }

  lemma EntriesAdd(n: nat, pos: nat, b: nat)
    requires n >= 1
    ensures Mod(Entry(n, pos, b) + Entry(n, pos, 1), n) == Entry(n, pos, b + 1)
  {
    ShiftedAdd(b, 1, pos);
    ModSum(Shifted(b, pos), Shifted(1, pos), n);
  }

  /** The base of the row w bits up, from the last point of a full row. */
  lemma EntryShift(n: nat, pos: nat, w: nat)
    requires n >= 1
    ensures Entry(n, pos, Pow2(w)) == Entry(n, pos + w, 1)
  {
    EntryIs(n, pos, Pow2(w));
    EntryIs(n, pos + w, 1);
    Pow2Add(w, pos);
  }

  lemma BaseOf(n: nat, pos: nat)
    requires OrderOk(n) && pos <= 255
    ensures TweakMul(n, 1, Pow2(pos)) == Some(Entry(n, pos, 1))
  {
    Pow2Le(pos, 255);
    EntryIs(n, pos, 1);
  }

  /** `bc3hash_gpu_point`: by 2^pos, then by b; None: an argument or a scalar refused. */
  function GpuPoint(n: nat, pos: nat, b: nat): Option<nat>
    requires n >= 1
  {
    if pos > 255 || b == 0 then None else
    match (if pos == 0 then Some(1) else TweakMul(n, 1, Pow2(pos)))
    case None => None
    case Some(p) => if b == 1 then Some(p) else TweakMul(n, p, b)
  }

  lemma Commute(a: nat, b: nat)
    ensures a * b == b * a && 1 * a == a
  {
  }

  lemma GpuPointIsEntry(n: nat, pos: nat, b: nat)
    requires OrderOk(n) && pos <= 255 && 0 < b < n
    ensures GpuPoint(n, pos, b) == Some(Entry(n, pos, b))
  {
    BaseOf(n, pos);
    EntryIs(n, pos, b);
    EntryIs(n, pos, 1);
    if pos == 0 { ModIs(1, n, 0, 1); }
    ModProduct(Pow2(pos), b, n);
    Commute(Pow2(pos), b);
  }
}
