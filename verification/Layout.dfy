/**
 The digits of a scalar at each table window, the rows they select from, and
 the memory the tables need (src/tuning.rs).
 */
module Layout {
  import opened Machine

  const START_WINDOW: nat := 16
  /** The windows tried above the start window, largest first. */
  const BIGGER: seq<nat> := [24, 22, 20, 19, 18]
  /** Spare memory a window has to leave, in bytes. */
  const VRAM_SPARE: nat := 0x4000_0000
  /** The power tables before the curves, in 64-bit words. */
  const POWER_TABLES_U64: nat := 43008

  function Repeat(x: nat, n: nat): (s: seq<nat>)
    ensures |s| == n && forall i :: 0 <= i < n ==> s[i] == x
  {
    if n == 0 then [] else [x] + Repeat(x, n - 1)
  }

  /** `digits`: the widths at `window`, least significant first; None where there is no kernel. */
  function Digits(window: nat): Option<seq<nat>>
  {
    if 2 <= window <= 20 then Some(Repeat(window, (256 + window - 1) / window))
    else if window == 22 then Some(Repeat(21, 8) + Repeat(22, 4))
    else if window == 24 then Some(Repeat(23, 8) + Repeat(24, 3))
    else None
  }

  datatype Row = Row(pos: nat, places: nat, points: nat)

  function RowAt(width: nat, pos: nat): Row
    requires pos <= 256
  {
    Row(pos, Pow2(width) - 1, Pow2(Min(width, 256 - pos)) - 1)
  }

  function RowsFrom(widths: seq<nat>, pos: nat): (rows: seq<Row>)
    requires pos <= 256
    ensures |rows| == |widths|
  {
    if widths == [] then []
    else [RowAt(widths[0], pos)] + RowsFrom(widths[1..], pos + Min(widths[0], 256 - pos))
  }

  function Rows(window: nat): Option<seq<Row>>
  {
    match Digits(window)
    case None => None
    case Some(widths) => Some(RowsFrom(widths, 0))
  }

  /** `rows`, with its running position. */
  method BuildRows(window: nat) returns (rows: Option<seq<Row>>)
    ensures rows == Rows(window)
  {
    var widths := Digits(window);
    if widths.None? { return None; }
    var out := RowsOf(widths.value);
    return Some(out);
  }

  method RowsOf(widths: seq<nat>) returns (out: seq<Row>)
    ensures out == RowsFrom(widths, 0)
  {
    var pos: nat, i: nat := 0, 0;
    out := [];
    while i < |widths|
      invariant i <= |widths| && pos <= 256
      invariant out + RowsFrom(widths[i..], pos) == RowsFrom(widths, 0)
    {
      var width := widths[i];
      var bits := Min(width, 256 - pos);
      var row := Row(pos, Pow2(width) - 1, Pow2(bits) - 1);
      RowsStep(out, widths, i, pos, row, pos + bits, i + 1);
      out := out + [row];
      pos := pos + bits;
      i := i + 1;
    }
    assert out + [] == out;
  }

  lemma RowsStep(out: seq<Row>, widths: seq<nat>, i: nat, pos: nat, row: Row, pos': nat, next: nat)
    requires i < |widths| && pos <= 256 && row == RowAt(widths[i], pos)
    requires pos' == pos + Min(widths[i], 256 - pos) && next == i + 1
    ensures out + RowsFrom(widths[i..], pos) == out + [row] + RowsFrom(widths[next..], pos')
  {
    assert widths[i..][1..] == widths[next..];
  }

  // ----- The rows tile the scalar -----

  /** The rows begin at `pos`, follow one another without gap or overlap, none empty, and end at bit 256. */
  predicate TileFrom(rows: seq<Row>, bits: seq<nat>, pos: nat)
  {
    if rows == [] then bits == [] && pos == 256
    else
      && bits != [] && bits[0] >= 1
      && rows[0].pos == pos && rows[0].points == Pow2(bits[0]) - 1 && rows[0].points <= rows[0].places
      && (|rows| > 1 ==> rows[0].points == rows[0].places)
      && TileFrom(rows[1..], bits[1..], pos + bits[0])
  }

  /** The widths reach bit 256 with the last of them, not before. */
  predicate Reaches(widths: seq<nat>, pos: nat)
  {
    if widths == [] then false
    else if |widths| == 1 then pos < 256 <= pos + widths[0]
    else widths[0] >= 1 && pos + widths[0] < 256 && Reaches(widths[1..], pos + widths[0])
  }

  function BitsFrom(widths: seq<nat>, pos: nat): (bits: seq<nat>)
    requires pos <= 256
    ensures |bits| == |widths|
  {
    if widths == [] then []
    else [Min(widths[0], 256 - pos)] + BitsFrom(widths[1..], pos + Min(widths[0], 256 - pos))
  }

  lemma {:induction false} Pow2Le(m: nat, n: nat)
    requires m <= n
    ensures Pow2(m) <= Pow2(n)
  {
    if m < n { Pow2Le(m, n - 1); }
  }

  lemma {:induction false} ReachingTiles(widths: seq<nat>, pos: nat)
    requires pos <= 256 && Reaches(widths, pos)
    ensures TileFrom(RowsFrom(widths, pos), BitsFrom(widths, pos), pos)
  {
    Pow2Le(Min(widths[0], 256 - pos), widths[0]);
    if |widths| > 1 {
      ReachingTiles(widths[1..], pos + widths[0]);
    } else {
      assert widths[1..] == [];
    }
  }

  lemma {:induction false} UniformReaches(w: nat, n: nat, pos: nat, left: nat)
    requires w >= 1 && n >= 1 && left + pos == 256 && (n - 1) * w < left <= n * w
    ensures Reaches(Repeat(w, n), pos)
  {
    if n > 1 {
      MulDist(n - 2, 1, w);
      MulDist(n - 1, 1, w);
      if n > 2 { MulLe(1, n - 2, w); }
      UniformReaches(w, n - 1, pos + w, left - w);
      assert Repeat(w, n)[1..] == Repeat(w, n - 1);
    }
  }

  lemma MixedReaches(w: nat, n: nat, tail: seq<nat>, pos: nat)
    requires w >= 1 && tail != [] && pos + n * w < 256 && Reaches(tail, pos + n * w)
    ensures Reaches(Repeat(w, n) + tail, pos)
  {
    if n == 0 {
      assert Repeat(w, 0) + tail == tail;
    } else {
      MulDist(n - 1, 1, w);
      MixedReaches(w, n - 1, tail, pos + w);
      assert (Repeat(w, n) + tail)[1..] == Repeat(w, n - 1) + tail;
    }
  }

  lemma DigitsReach(window: nat)
    requires Digits(window).Some?
    ensures Reaches(Digits(window).value, 0)
  {
    if window <= 20 {
      var n := (256 + window - 1) / window;
      DivMod(256 + window - 1, window);
      MulDist(n - 1, 1, window);
      UniformReaches(window, n, 0, 256);
    } else if window == 22 {
      UniformReaches(22, 4, 168, 88);
      MixedReaches(21, 8, Repeat(22, 4), 0);
    } else {
      UniformReaches(24, 3, 184, 72);
      MixedReaches(23, 8, Repeat(24, 3), 0);
    }
  }

  /** At every window there is a kernel for, the rows tile the bits 0 to 255; only a last row may have spare places. */
  lemma RowsTile(window: nat)
    requires Rows(window).Some?
    ensures TileFrom(Rows(window).value, BitsFrom(Digits(window).value, 0), 0)
  {
    DigitsReach(window);
    ReachingTiles(Digits(window).value, 0);
  }

  // ----- One digit per row -----

  /** A digit of the row: 0 or the number of one of its points. */
  predicate DigitsFor(rows: seq<Row>, ds: seq<nat>)
  {
    |ds| == |rows| && forall i :: 0 <= i < |ds| ==> ds[i] <= rows[i].points
  }

  /** What the digits add up to, each at its row's bit. */
  function ScalarOf(rows: seq<Row>, ds: seq<nat>): (v: nat)
    requires |ds| == |rows|
  {
    if rows == [] then 0 else ds[0] * Pow2(rows[0].pos) + ScalarOf(rows[1..], ds[1..])
  }

  /** The digits of a scalar: the bits of each row. */
  function CutScalar(bits: seq<nat>, v: nat): (ds: seq<nat>)
    ensures |ds| == |bits|
  {
    if bits == [] then [] else [Mod(v, Pow2(bits[0]))] + CutScalar(bits[1..], Div(v, Pow2(bits[0])))
  }

  lemma CutStep(v: nat, p: nat, q: nat)
    requires p >= 1 && v < p * q
    ensures Div(v, p) < q && v == Div(v, p) * p + Mod(v, p)
  {
    DivModParts(v, p);
    if Div(v, p) >= q { MulLe(q, Div(v, p), p); }
  }

  lemma PartsAddUp(v: nat, q: nat, r: nat, p: nat, t: nat, pt: nat)
    requires v == q * p + r && pt == p * t
    ensures r * t + q * pt == v * t
  {
    MulAssoc(q, p, t);
    MulDist(q * p, r, t);
  }

  lemma {:induction false} CutFits(rows: seq<Row>, bits: seq<nat>, pos: nat, v: nat)
    requires TileFrom(rows, bits, pos)
    ensures |bits| == |rows| && DigitsFor(rows, CutScalar(bits, v))
  {
    if rows != [] {
      var q := Div(v, Pow2(bits[0]));
      CutFits(rows[1..], bits[1..], pos + bits[0], q);
      var ds := CutScalar(bits, v);
      forall i | 0 <= i < |ds| ensures ds[i] <= rows[i].points {
        if i > 0 { assert CutScalar(bits[1..], q)[i - 1] <= rows[1..][i - 1].points; }
      }
    }
  }

  lemma {:induction false} CutAddsUp(rows: seq<Row>, bits: seq<nat>, pos: nat, v: nat)
    requires pos <= 256 && TileFrom(rows, bits, pos) && v < Pow2(256 - pos)
    ensures |bits| == |rows| && ScalarOf(rows, CutScalar(bits, v)) == v * Pow2(pos)
  {
    TileEnds(rows, bits, pos);
    if rows == [] {
      assert Pow2(0) == 1;
    } else {
      var b := bits[0];
      TileEnds(rows[1..], bits[1..], pos + b);
      var q := Div(v, Pow2(b));
      CutFirst(v, q, b, pos, 256 - pos - b);
      CutAddsUp(rows[1..], bits[1..], pos + b, q);
      assert CutScalar(bits, v)[1..] == CutScalar(bits[1..], q);
    }
  }

  /** The first b of the bits from `pos` on, and the rest. */
  lemma CutFirst(v: nat, q: nat, b: nat, pos: nat, rest: nat)
    requires v < Pow2(b + rest) && q == Div(v, Pow2(b))
    ensures q < Pow2(rest) && v * Pow2(pos) == Mod(v, Pow2(b)) * Pow2(pos) + q * Pow2(pos + b)
  {
    Pow2Add(b, rest);
    CutStep(v, Pow2(b), Pow2(rest));
    Pow2Add(b, pos);
    PartsAddUp(v, q, Mod(v, Pow2(b)), Pow2(b), Pow2(pos), Pow2(pos + b));
  }

  lemma TileEnds(rows: seq<Row>, bits: seq<nat>, pos: nat)
    requires TileFrom(rows, bits, pos)
    ensures pos <= 256 && |bits| == |rows|
  {
    if rows != [] { TileEnds(rows[1..], bits[1..], pos + bits[0]); }
  }

  /** Two remainders below p, two multiples of p: the same number only if the same parts. */
  lemma SameParts(a: nat, b: nat, c: nat, d: nat, p: nat)
    requires a < p && c < p && a + p * b == c + p * d
    ensures a == c && b == d
  {
    if b < d { MulLe(b + 1, d, p); MulDist(b, 1, p); }
    if d < b { MulLe(d + 1, b, p); MulDist(d, 1, p); }
  }

  /** The digits of a scalar are the only ones that add up to it. */
  lemma {:induction false} DigitsUnique(rows: seq<Row>, bits: seq<nat>, pos: nat, ds: seq<nat>, es: seq<nat>)
    requires pos <= 256 && TileFrom(rows, bits, pos) && DigitsFor(rows, ds) && DigitsFor(rows, es)
    requires ScalarOf(rows, ds) == ScalarOf(rows, es)
    ensures ds == es
  {
    if rows != [] {
      var b := bits[0];
      TileEnds(rows[1..], bits[1..], pos + b);
      assert DigitsFor(rows[1..], ds[1..]) && DigitsFor(rows[1..], es[1..]);
      var d := Quotient(rows[1..], bits[1..], pos + b, ds[1..]);
      var e := Quotient(rows[1..], bits[1..], pos + b, es[1..]);
      Pow2Add(b, pos);
      Peel(ds[0], d, es[0], e, Pow2(b), Pow2(pos), Pow2(pos + b));
      DigitsUnique(rows[1..], bits[1..], pos + b, ds[1..], es[1..]);
      assert ds == [ds[0]] + ds[1..] && es == [es[0]] + es[1..];
    }
  }

  lemma Factor(a: nat, d: nat, p: nat, q: nat)
    ensures a * q + d * (p * q) == (a + p * d) * q
  {
  }

  lemma Cancel(a: nat, b: nat, p: nat)
    requires p >= 1 && a * p == b * p
    ensures a == b
  {
    if a < b { MulLe(a + 1, b, p); MulDist(a, 1, p); }
    if b < a { MulLe(b + 1, a, p); MulDist(b, 1, p); }
  }

  lemma Peel(a: nat, b: nat, c: nat, d: nat, p: nat, q: nat, pq: nat)
    requires a < p && c < p && q >= 1 && pq == p * q && a * q + b * pq == c * q + d * pq
    ensures a == c && b == d
  {
    Factor(a, b, p, q);
    Factor(c, d, p, q);
    Cancel(a + p * b, c + p * d, q);
    SameParts(a, b, c, d, p);
  }

  /** What rows from bit `pos` on add up to is a multiple of 2^pos. */
  lemma {:induction false} Quotient(rows: seq<Row>, bits: seq<nat>, pos: nat, ds: seq<nat>) returns (q: nat)
    requires pos <= 256 && TileFrom(rows, bits, pos) && |ds| == |rows|
    ensures ScalarOf(rows, ds) == q * Pow2(pos)
  {
    if rows == [] {
      q := 0;
    } else {
      var b := bits[0];
      TileEnds(rows[1..], bits[1..], pos + b);
      var r := Quotient(rows[1..], bits[1..], pos + b, ds[1..]);
      Pow2Add(b, pos);
      Factor(ds[0], r, Pow2(b), Pow2(pos));
      q := ds[0] + Pow2(b) * r;
    }
  }

  /** `v` is the sum of one digit per row, in exactly one way. */
  ghost predicate CutsOnce(rows: seq<Row>, v: nat)
  {
    exists ds ::
      && DigitsFor(rows, ds) && ScalarOf(rows, ds) == v
      && forall es :: DigitsFor(rows, es) && ScalarOf(rows, es) == v ==> es == ds
  }

  lemma TiledCutsOnce(rows: seq<Row>, bits: seq<nat>, v: nat, total: nat)
    requires TileFrom(rows, bits, 0) && total == 256 && v < Pow2(total)
    ensures CutsOnce(rows, v)
  {
    var ds := CutFully(rows, bits, v, total);
    OnlyCut(rows, bits, v, ds);
  }

  lemma OnlyCut(rows: seq<Row>, bits: seq<nat>, v: nat, ds: seq<nat>)
    requires TileFrom(rows, bits, 0) && DigitsFor(rows, ds) && ScalarOf(rows, ds) == v
    ensures forall es :: DigitsFor(rows, es) && ScalarOf(rows, es) == v ==> es == ds
  {
    forall es | DigitsFor(rows, es) && ScalarOf(rows, es) == v ensures es == ds {
      DigitsUnique(rows, bits, 0, es, ds);
    }
  }

  lemma CutFully(rows: seq<Row>, bits: seq<nat>, v: nat, total: nat) returns (ds: seq<nat>)
    requires TileFrom(rows, bits, 0) && total == 256 && v < Pow2(total)
    ensures DigitsFor(rows, ds) && ScalarOf(rows, ds) == v
  {
    CutAddsUp(rows, bits, 0, v);
    CutFits(rows, bits, 0, v);
    ds := CutScalar(bits, v);
    TimesOne(v);
  }

  lemma TimesOne(v: nat)
    ensures v * Pow2(0) == v
  {
  }

  /** Every 256-bit scalar is the sum of one digit per row, in exactly one way. */
  lemma ScalarsCutOnce(window: nat, v: nat)
    requires Rows(window).Some? && v < Pow2(256)
    ensures CutsOnce(Rows(window).value, v)
  {
    RowsTile(window);
    TiledCutsOnce(Rows(window).value, BitsFrom(Digits(window).value, 0), v, 256);
  }

  // ----- What the tables take -----

  function PlacesOf(rows: seq<Row>): nat
  {
    if rows == [] then 0 else rows[0].places + PlacesOf(rows[1..])
  }

  function TableBytes(window: nat): nat
  {
    match Rows(window)
    case None => 0
    case Some(rows) => (POWER_TABLES_U64 + 4 * PlacesOf(rows) * 8) * 8
  }

  lemma {:induction false} PlacesAfter(w: nat, n: nat, tail: seq<nat>, pos: nat, p: nat) returns (end: nat)
    requires pos <= 256 && p == Pow2(w) - 1
    ensures pos <= end <= 256
    ensures PlacesOf(RowsFrom(Repeat(w, n) + tail, pos)) == n * p + PlacesOf(RowsFrom(tail, end))
  {
    if n == 0 {
      assert Repeat(w, 0) + tail == tail;
      end := pos;
    } else {
      var next := pos + Min(w, 256 - pos);
      end := PlacesAfter(w, n - 1, tail, next, p);
      FirstPlaces(w, n, tail, pos, p);
      MulDist(n - 1, 1, p);
    }
  }

  lemma FirstPlaces(w: nat, n: nat, tail: seq<nat>, pos: nat, p: nat)
    requires pos <= 256 && n >= 1 && p == Pow2(w) - 1
    ensures PlacesOf(RowsFrom(Repeat(w, n) + tail, pos))
         == p + PlacesOf(RowsFrom(Repeat(w, n - 1) + tail, pos + Min(w, 256 - pos)))
  {
    assert (Repeat(w, n) + tail)[1..] == Repeat(w, n - 1) + tail;
  }

  lemma PlacesUniform(w: nat, n: nat, pos: nat, p: nat)
    requires pos <= 256 && p == Pow2(w) - 1
    ensures PlacesOf(RowsFrom(Repeat(w, n), pos)) == n * p
  {
    var end := PlacesAfter(w, n, [], pos, p);
    assert Repeat(w, n) + [] == Repeat(w, n);
  }

  lemma PlacesMixed(v: nat, m: nat, w: nat, n: nat, p: nat, q: nat)
    requires p == Pow2(v) - 1 && q == Pow2(w) - 1
    ensures PlacesOf(RowsFrom(Repeat(v, m) + Repeat(w, n), 0)) == m * p + n * q
  {
    var end := PlacesAfter(v, m, Repeat(w, n), 0, p);
    PlacesUniform(w, n, end, q);
  }

  /** The sizes from 16 to 24, in numbers. */
  function Size(window: nat): nat
  {
    match window
    case 16 => 344_064 + 256 * 16 * 65_535
    case 17 => 344_064 + 256 * 16 * 131_071
    case 18 => 344_064 + 256 * 15 * 262_143
    case 19 => 344_064 + 256 * 14 * 524_287
    case 20 => 344_064 + 256 * 13 * 1_048_575
    case 22 => 344_064 + 256 * (8 * 2_097_151 + 4 * 4_194_303)
    case 24 => 344_064 + 256 * (8 * 8_388_607 + 3 * 16_777_215)
    case _ => 0
  }

  function Power(n: nat): nat
  {
    match n
    case 16 => 65_536
    case 17 => 131_072
    case 18 => 262_144
    case 19 => 524_288
    case 20 => 1_048_576
    case 21 => 2_097_152
    case 22 => 4_194_304
    case 23 => 8_388_608
    case 24 => 16_777_216
    case _ => 0
  }

  lemma {:induction false} Powers(n: nat)
    requires 16 <= n <= 24
    ensures Pow2(n) == Power(n)
  {
    if n == 16 { Pow2Bytes(2); assert Pow256(2) == 65_536; } else { Powers(n - 1); }
  }

  lemma BytesOf(w: nat, widths: seq<nat>, places: nat)
    requires Digits(w) == Some(widths) && PlacesOf(RowsFrom(widths, 0)) == places
    ensures TableBytes(w) == (POWER_TABLES_U64 + 32 * places) * 8
  {
  }

  lemma UniformSize(w: nat, n: nat, p: nat)
    requires 16 <= w <= 20 && n == (256 + w - 1) / w && p == Pow2(w) - 1
    ensures TableBytes(w) == (POWER_TABLES_U64 + 32 * (n * p)) * 8
  {
    PlacesUniform(w, n, 0, p);
    BytesOf(w, Repeat(w, n), n * p);
  }

  lemma MixedSize(w: nat, v: nat, m: nat, n: nat, p: nat, q: nat)
    requires Digits(w) == Some(Repeat(v, m) + Repeat(w, n)) && p == Pow2(v) - 1 && q == Pow2(w) - 1
    ensures TableBytes(w) == (POWER_TABLES_U64 + 32 * (m * p + n * q)) * 8
  {
    PlacesMixed(v, m, w, n, p, q);
    BytesOf(w, Repeat(v, m) + Repeat(w, n), m * p + n * q);
  }

  lemma TableSize(w: nat)
    requires START_WINDOW <= w <= 24
    ensures TableBytes(w) == Size(w)
  {
    if w <= 20 { UniformTableSize(w); } else if w == 22 || w == 24 { MixedTableSize(w); }
  }

  lemma UniformTableSize(w: nat)
    requires START_WINDOW <= w <= 20
    ensures TableBytes(w) == Size(w)
  {
    Powers(w);
    var n := if w <= 17 then 16 else 33 - w;
    UniformSize(w, n, Power(w) - 1);
    UniformNumbers(w, n, Power(w));
  }

  lemma UniformNumbers(w: nat, n: nat, p: nat)
    requires START_WINDOW <= w <= 20 && n == (if w <= 17 then 16 else 33 - w) && p == Power(w)
    ensures (POWER_TABLES_U64 + 32 * (n * (p - 1))) * 8 == Size(w)
  {
  }

  lemma MixedTableSize(w: nat)
    requires w == 22 || w == 24
    ensures TableBytes(w) == Size(w)
  {
    Powers(w);
    Powers(w - 1);
    var n := if w == 22 then 4 else 3;
    MixedSize(w, w - 1, 8, n, Power(w - 1) - 1, Power(w) - 1);
    MixedNumbers(w, n, Power(w - 1), Power(w));
  }

  lemma MixedNumbers(w: nat, n: nat, p: nat, q: nat)
    requires (w == 22 && n == 4) || (w == 24 && n == 3)
    requires p == Power(w - 1) && q == Power(w)
    ensures (POWER_TABLES_U64 + 32 * (8 * (p - 1) + n * (q - 1))) * 8 == Size(w)
  {
  }

  lemma SizesGrow(w: nat, fitting: nat)
    requires fitting in BIGGER && START_WINDOW < w <= fitting
    ensures Size(w) <= Size(fitting) && (w in BIGGER && w < fitting ==> Size(w) < Size(fitting))
  {
  }

  /** A smaller window above the start never takes more than one of the windows tried. */
  lemma SmallerTakesLess(w: nat, fitting: nat)
    requires fitting in BIGGER && START_WINDOW < w <= fitting
    ensures TableBytes(w) <= TableBytes(fitting)
    ensures w in BIGGER && w < fitting ==> TableBytes(w) < TableBytes(fitting)
  {
    TableSize(w);
    TableSize(fitting);
    SizesGrow(w, fitting);
  }

  predicate FitsIn(w: nat, free: nat)
  {
    TableBytes(w) + VRAM_SPARE <= free
  }

  predicate Descending(s: seq<nat>)
  {
    forall i, j :: 0 <= i < j < |s| ==> s[j] < s[i]
  }

  /** `largest_fitting` over `windows`, which it takes `BIGGER` for: the first that fits. */
  method LargestFitting(windows: seq<nat>, free: nat) returns (w: Option<nat>)
    requires Descending(windows)
    ensures w.Some? ==> w.value in windows && FitsIn(w.value, free)
    ensures forall v :: v in windows && FitsIn(v, free) ==> w.Some? && v <= w.value
  {
    var i := 0;
    while i < |windows|
      invariant i <= |windows|
      invariant forall j :: 0 <= j < i ==> !FitsIn(windows[j], free)
    {
      if FitsIn(windows[i], free) {
        TheRestIsSmaller(windows, i, set v | v in windows && FitsIn(v, free));
        return Some(windows[i]);
      }
      i := i + 1;
    }
    return None;
  }

  lemma TheRestIsSmaller(windows: seq<nat>, i: nat, fits: set<nat>)
    requires Descending(windows) && i < |windows| && forall j :: 0 <= j < i ==> windows[j] !in fits
    ensures forall v :: v in windows && v in fits ==> v <= windows[i]
  {
  }
}
