/**
 The builders of the curve tables: a whole curve at a time, each row from the
 one before it (`curve_table`), a row on its own (`curve_row`), and on the card
 (`build_tables`). TablePool.dfy has the host's, on many threads (`gpu_tables`).
 */
module TableBuilders {
  import opened Machine
  import opened Layout
  import opened Tables

  /** Eight words of a table: nothing, a part of the power tables, or the point k * P of a curve. */
  datatype Place = Zeros | Power(part: nat) | Point(curve: nat, k: nat)

  // ----- What the tables hold -----

  function PlaceOf(n: nat, row: Row, curve: nat, j: nat): Place
    requires n >= 1
  {
    if j < row.points then Point(curve, Entry(n, row.pos, j + 1)) else Zeros
  }

  /** The first m places of a row. */
  function RowPrefix(n: nat, row: Row, curve: nat, m: nat): (s: seq<Place>)
    requires n >= 1
    ensures |s| == m
  {
    if m == 0 then [] else RowPrefix(n, row, curve, m - 1) + [PlaceOf(n, row, curve, m - 1)]
  }

  function RowPlaces(n: nat, row: Row, curve: nat): (s: seq<Place>)
    requires n >= 1
    ensures |s| == row.places
  {
    RowPrefix(n, row, curve, row.places)
  }

  lemma {:induction false} RowPrefixAt(n: nat, row: Row, curve: nat, m: nat, j: nat)
    requires n >= 1 && j < m
    ensures RowPrefix(n, row, curve, m)[j] == PlaceOf(n, row, curve, j)
  {
    if j < m - 1 { RowPrefixAt(n, row, curve, m - 1, j); }
  }

  lemma RowPlacesAt(n: nat, row: Row, curve: nat)
    requires n >= 1
    ensures forall j :: 0 <= j < row.places ==> RowPlaces(n, row, curve)[j] == PlaceOf(n, row, curve, j)
  {
    forall j | 0 <= j < row.places ensures RowPlaces(n, row, curve)[j] == PlaceOf(n, row, curve, j) {
      RowPrefixAt(n, row, curve, row.places, j);
    }
  }

  function CurvePlaces(n: nat, rows: seq<Row>, curve: nat): seq<Place>
    requires n >= 1
  {
    if rows == [] then [] else CurvePlaces(n, rows[..|rows| - 1], curve) + RowPlaces(n, rows[|rows| - 1], curve)
  }

  function AllPlaces(n: nat, rows: seq<Row>, curves: nat): seq<Place>
    requires n >= 1
  {
    if curves == 0 then [] else AllPlaces(n, rows, curves - 1) + CurvePlaces(n, rows, curves - 1)
  }

  lemma AllRows(rows: seq<Row>)
    ensures rows[..|rows|] == rows
  {
  }

  lemma CurveSnoc(n: nat, rows: seq<Row>, curve: nat, i: nat)
    requires n >= 1 && i < |rows|
    ensures CurvePlaces(n, rows[..i + 1], curve) == CurvePlaces(n, rows[..i], curve) + RowPlaces(n, rows[i], curve)
  {
    assert rows[..i + 1][..i] == rows[..i];
  }

  // ----- The rows of a uniform window, as shim.cpp counts them -----

  function RowCount(w: nat): nat
    requires w >= 1
  {
    (256 + w - 1) / w
  }

  function UniformRow(w: nat, i: nat): Row
    requires 2 <= w <= 24 && i < RowCount(w)
  {
    LastRowShort(w);
    Row(w * i, Pow2(w) - 1, if i + 1 == RowCount(w) then Pow2(256 - w * (RowCount(w) - 1)) - 1 else Pow2(w) - 1)
  }

  lemma LastRowShort(w: nat)
    requires 2 <= w <= 24
    ensures RowCount(w) >= 1 && w * (RowCount(w) - 1) <= 255 && 256 <= w * RowCount(w)
  {
    var d := RowCount(w);
    DivMod(256 + w - 1, w);
    MulDist(d - 1, 1, w);
  }

  lemma RowShape(w: nat, i: nat, d: nat, left: nat)
    requires 2 <= w <= 24 && i < d == RowCount(w) && left == 256 - w * (d - 1)
    ensures w * i <= 255 && 1 <= left <= w && 2 <= Pow2(left) <= Pow2(w)
  {
    LastRowShort(w);
    ShapeBits(w, i, d, left);
    Pow2Le(left, w);
    Pow2Le(1, left);
  }

  lemma ShapeBits(w: nat, i: nat, d: nat, left: nat)
    requires i < d && left == 256 - w * (d - 1) && w * (d - 1) <= 255 && 256 <= w * d
    ensures w * i <= 255 && 1 <= left <= w
  {
    MulLe(i, d - 1, w);
    MulDist(d - 1, 1, w);
  }

  lemma RowOk(n: nat, w: nat, i: nat)
    requires OrderOk(n) && 2 <= w <= 24 && i < RowCount(w)
    ensures var row := UniformRow(w, i); row.pos <= 255 && 1 <= row.points <= row.places && row.places + 1 < n
  {
    LastRowShort(w);
    RowShape(w, i, RowCount(w), 256 - w * (RowCount(w) - 1));
    BelowOrder(n, w);
  }

  /** w * i, step by step. */
  function Steps(w: nat, i: nat): nat
  {
    if i == 0 then 0 else Steps(w, i - 1) + w
  }

  lemma {:induction false} StepsAre(w: nat, i: nat)
    ensures Steps(w, i) == w * i
  {
    if i > 0 {
      StepsAre(w, i - 1);
      MulDist(i - 1, 1, w);
    }
  }

  lemma {:induction false} StepsUp(w: nat, i: nat, j: nat)
    requires i <= j
    ensures Steps(w, i) <= Steps(w, j)
  {
    if i < j { StepsUp(w, i, j - 1); }
  }

  lemma {:induction false} UniformRows(w: nat, m: nat, i: nat, pos: nat)
    requires 2 <= w <= 24 && i < m && pos + Steps(w, m - 1) <= 255 && 256 <= pos + Steps(w, m)
    ensures pos + Steps(w, i) <= 255 && RowsFrom(Repeat(w, m), pos)[i] == RowAt(w, pos + Steps(w, i))
  {
    StepsUp(w, i, m - 1);
    if i > 0 {
      StepsUp(w, 0, m - 2);
      UniformRows(w, m - 1, i - 1, pos + w);
      NextRow(w, m, i, pos);
    }
  }

  lemma NextRow(w: nat, m: nat, i: nat, pos: nat)
    requires 1 <= i < m && pos + w <= 256
    ensures RowsFrom(Repeat(w, m), pos)[i] == RowsFrom(Repeat(w, m - 1), pos + w)[i - 1]
  {
    assert Repeat(w, m)[1..] == Repeat(w, m - 1);
  }

  lemma BitsAt(w: nat, i: nat, d: nat)
    requires i < d && w * (d - 1) <= 255 && 256 <= w * d
    ensures Min(w, 256 - w * i) == if i + 1 == d then 256 - w * (d - 1) else w
  {
    MulDist(d - 1, 1, w);
    if i + 1 < d {
      MulLe(i + 1, d - 1, w);
      MulDist(i, 1, w);
    }
  }

  /** At the uniform windows these are the rows of the layout. */
  lemma LayoutRow(w: nat, i: nat)
    requires 2 <= w <= 20 && i < RowCount(w)
    ensures Rows(w).Some? && |Rows(w).value| == RowCount(w) && Rows(w).value[i] == UniformRow(w, i)
  {
    LastRowShort(w);
    BitsAt(w, i, RowCount(w));
    WalkedRow(w, i, RowCount(w), w * i);
    LayoutIs(w);
  }

  lemma LayoutIs(w: nat)
    requires 2 <= w <= 20
    ensures Rows(w) == Some(RowsFrom(Repeat(w, RowCount(w)), 0))
  {
  }

  lemma WalkedRow(w: nat, i: nat, d: nat, at: nat)
    requires 2 <= w <= 24 && i < d && w * (d - 1) <= 255 && 256 <= w * d && at == w * i
    ensures at <= 255 && RowsFrom(Repeat(w, d), 0)[i] == RowAt(w, at)
  {
    StepsAre(w, i);
    StepsAre(w, d - 1);
    StepsAre(w, d);
    UniformRows(w, d, i, 0);
  }

  // ----- A row on its own -----

  /** `curve_row` into the places of `out` from `at` on; -2: an argument refused. */
  method CurveRow(n: nat, w: nat, i: nat, curve: nat, out: array<Place>, at: nat) returns (rc: int)
    requires OrderOk(n)
    requires 2 <= w <= 24 && i < RowCount(w) ==> at + UniformRow(w, i).places <= out.Length
    modifies out
    ensures rc == if 2 <= w <= 24 && i < RowCount(w) then 0 else -2
    ensures rc == 0 ==>
      out[..] == old(out[..at]) + RowPlaces(n, UniformRow(w, i), curve) + old(out[at + UniformRow(w, i).places..])
    ensures rc != 0 ==> out[..] == old(out[..])
  {
    if w < 2 || w > 24 || i >= RowCount(w) { return -2; }
    var row := UniformRow(w, i);
    RowOk(n, w, i);
    var base := BaseAlone(n, row.pos);
    FillAlone(n, row, row.points, row.places, base, curve, out, at);
    return 0;
  }

  /** 2^pos * P by one multiplication, which is not refused; P itself for the first row. */
  method BaseAlone(n: nat, pos: nat) returns (base: nat)
    requires OrderOk(n) && pos <= 255
    ensures base == Entry(n, pos, 1)
  {
    BaseOf(n, pos);
    FirstEntry(n);
    base := if pos == 0 then 1 else TweakMul(n, 1, Pow2(pos)).value;
  }

  lemma FirstEntry(n: nat)
    requires OrderOk(n)
    ensures Entry(n, 0, 1) == 1
  {
    Pow2Le(1, 255);
    assert Pow2(0) == 1;
    ModIs(1, n, 0, 1);
  }

  /** The points of one row, each from the one before it, straight into `out`. */
  method FillAlone(n: nat, ghost row: Row, count: nat, entries: nat, base: nat, curve: nat, out: array<Place>, at: nat)
    requires OrderOk(n) && base == Entry(n, row.pos, 1)
    requires 1 <= count == row.points <= row.places == entries && entries + 1 < n && at + entries <= out.Length
    modifies out
    ensures out[..] == old(out[..at]) + RowPlaces(n, row, curve) + old(out[at + entries..])
  {
    var point := base;
    for j := 0 to entries
      invariant 0 < j <= count ==> point == Entry(n, row.pos, j)
      invariant j == 0 ==> point == base
      invariant forall x :: 0 <= x < j ==> out[at + x] == PlaceOf(n, row, curve, x)
      invariant forall x :: (0 <= x < at || at + entries <= x < out.Length) ==> out[x] == old(out[x])
    {
      if j >= count {
        out[at + j] := Zeros;
      } else {
        if j > 0 { point := NextPoint(n, row.pos, j, point, base); }
        out[at + j] := Point(curve, point);
      }
    }
    RowSpliced(n, row, curve, out, at, old(out[..]));
  }

  /** The sum of the last point and the base, which is not refused. */
  method NextPoint(n: nat, ghost pos: nat, ghost j: nat, point: nat, base: nat) returns (next: nat)
    requires OrderOk(n) && 0 < j && j + 1 < n && point == Entry(n, pos, j) && base == Entry(n, pos, 1)
    ensures next == Entry(n, pos, j + 1)
  {
    EntryNext(n, pos, j);
    next := Combine(n, point, base).value;
  }

  /** The places of a row written one by one, and nothing else touched. */
  lemma RowSpliced(n: nat, row: Row, curve: nat, out: array<Place>, at: nat, was: seq<Place>)
    requires n >= 1 && |was| == out.Length && at + row.places <= out.Length
    requires forall x :: 0 <= x < row.places ==> out[at + x] == PlaceOf(n, row, curve, x)
    requires forall x :: (0 <= x < at || at + row.places <= x < out.Length) ==> out[x] == was[x]
    ensures out[..] == was[..at] + RowPlaces(n, row, curve) + was[at + row.places..]
  {
    RowPlacesAt(n, row, curve);
    SpliceIs(out, at, RowPlaces(n, row, curve), was);
  }

  lemma WholeArray(out: array<Place>, at: nat)
    requires at == out.Length
    ensures out[..at] == out[..]
  {
  }

  lemma SpliceIs(out: array<Place>, at: nat, s: seq<Place>, was: seq<Place>)
    requires |was| == out.Length && at + |s| <= out.Length
    requires forall x :: 0 <= x < |s| ==> out[at + x] == s[x]
    requires forall x :: (0 <= x < at || at + |s| <= x < out.Length) ==> out[x] == was[x]
    ensures out[..] == was[..at] + s + was[at + |s|..]
  {
    forall x | 0 <= x < out.Length ensures out[..][x] == (was[..at] + s + was[at + |s|..])[x] {
      if at <= x < at + |s| { assert out[at + (x - at)] == s[x - at]; }
    }
  }

  // ----- A whole curve -----

  /** The points of a row from its base; none of the sums is refused. */
  method RowPoints(n: nat, ghost pos: nat, base: nat, count: nat) returns (row: array<nat>)
    requires OrderOk(n) && base == Entry(n, pos, 1) && 1 <= count && count + 1 < n
    ensures fresh(row) && row.Length == count && forall j :: 0 <= j < count ==> row[j] == Entry(n, pos, j + 1)
  {
    row := new nat[count];
    row[0] := base;
    for j := 1 to count
      invariant forall x :: 0 <= x < j ==> row[x] == Entry(n, pos, x + 1)
    {
      EntryNext(n, pos, j);
      row[j] := Combine(n, row[j - 1], base).value;
    }
  }

  method WriteRow(n: nat, ghost row: Row, points: array<nat>, entries: nat, curve: nat, out: array<Place>, at: nat)
    requires n >= 1 && points.Length == row.points <= row.places == entries && at + entries <= out.Length
    requires forall j :: 0 <= j < points.Length ==> points[j] == Entry(n, row.pos, j + 1)
    modifies out
    ensures out[..] == old(out[..at]) + RowPlaces(n, row, curve) + old(out[at + entries..])
  {
    for j := 0 to entries
      invariant forall x :: 0 <= x < j ==> out[at + x] == PlaceOf(n, row, curve, x)
      invariant forall x :: (0 <= x < at || at + entries <= x < out.Length) ==> out[x] == old(out[x])
    {
      out[at + j] := if j < points.Length then Point(curve, points[j]) else Zeros;
    }
    RowSpliced(n, row, curve, out, at, old(out[..]));
  }

  /** The first `m` rows of a uniform window. */
  function UniformRowsTo(w: nat, m: nat): (rows: seq<Row>)
    requires 2 <= w <= 24 && m <= RowCount(w)
    ensures |rows| == m
  {
    seq(m, i requires 0 <= i < m => UniformRow(w, i))
  }

  lemma CurveSnocUniform(n: nat, w: nat, curve: nat, m: nat)
    requires n >= 1 && 2 <= w <= 24 && m < RowCount(w)
    ensures CurvePlaces(n, UniformRowsTo(w, m + 1), curve)
         == CurvePlaces(n, UniformRowsTo(w, m), curve) + RowPlaces(n, UniformRow(w, m), curve)
  {
    var rows := UniformRowsTo(w, m + 1);
    assert rows[..m] == UniformRowsTo(w, m);
  }

  /** Rows of equal length, one after another. */
  function Places(w: nat, m: nat): (k: nat)
  {
    if m == 0 then 0 else Places(w, m - 1) + (Pow2(w) - 1)
  }

  lemma {:induction false} CurveLength(n: nat, w: nat, curve: nat, m: nat)
    requires n >= 1 && 2 <= w <= 24 && m <= RowCount(w)
    ensures |CurvePlaces(n, UniformRowsTo(w, m), curve)| == Places(w, m)
  {
    if m > 0 {
      CurveSnocUniform(n, w, curve, m - 1);
      CurveLength(n, w, curve, m - 1);
    }
  }

  lemma {:induction false} PlacesGrow(w: nat, m: nat, d: nat)
    requires m <= d
    ensures Places(w, m) <= Places(w, d)
  {
    if m < d { PlacesGrow(w, m, d - 1); }
  }

  /** `curve_table`: the base of each row is the sum of the last point and the first of the row before. */
  method CurveTable(n: nat, w: nat, curve: nat, out: array<Place>)
    requires OrderOk(n) && 2 <= w <= 24 && out.Length == Places(w, RowCount(w))
    modifies out
    ensures out[..] == CurvePlaces(n, UniformRowsTo(w, RowCount(w)), curve)
  {
    var digits := RowCount(w);
    var entries := Pow2(w) - 1;
    var base, at := 1, 0;
    FirstBase(n, w);
    for i := 0 to digits
      invariant i < digits ==> base == Entry(n, UniformRow(w, i).pos, 1)
      invariant at == Places(w, i) && at <= out.Length
      invariant out[..at] == CurvePlaces(n, UniformRowsTo(w, i), curve)
    {
      PlacesGrow(w, i + 1, digits);
      base := NextRowOf(n, w, i, base, curve, out, at);
      at := at + entries;
    }
    WholeArray(out, at);
  }

  /** Row i of a curve behind those before it, and the base of the one after. */
  method NextRowOf(n: nat, w: nat, i: nat, base: nat, curve: nat, out: array<Place>, at: nat) returns (next: nat)
    requires OrderOk(n) && 2 <= w <= 24 && i < RowCount(w) && base == Entry(n, UniformRow(w, i).pos, 1)
    requires at == Places(w, i) && Places(w, i + 1) <= out.Length
    requires out[..at] == CurvePlaces(n, UniformRowsTo(w, i), curve)
    modifies out
    ensures out[..Places(w, i + 1)] == CurvePlaces(n, UniformRowsTo(w, i + 1), curve)
    ensures i + 1 < RowCount(w) ==> next == Entry(n, UniformRow(w, i + 1).pos, 1)
  {
    var row := UniformRow(w, i);
    RowOk(n, w, i);
    var points := RowPoints(n, row.pos, base, row.points);
    WriteRow(n, row, points, row.places, curve, out, at);
    CurveSnocUniform(n, w, curve, i);
    next := base;
    if i + 1 < RowCount(w) { next := NextBase(n, w, i, points, row.points); }
  }

  lemma FirstBase(n: nat, w: nat)
    requires OrderOk(n) && 2 <= w <= 24
    ensures 0 < RowCount(w) && Entry(n, UniformRow(w, 0).pos, 1) == 1
  {
    LastRowShort(w);
    FirstEntry(n);
  }

  method NextBase(n: nat, w: nat, i: nat, points: array<nat>, count: nat) returns (base: nat)
    requires OrderOk(n) && 2 <= w <= 24 && i + 1 < RowCount(w) && count == points.Length == Pow2(w) - 1
    requires forall j :: 0 <= j < count ==> points[j] == Entry(n, UniformRow(w, i).pos, j + 1)
    ensures base == Entry(n, UniformRow(w, i + 1).pos, 1)
  {
    RowOk(n, w, i);
    EntryNext(n, UniformRow(w, i).pos, count);
    EntryShift(n, UniformRow(w, i).pos, w);
    MulDist(i, 1, w);
    base := Combine(n, points[count - 1], points[0]).value;
  }

  lemma Assoc(a: seq<Place>, b: seq<Place>, c: seq<Place>)
    ensures a + b + c == a + (b + c)
  {
  }

  // ----- The card's tables -----

  predicate RowsFit(n: nat, rows: seq<Row>)
  {
    forall i :: 0 <= i < |rows| ==> rows[i].pos <= 255 && rows[i].points <= rows[i].places && rows[i].points < n
  }

  lemma BelowOrder(n: nat, bits: nat)
    requires OrderOk(n) && bits <= 24
    ensures Pow2(bits) < n
  {
    Pow2Le(bits, 255);
  }

  lemma {:induction false} RowsFromFit(n: nat, widths: seq<nat>, pos: nat)
    requires OrderOk(n) && pos <= 255 && Reaches(widths, pos) && forall i :: 0 <= i < |widths| ==> widths[i] <= 24
    ensures RowsFit(n, RowsFrom(widths, pos))
  {
    Pow2Le(Min(widths[0], 256 - pos), widths[0]);
    BelowOrder(n, widths[0]);
    if |widths| > 1 {
      RowsFromFit(n, widths[1..], pos + widths[0]);
      FitsBefore(n, RowAt(widths[0], pos), RowsFrom(widths[1..], pos + widths[0]));
    }
  }

  lemma FitsBefore(n: nat, row: Row, rows: seq<Row>)
    requires RowsFit(n, rows) && row.pos <= 255 && row.points <= row.places && row.points < n
    ensures RowsFit(n, [row] + rows)
  {
  }

  /** At every window there is a kernel for. */
  lemma WindowRowsFit(n: nat, window: nat)
    requires OrderOk(n) && Rows(window).Some?
    ensures RowsFit(n, Rows(window).value)
  {
    DigitsReach(window);
    RowsFromFit(n, Digits(window).value, 0);
  }

  /** The kernel: `count` multiples of `base`, into zeroed places. */
  method BuildRow(n: nat, ghost row: Row, base: nat, count: nat, curve: nat, out: array<Place>, at: nat)
    requires n >= 1 && base == Entry(n, row.pos, 1) && count == row.points <= row.places && at + row.places <= out.Length
    requires forall x :: at <= x < at + row.places ==> out[x] == Zeros
    modifies out
    ensures out[..] == old(out[..at]) + RowPlaces(n, row, curve) + old(out[at + row.places..])
  {
    for j := 0 to count
      invariant forall x :: 0 <= x < j ==> out[at + x] == PlaceOf(n, row, curve, x)
      invariant forall x :: (0 <= x < at || at + j <= x < out.Length) ==> out[x] == old(out[x])
    {
      ModProduct(Pow2(row.pos), j + 1, n);
      Commute(Pow2(row.pos), j + 1);
      EntryIs(n, row.pos, 1);
      EntryIs(n, row.pos, j + 1);
      out[at + j] := Point(curve, Mod(base * (j + 1), n));
    }
    RowSpliced(n, row, curve, out, at, old(out[..]));
  }

  /** The places of the rows before row `i`. */
  function Before(rows: seq<Row>, i: nat): nat
    requires i <= |rows|
  {
    if i == 0 then 0 else Before(rows, i - 1) + rows[i - 1].places
  }

  function Stride(rows: seq<Row>, c: nat): nat
  {
    if c == 0 then 0 else Stride(rows, c - 1) + Before(rows, |rows|)
  }

  lemma {:induction false} BeforeUp(rows: seq<Row>, i: nat, j: nat)
    requires i <= j <= |rows|
    ensures Before(rows, i) <= Before(rows, j)
  {
    if i < j { BeforeUp(rows, i, j - 1); }
  }

  lemma {:induction false} StrideUp(rows: seq<Row>, c: nat, d: nat)
    requires c <= d
    ensures Stride(rows, c) <= Stride(rows, d)
  {
    if c < d { StrideUp(rows, c, d - 1); }
  }

  /** `at` stays within the buffer. */
  lemma SliceFits(rows: seq<Row>, c: nat, i: nat)
    requires c < 4 && i < |rows|
    ensures Stride(rows, c) + Before(rows, i + 1) <= Stride(rows, 4)
  {
    StrideUp(rows, c + 1, 4);
    BeforeUp(rows, i + 1, |rows|);
  }

  lemma {:induction false} CurvePlacesLength(n: nat, rows: seq<Row>, curve: nat, i: nat)
    requires n >= 1 && i <= |rows|
    ensures |CurvePlaces(n, rows[..i], curve)| == Before(rows, i)
  {
    if i > 0 {
      CurvePlacesLength(n, rows, curve, i - 1);
      CurveSnoc(n, rows, curve, i - 1);
    }
  }

  lemma {:induction false} AllPlacesLength(n: nat, rows: seq<Row>, c: nat)
    requires n >= 1
    ensures |AllPlaces(n, rows, c)| == Stride(rows, c)
  {
    if c > 0 {
      AllPlacesLength(n, rows, c - 1);
      CurvePlacesLength(n, rows, c - 1, |rows|);
      AllRows(rows);
    }
  }

  /** `build_tables`: row after row of curve after curve, from one running offset. */
  method BuildTables(n: nat, power: seq<Place>, rows: seq<Row>) returns (tables: array<Place>)
    requires OrderOk(n) && RowsFit(n, rows)
    ensures tables[..] == power + AllPlaces(n, rows, 4)
  {
    var total := Total(power, rows);
    tables := new Place[total](x => Zeros);
    CopyPower(power, tables);
    var at := |power|;
    for curve := 0 to 4
      invariant at == |power| + Stride(rows, curve) <= total
      invariant tables[..at] == power + AllPlaces(n, rows, curve)
      invariant forall x :: at <= x < total ==> tables[x] == Zeros
    {
      at := BuildCurve(n, power, rows, curve, tables, at);
    }
    assert tables[..at] == tables[..];
  }

  method CopyPower(power: seq<Place>, tables: array<Place>)
    requires |power| <= tables.Length
    modifies tables
    ensures tables[..] == power + old(tables[|power|..])
  {
    for i := 0 to |power|
      invariant forall x :: 0 <= x < i ==> tables[x] == power[x]
      invariant forall x :: i <= x < tables.Length ==> tables[x] == old(tables[x])
    {
      tables[i] := power[i];
    }
  }

  method BuildCurve(n: nat, ghost power: seq<Place>, rows: seq<Row>, curve: nat, tables: array<Place>, start: nat) returns (at: nat)
    requires OrderOk(n) && RowsFit(n, rows) && curve < 4
    requires tables.Length == |power| + Stride(rows, 4) && start == |power| + Stride(rows, curve) <= tables.Length
    requires tables[..start] == power + AllPlaces(n, rows, curve)
    requires forall x :: start <= x < tables.Length ==> tables[x] == Zeros
    modifies tables
    ensures at == |power| + Stride(rows, curve + 1) <= tables.Length
    ensures tables[..at] == power + AllPlaces(n, rows, curve + 1)
    ensures forall x :: at <= x < tables.Length ==> tables[x] == Zeros
  {
    at := start;
    ghost var front := power + AllPlaces(n, rows, curve);
    for i := 0 to |rows|
      invariant at == start + Before(rows, i) <= tables.Length
      invariant tables[..at] == front + CurvePlaces(n, rows[..i], curve)
      invariant forall x :: at <= x < tables.Length ==> tables[x] == Zeros
    {
      SliceFits(rows, curve, i);
      CurveSnoc(n, rows, curve, i);
      Assoc(front, CurvePlaces(n, rows[..i], curve), RowPlaces(n, rows[i], curve));
      at := AppendRow(n, rows[i], curve, tables, at);
    }
    AllRows(rows);
  }

  method AppendRow(n: nat, row: Row, curve: nat, tables: array<Place>, at: nat) returns (next: nat)
    requires OrderOk(n) && row.pos <= 255 && row.points <= row.places && at + row.places <= tables.Length
    requires forall x :: at <= x < tables.Length ==> tables[x] == Zeros
    modifies tables
    ensures next == at + row.places && tables[..next] == old(tables[..at]) + RowPlaces(n, row, curve)
    ensures forall x :: next <= x < tables.Length ==> tables[x] == Zeros
  {
    var base := RowBase(n, row.pos);
    BuildRow(n, row, base, row.points, curve, tables, at);
    next := at + row.places;
    forall x | next <= x < tables.Length ensures tables[x] == Zeros {
      assert tables[..][x] == old(tables[next..])[x - next];
    }
  }

  method RowBase(n: nat, pos: nat) returns (base: nat)
    requires OrderOk(n) && pos <= 255
    ensures base == Entry(n, pos, 1)
  {
    Pow2Le(1, 255);
    GpuPointIsEntry(n, pos, 1);
    base := GpuPoint(n, pos, 1).value;
  }

  method Total(power: seq<Place>, rows: seq<Row>) returns (total: nat)
    ensures total == |power| + Stride(rows, 4)
  {
    var places := 0;
    for i := 0 to |rows|
      invariant places == Before(rows, i)
    {
      places := places + rows[i].places;
    }
    StrideIs(rows, 4);
    total := |power| + 4 * places;
  }

  lemma {:induction false} StrideIs(rows: seq<Row>, c: nat)
    ensures Stride(rows, c) == c * Before(rows, |rows|)
  {
    if c > 0 {
      StrideIs(rows, c - 1);
      MulDist(c - 1, 1, Before(rows, |rows|));
    }
  }

  /**
   Where `check_tables` looks for point b of row i of a curve, past the power
   tables: the curve's stride, the rows before it, b - 1 places. It is
   b * 2^pos * P there, never the identity, and what `bc3hash_gpu_point` gives.
   */
  lemma EntryAt(n: nat, rows: seq<Row>, curves: nat, curve: nat, i: nat, b: nat, at: nat)
    requires OrderOk(n) && RowsFit(n, rows) && curve < curves && i < |rows| && 1 <= b <= rows[i].points
    requires at == curve * Before(rows, |rows|) + Before(rows, i) + (b - 1)
    ensures
      && at < |AllPlaces(n, rows, curves)|
      && AllPlaces(n, rows, curves)[at] == Point(curve, Entry(n, rows[i].pos, b))
      && Entry(n, rows[i].pos, b) != 0 && GpuPoint(n, rows[i].pos, b) == Some(Entry(n, rows[i].pos, b))
  {
    StrideIs(rows, curve);
    EntryIsAPoint(n, rows[i].pos, b);
    GpuPointIsEntry(n, rows[i].pos, b);
    PlaceAtStride(n, rows, curves, curve, i, b - 1, Before(rows, i) + (b - 1), at);
    RowPrefixAt(n, rows[i], curve, rows[i].places, b - 1);
  }

  lemma PlaceAtStride(n: nat, rows: seq<Row>, curves: nat, curve: nat, i: nat, k: nat, x: nat, at: nat)
    requires n >= 1 && curve < curves && i < |rows| && k < rows[i].places
    requires x == Before(rows, i) + k && at == Stride(rows, curve) + x
    ensures at < |AllPlaces(n, rows, curves)| && AllPlaces(n, rows, curves)[at] == RowPlaces(n, rows[i], curve)[k]
  {
    PlaceInWhole(n, rows, curve, i, k, x);
    PlaceInLast(n, rows, curve, x, at);
    LaterCurves(n, rows, curve + 1, curves, at);
  }

  lemma PlaceInWhole(n: nat, rows: seq<Row>, curve: nat, i: nat, k: nat, x: nat)
    requires n >= 1 && i < |rows| && k < rows[i].places && x == Before(rows, i) + k
    ensures x < |CurvePlaces(n, rows, curve)| && CurvePlaces(n, rows, curve)[x] == RowPlaces(n, rows[i], curve)[k]
  {
    AllRows(rows);
    PlaceInCurve(n, rows, |rows|, curve, i, k);
  }

  lemma {:induction false} LaterCurves(n: nat, rows: seq<Row>, c: nat, d: nat, x: nat)
    requires n >= 1 && c <= d && x < |AllPlaces(n, rows, c)|
    ensures x < |AllPlaces(n, rows, d)| && AllPlaces(n, rows, d)[x] == AllPlaces(n, rows, c)[x]
  {
    if c < d { LaterCurves(n, rows, c, d - 1, x); }
  }

  lemma PlaceInLast(n: nat, rows: seq<Row>, curve: nat, x: nat, at: nat)
    requires n >= 1 && x < |CurvePlaces(n, rows, curve)| && at == Stride(rows, curve) + x
    ensures at < |AllPlaces(n, rows, curve + 1)| && AllPlaces(n, rows, curve + 1)[at] == CurvePlaces(n, rows, curve)[x]
  {
    AllPlacesLength(n, rows, curve);
    InSecond(AllPlaces(n, rows, curve), CurvePlaces(n, rows, curve), x);
  }

  lemma InSecond(a: seq<Place>, b: seq<Place>, x: nat)
    requires x < |b|
    ensures (a + b)[|a| + x] == b[x]
  {
  }

  lemma {:induction false} PlaceInCurve(n: nat, rows: seq<Row>, m: nat, curve: nat, i: nat, k: nat)
    requires n >= 1 && i < m <= |rows| && k < rows[i].places
    ensures var at := Before(rows, i) + k;
      at < |CurvePlaces(n, rows[..m], curve)| && CurvePlaces(n, rows[..m], curve)[at] == RowPlaces(n, rows[i], curve)[k]
  {
    CurveSnoc(n, rows, curve, m - 1);
    CurvePlacesLength(n, rows, curve, m - 1);
    if i < m - 1 { PlaceInCurve(n, rows, m - 1, curve, i, k); }
  }

  // ----- All alike -----

  /** The uniform windows' rows as shim.cpp counts them are the layout's: every builder fills the same table. */
  lemma BuildersAgree(w: nat)
    requires 2 <= w <= 20
    ensures Rows(w) == Some(UniformRowsTo(w, RowCount(w)))
  {
    LastRowShort(w);
    forall i | 0 <= i < RowCount(w) ensures |Rows(w).value| == RowCount(w) && Rows(w).value[i] == UniformRow(w, i) {
      LayoutRow(w, i);
    }
    LayoutRow(w, 0);
    assert Rows(w).value == UniformRowsTo(w, RowCount(w));
  }

  /** One place per row, its digit's, none for a digit 0: their sum. */
  function LookedUp(n: nat, rows: seq<Row>, ds: seq<nat>): nat
    requires n >= 1 && |ds| == |rows|
  {
    if rows == [] then 0
    else (if ds[0] == 0 then 0 else Entry(n, rows[0].pos, ds[0])) + LookedUp(n, rows[1..], ds[1..])
  }

  /** The points looked up for a scalar's digits add up to the scalar times P. */
  lemma {:induction false} LookUpMultiplies(n: nat, rows: seq<Row>, ds: seq<nat>)
    requires n >= 1 && |ds| == |rows|
    ensures Mod(LookedUp(n, rows, ds), n) == Mod(ScalarOf(rows, ds), n)
  {
    if rows != [] {
      var a, b := ds[0] * Pow2(rows[0].pos), ScalarOf(rows[1..], ds[1..]);
      var x, y := (if ds[0] == 0 then 0 else Mod(a, n)), LookedUp(n, rows[1..], ds[1..]);
      LookUpMultiplies(n, rows[1..], ds[1..]);
      EntryIs(n, rows[0].pos, ds[0]);
      ModIs(0, n, 0, 0);
      if ds[0] == 0 { assert a == 0 * Pow2(rows[0].pos) == 0; }
      SameModSum(x, a, y, b, n);
    }
  }

  lemma SameModSum(x: nat, a: nat, y: nat, b: nat, n: nat)
    requires n >= 1 && x == Mod(a, n) && Mod(y, n) == Mod(b, n)
    ensures Mod(x + y, n) == Mod(a + b, n)
  {
    ModIs(x, n, 0, x);
    ModSum(x, y, n);
    ModSum(a, b, n);
  }

  /** Every 256-bit scalar times P is a sum of table points, one per row at most, at every window there is a kernel for. */
  lemma TablesSuffice(n: nat, window: nat, v: nat) returns (ds: seq<nat>)
    requires n >= 1 && Rows(window).Some? && v < Pow2(256)
    ensures DigitsFor(Rows(window).value, ds)
    ensures Mod(LookedUp(n, Rows(window).value, ds), n) == Mod(v, n)
  {
    ScalarsCutOnce(window, v);
    var rows := Rows(window).value;
    ds :| DigitsFor(rows, ds) && ScalarOf(rows, ds) == v;
    LookUpMultiplies(n, rows, ds);
  }
}
