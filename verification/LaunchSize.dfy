/**
 How many nonces a launch takes: the hit budget of src/backend/mod.rs, which
 bounds a launch by the hits it may report, and the autotuned batch of
 src/gpu_worker.rs, in whole waves of the card.
 */
module LaunchSize {
  import opened Machine

  const MAX_HITS: nat := 64
  const RECOVER_AFTER: nat := 64
  const BC3_MIN_BATCH: u32 := 0x100
  const BC3_START_BATCH: u32 := 0x100
  const BC3_MAX_BATCH: u32 := 0x100_0000

  // ----- The hit budget -----

  datatype Budget = Budget(limit: Option<u32>, cleanRuns: nat, logged: bool)

  const NO_BUDGET := Budget(None, 0, false)

  /** `HitBudget::chunk`. */
  function Chunk(b: Budget, remaining: u32): u32
  {
    match b.limit
    case Some(limit) => Min(limit, remaining)
    case None => remaining
  }

  predicate Overflow(reported: nat) { reported > MAX_HITS }
  predicate Headroom(reported: nat) { reported * 4 <= MAX_HITS }

  /** What a launch of `chunk` nonces with so many hits makes of the budget. */
  function Record(b: Budget, chunk: u32, reported: nat): Budget
  {
    if Overflow(reported) then
      Budget(Some(Max((Chunk(b, chunk) + 1) / 2, 1)), 0, true)
    else if b.limit.None? then b
    else if !Headroom(reported) then b.(cleanRuns := 0)
    else if b.cleanRuns + 1 < RECOVER_AFTER then b.(cleanRuns := b.cleanRuns + 1)
    else b.(cleanRuns := 0, limit := if 2 * b.limit.value < U32 then Some(2 * b.limit.value) else None)
  }

  class HitBudget {
    var limit: Option<u32>
    var cleanRuns: nat
    var logged: bool

    constructor ()
      ensures Value() == NO_BUDGET
    {
      limit, cleanRuns, logged := None, 0, false;
    }

    function Value(): Budget
      reads this
    {
      Budget(limit, cleanRuns, logged)
    }

    /** `HitBudget::overflowed`; `said` for the message of the first overflow. */
    method Overflowed(chunk: u32, reported: nat) returns (said: bool)
      modifies this
      ensures Value() == Record(old(Value()), chunk, reported)
      ensures said <==> Overflow(reported) && !old(logged)
    {
      said := false;
      if reported <= MAX_HITS {
        if limit.Some? {
          if reported * 4 <= MAX_HITS {
            cleanRuns := cleanRuns + 1;
            if cleanRuns >= RECOVER_AFTER {
              cleanRuns := 0;
              limit := if 2 * limit.value < U32 then Some(2 * limit.value) else None;
            }
          } else {
            cleanRuns := 0;
          }
        }
        return;
      }
      cleanRuns := 0;
      limit := Some(Max((Chunk(Value(), chunk) + 1) / 2, 1));
      said := !logged;
      logged := true;
    }
  }

  datatype Launched = Launched(chunk: u32, reported: nat)

  function RecordAll(run: seq<Launched>): Budget
  {
    if run == [] then NO_BUDGET
    else var l := run[|run| - 1]; Record(RecordAll(run[..|run| - 1]), l.chunk, l.reported)
  }

  ghost predicate SomeOverflow(run: seq<Launched>)
  {
    exists i :: 0 <= i < |run| && Overflow(run[i].reported)
  }

  /** The message is said once: it is known whether a launch has overflowed yet. */
  lemma {:induction false} SaidOnce(run: seq<Launched>)
    ensures RecordAll(run).logged <==> SomeOverflow(run)
  {
    if run != [] {
      var was := run[..|run| - 1];
      SaidOnce(was);
      if SomeOverflow(was) {
        var i :| 0 <= i < |was| && Overflow(was[i].reported);
        assert run[i] == was[i];
      }
      if SomeOverflow(run) && !Overflow(run[|run| - 1].reported) {
        var i :| 0 <= i < |run| && Overflow(run[i].reported);
        assert was[i] == run[i];
      }
    }
  }

  /** The limit never reaches 0, and the clean runs it counts were just now, in a row, with headroom. */
  lemma {:induction false} BudgetInvariant(run: seq<Launched>)
    ensures var b := RecordAll(run);
      && (if b.limit.Some? then b.limit.value >= 1 else b.cleanRuns == 0)
      && b.cleanRuns < RECOVER_AFTER && b.cleanRuns <= |run|
      && forall i :: |run| - b.cleanRuns <= i < |run| ==> Headroom(run[i].reported)
  {
    if run != [] {
      var m := |run| - 1;
      BudgetInvariant(run[..m]);
      forall i | |run| - RecordAll(run).cleanRuns <= i < m
        ensures Headroom(run[i].reported)
      {
        assert run[i] == run[..m][i];
      }
    }
  }

  /** The limit rises only after 64 launches in a row with headroom - by doubling, or away altogether. */
  lemma RisesOnlyAfter64(run: seq<Launched>, next: Launched)
    requires RecordAll(run).limit.Some?
    requires var l := RecordAll(run + [next]).limit; l.None? || l.value > RecordAll(run).limit.value
    ensures |run| + 1 >= RECOVER_AFTER
    ensures forall i :: |run| + 1 - RECOVER_AFTER <= i < |run| ==> Headroom(run[i].reported)
    ensures Headroom(next.reported)
    ensures RecordAll(run + [next]).limit == if 2 * RecordAll(run).limit.value < U32
                                             then Some(2 * RecordAll(run).limit.value) else None
  {
    assert (run + [next])[..|run|] == run;
    BudgetInvariant(run);
  }

  predicate AllHeadroom(run: seq<Launched>)
  {
    forall i :: 0 <= i < |run| ==> Headroom(run[i].reported)
  }

  lemma {:induction false} CleanRunsAdd(run: seq<Launched>, more: seq<Launched>)
    requires RecordAll(run).limit.Some? && AllHeadroom(more) && RecordAll(run).cleanRuns + |more| < RECOVER_AFTER
    ensures RecordAll(run + more) == RecordAll(run).(cleanRuns := RecordAll(run).cleanRuns + |more|)
  {
    if more == [] {
      assert run + more == run;
    } else {
      var m := |more| - 1;
      assert (run + more)[..|run + more| - 1] == run + more[..m];
      CleanRunsAdd(run, more[..m]);
    }
  }

  /** And it does rise: within any 64 launches in a row with headroom it doubles, or goes away altogether. */
  lemma RisesWithin64(run: seq<Launched>, more: seq<Launched>) returns (k: nat)
    requires RecordAll(run).limit.Some? && AllHeadroom(more) && |more| == RECOVER_AFTER
    ensures 1 <= k <= |more|
    ensures RecordAll(run + more[..k]).limit == if 2 * RecordAll(run).limit.value < U32
                                                then Some(2 * RecordAll(run).limit.value) else None
  {
    BudgetInvariant(run);
    k := RECOVER_AFTER - RecordAll(run).cleanRuns;
    var almost := more[..k - 1];
    CleanRunsAdd(run, almost);
    assert (run + more[..k])[..|run| + k - 1] == run + almost;
    assert (run + more[..k])[|run| + k - 1] == more[k - 1];
  }

  /** c halved k times, rounding up. */
  function Halved(c: nat, k: nat): nat
  {
    if k == 0 then c else (Halved(c, k - 1) + 1) / 2
  }

  /** Rounding up at every halving rounds up once: Halved(c, k) is c / 2^k, rounded up. */
  lemma {:induction false} HalvedIsCeiling(c: nat, k: nat)
    requires c >= 1
    ensures Halved(c, k) >= 1 && (Halved(c, k) - 1) * Pow2(k) < c <= Halved(c, k) * Pow2(k)
  {
    if k != 0 {
      HalvedIsCeiling(c, k - 1);
      HalvingInNumbers(c, Halved(c, k - 1), Halved(c, k), Pow2(k - 1), Pow2(k));
    }
  }

  lemma HalvingInNumbers(c: int, h: int, half: int, p: int, twice: int)
    requires p >= 0 && half == (h + 1) / 2 && twice == 2 * p && (h - 1) * p < c <= h * p
    ensures (half - 1) * twice < c <= half * twice
  {
    MulLe(h, half * 2, p);
    MulAssoc(half, 2, p);
    MulLe((half - 1) * 2, h - 1, p);
    MulAssoc(half - 1, 2, p);
  }

  ghost function Overflows(b: Budget, chunks: seq<u32>): Budget
  {
    if chunks == [] then b
    else Record(Overflows(b, chunks[..|chunks| - 1]), chunks[|chunks| - 1], MAX_HITS + 1)
  }

  /**
   Launches that keep overflowing shrink geometrically: k in a row, the first
   over c nonces, leave a limit of at most c / 2^k rounded up - whatever the
   sizes of the launches queued before the limit came down - and exactly that,
   or of the limit there was before, if none of them was smaller than the first.
   */
  lemma {:induction false} OverflowsShrink(b: Budget, chunks: seq<u32>)
    requires chunks != [] && chunks[0] >= 1
    ensures var b' := Overflows(b, chunks);
      && b'.limit.Some? && 1 <= b'.limit.value <= Max(1, Halved(chunks[0], |chunks|))
      && ((forall i :: 0 <= i < |chunks| ==> chunks[i] >= chunks[0]) ==>
            b'.limit.value == Max(1, Halved(Chunk(b, chunks[0]), |chunks|)))
  {
    var i := |chunks| - 1;
    if i == 0 {
      assert chunks[..0] == [] && Overflows(b, []) == b;
      HalvedOnce(chunks[0]);
      HalvedOnce(Chunk(b, chunks[0]));
    } else {
      OverflowsShrink(b, chunks[..i]);
      assert Halved(chunks[0], i + 1) == (Halved(chunks[0], i) + 1) / 2;
      HalvedLess(chunks[0], i);
      if forall j :: 0 <= j < |chunks| ==> chunks[j] >= chunks[0] {
        assert forall j :: 0 <= j < i ==> chunks[..i][j] >= chunks[0];
        assert chunks[i] >= chunks[0];
      }
    }
  }

  lemma HalvedOnce(c: nat)
    ensures Halved(c, 1) == (c + 1) / 2
  {
    assert Halved(c, 0) == c;
  }

  lemma {:induction false} HalvedLess(c: nat, k: nat)
    requires c >= 1
    ensures 1 <= Halved(c, k) <= c
  {
    if k > 0 { HalvedLess(c, k - 1); }
  }

  // ----- The batch -----

  function MinBatch(granule: nat): nat
    requires granule >= 1
  {
    Max(BC3_MIN_BATCH, granule) / granule * granule
  }

  function MaxBatch(granule: nat): nat
    requires granule >= 1
  {
    Max(BC3_MAX_BATCH, MinBatch(granule))
  }

  /** Whole waves of the card, at least one. */
  function WholeWaves(x: nat, granule: nat): nat
    requires granule >= 1
  {
    Max(x / granule, 1) * granule
  }

  function Clamp(x: nat, lo: nat, hi: nat): nat { if x < lo then lo else if x > hi then hi else x }

  /** The batch a job starts with, from the one the last job - at another granule - left. */
  function StartBatch(batch: nat, granule: nat): nat
    requires granule >= 1
  {
    WholeWaves(Clamp(batch, MinBatch(granule), MaxBatch(granule)), granule)
  }

  /** `autotune`, times in nanoseconds. */
  function Autotune(batch: nat, took: nat, target: nat, granule: nat, min: nat, max: nat): nat
    requires granule >= 1
  {
    var next :=
      if took < target / 2 && batch < max then Min(Min(2 * batch, U32 - 1), max)
      else if took > target * 5 / 2 && batch > min then Max(batch / 2, min)
      else batch;
    Clamp(WholeWaves(next, granule), Min(min, max), max)
  }

  /** The largest multiple of g up to x, found by counting down. */
  ghost function Multiple(x: nat, g: nat): nat
    requires g >= 1
  {
    if x < g then 0 else g + Multiple(x - g, g)
  }

  lemma {:induction false} MultipleIs(x: nat, g: nat)
    requires g >= 1
    ensures Multiple(x, g) == x / g * g
    decreases x
  {
    if x < g {
      DivIs(x, g, 0, x);
    } else {
      MultipleIs(x - g, g);
      DivMod(x - g, g);
      MulDist((x - g) / g, 1, g);
      DivIs(x, g, (x - g) / g + 1, (x - g) % g);
    }
  }

  /** Whole waves of the card, within the job's bounds. */
  ghost predicate BatchOk(batch: nat, granule: nat)
    requires granule >= 1
  {
    var min := Multiple(Max(BC3_MIN_BATCH, granule), granule);
    Multiple(batch, granule) == batch && min <= batch <= Max(BC3_MAX_BATCH, min)
  }

  lemma BatchOkIs(batch: nat, granule: nat)
    requires granule >= 1
    ensures BatchOk(batch, granule) <==> batch % granule == 0 && MinBatch(granule) <= batch <= MaxBatch(granule)
  {
    MultipleIs(batch, granule);
    MultipleIs(Max(BC3_MIN_BATCH, granule), granule);
    DivMod(batch, granule);
  }

  lemma WavesBetween(x: nat, granule: nat)
    requires granule >= 1 && x >= MinBatch(granule)
    ensures WholeWaves(x, granule) % granule == 0
    ensures MinBatch(granule) <= WholeWaves(x, granule) <= x
  {
    var m, a, q := Max(BC3_MIN_BATCH, granule), Max(BC3_MIN_BATCH, granule) / granule, x / granule;
    DivMod(m, granule);
    DivMod(x, granule);
    if a < 1 {
      MulLe(a, 0, granule);
    }
    if q < a {
      MulLe(q + 1, a, granule);
      MulDist(q, 1, granule);
    }
    MulLe(a, q, granule);
    DivIs(q * granule, granule, q, 0);
  }

  /** Whole waves up to x are the most of them not above it. */
  lemma {:induction false} MostWaves(x: nat, y: nat, g: nat)
    requires g >= 1 && Multiple(y, g) == y && y <= x
    ensures y <= Multiple(x, g) <= x
    decreases x
  {
    if y < g { BelowX(x, g); } else { MostWaves(x - g, y - g, g); }
  }

  lemma {:induction false} BelowX(x: nat, g: nat)
    requires g >= 1
    ensures Multiple(x, g) <= x
    decreases x
  {
    if x >= g { BelowX(x - g, g); }
  }

  /**
   A job starts with the most whole waves within its bounds that are no more
   than the batch left to it, whatever granule that came from - or the fewest
   there are, if all are more.
   */
  lemma StartBatchOk(batch: nat, granule: u32)
    requires granule >= 1
    ensures var first := StartBatch(batch, granule);
      && BatchOk(first, granule) && (first <= batch || first == MinBatch(granule))
      && forall b: nat :: BatchOk(b, granule) && b <= batch ==> b <= first
  {
    var x := Clamp(batch, MinBatch(granule), MaxBatch(granule));
    InWaves(x, granule);
    BatchOkIs(StartBatch(batch, granule), granule);
    forall b: nat | BatchOk(b, granule) && b <= batch ensures b <= StartBatch(batch, granule) {
      BatchOkIs(b, granule);
      MostWaves(x, b, granule);
    }
  }

  /**
   And every launch leaves it so, and tunes it the right way: twice the batch
   after a launch that took less than half the target, half of it after one
   over two and a half times, in whole waves within the bounds; else the same.
   */
  lemma AutotuneOk(batch: nat, took: nat, target: nat, granule: u32)
    requires granule >= 1 && BatchOk(batch, granule)
    ensures var min, max := MinBatch(granule), MaxBatch(granule);
      var next := Autotune(batch, took, target, granule, min, max);
      && BatchOk(next, granule)
      && next == if took < target / 2 && batch < max then Multiple(Min(2 * batch, max), granule)
                 else if took > target * 5 / 2 && batch > min then Multiple(Max(batch / 2, min), granule)
                 else batch
  {
    var min, max := MinBatch(granule), MaxBatch(granule);
    MinBatchFits(granule);
    BatchOkIs(batch, granule);
    BatchOkIs(Autotune(batch, took, target, granule, min, max), granule);
    InWaves(batch, granule);
    InWaves(Min(2 * batch, max), granule);
    InWaves(Max(batch / 2, min), granule);
  }

  lemma InWaves(x: nat, granule: u32)
    requires granule >= 1 && MinBatch(granule) <= x
    ensures WholeWaves(x, granule) == Multiple(x, granule)
    ensures WholeWaves(x, granule) % granule == 0 && MinBatch(granule) <= WholeWaves(x, granule) <= x
  {
    WavesBetween(x, granule);
    MultipleIs(x, granule);
    MinBatchPositive(granule);
    DivMod(x, granule);
  }

  lemma MinBatchPositive(granule: nat)
    requires granule >= 1
    ensures MinBatch(granule) >= granule
  {
    var a := Max(BC3_MIN_BATCH, granule) / granule;
    DivMod(Max(BC3_MIN_BATCH, granule), granule);
    if a < 1 { MulLe(a, 0, granule); }
    MulLe(1, a, granule);
  }

  lemma MinBatchFits(granule: u32)
    requires granule >= 1
    ensures MinBatch(granule) <= Max(BC3_MIN_BATCH, granule) < U32
  {
    DivMod(Max(BC3_MIN_BATCH, granule), granule);
  }

  // ----- Where the tuning leads -----

  /** A card whose launches take `p / q` nanoseconds a nonce, and what it is tuned to. */
  datatype Card = Card(granule: u32, target: nat, p: nat, q: nat)

  predicate CardOk(c: Card)
  {
    c.granule >= 1 && c.q >= 1
  }

  function Took(c: Card, batch: nat): nat
    requires CardOk(c)
  {
    batch * c.p / c.q
  }

  /** The batch after one more launch. */
  function Again(c: Card, batch: nat): nat
    requires CardOk(c)
  {
    Autotune(batch, Took(c, batch), c.target, c.granule, MinBatch(c.granule), MaxBatch(c.granule))
  }

  /** And after k of them. */
  function Tuned(c: Card, batch: nat, k: nat): nat
    requires CardOk(c)
    decreases k
  {
    if k == 0 then batch else Tuned(c, Again(c, batch), k - 1)
  }

  /** The most whole waves within the bounds. */
  ghost function Top(c: Card): nat
    requires CardOk(c)
  {
    Multiple(MaxBatch(c.granule), c.granule)
  }

  predicate Slow(c: Card, batch: nat)
    requires CardOk(c)
  {
    Took(c, batch) > c.target * 5 / 2
  }

  predicate Fast(c: Card, batch: nat)
    requires CardOk(c)
  {
    Took(c, batch) < c.target / 2
  }

  /** The launch takes between half the target and two and a half times it, or as near to that as the bounds allow. */
  ghost predicate Settled(c: Card, batch: nat)
    requires CardOk(c)
  {
    && BatchOk(batch, c.granule)
    && (Fast(c, batch) ==> batch == Top(c)) && (Slow(c, batch) ==> batch == MinBatch(c.granule))
  }

  /** k times the nonces take at most k times as long, but for the rounding. */
  lemma Scales(c: Card, x: nat, y: nat, k: nat)
    requires CardOk(c) && k >= 1 && y <= k * x
    ensures Took(c, y) <= k * Took(c, x) + k - 1
  {
    DivMod(x * c.p, c.q);
    DivMod(y * c.p, c.q);
    MulLe(y, k * x, c.p);
    MulAssoc(k, x, c.p);
    ScalesInNumbers(x * c.p, y * c.p, k, c.q, Took(c, x), Took(c, y));
  }

  lemma ScalesInNumbers(x: nat, y: nat, k: nat, q: nat, t: nat, u: nat)
    requires k >= 1 && q >= 1 && y <= k * x && x < t * q + q && u * q <= y
    ensures u <= k * t + k - 1
  {
    var a := (t + 1) * q;
    MulDist(t, 1, q);
    MulAssoc(k, t + 1, q);
    MulLe(x + 1, a, k);
    MulDist(k, t, 1);
    if u >= k * (t + 1) { MulLe(k * (t + 1), u, q); }
  }

  lemma AgainIs(c: Card, batch: nat)
    requires CardOk(c) && BatchOk(batch, c.granule)
    ensures var min, max := MinBatch(c.granule), MaxBatch(c.granule);
      && BatchOk(Again(c, batch), c.granule)
      && Again(c, batch) == if Fast(c, batch) && batch < max then Multiple(Min(2 * batch, max), c.granule)
                            else if Slow(c, batch) && batch > min then Multiple(Max(batch / 2, min), c.granule)
                            else batch
  {
    AutotuneOk(batch, Took(c, batch), c.target, c.granule);
  }

  lemma {:induction false} TwiceWaves(x: nat, y: nat, g: nat)
    requires g >= 1 && Multiple(x, g) == x && Multiple(y, g) == y
    ensures Multiple(x + y, g) == x + y
    decreases y
  {
    if y >= g { TwiceWaves(x, y - g, g); }
  }

  lemma TopIs(c: Card, batch: nat)
    requires CardOk(c) && BatchOk(batch, c.granule)
    ensures MinBatch(c.granule) <= batch <= Top(c) <= MaxBatch(c.granule)
  {
    BatchOkIs(batch, c.granule);
    MostWaves(MaxBatch(c.granule), batch, c.granule);
  }

  /** A fast launch is followed by one twice as large, or as large as may be, and never by a slow one. */
  lemma Faster(c: Card, batch: nat)
    requires CardOk(c) && BatchOk(batch, c.granule) && Fast(c, batch)
    ensures BatchOk(Again(c, batch), c.granule) && Again(c, batch) == Min(2 * batch, Top(c)) && !Slow(c, Again(c, batch))
  {
    var max := MaxBatch(c.granule);
    AgainIs(c, batch);
    TopIs(c, batch);
    if batch < max && 2 * batch <= max {
      TwiceWaves(batch, batch, c.granule);
      MostWaves(max, 2 * batch, c.granule);
    }
    Scales(c, batch, Again(c, batch), 2);
  }

  /** A slow one by one at most half as large, or as small as may be, and never by a fast one. */
  lemma Slower(c: Card, batch: nat)
    requires CardOk(c) && BatchOk(batch, c.granule) && Slow(c, batch) && batch > MinBatch(c.granule)
    ensures BatchOk(Again(c, batch), c.granule) && Again(c, batch) <= Max(batch / 2, MinBatch(c.granule)) && !Fast(c, Again(c, batch))
  {
    TopIs(c, batch);
    AgainIs(c, batch);
    BelowX(Max(batch / 2, MinBatch(c.granule)), c.granule);
    ThirdAtLeast(batch, Again(c, batch), c.granule);
    Scales(c, Again(c, batch), batch, 3);
  }

  lemma ThirdAtLeast(batch: nat, next: nat, granule: u32)
    requires granule >= 1 && BatchOk(batch, granule) && batch > MinBatch(granule)
    requires next == Multiple(Max(batch / 2, MinBatch(granule)), granule)
    ensures batch <= 3 * next
  {
    MinBatchPositive(granule);
    HalfWaves(batch, Max(batch / 2, MinBatch(granule)), granule);
  }

  /** Half of some whole waves, at least one, is at least a third of them in whole waves. */
  lemma {:induction false} HalfWaves(y: nat, x: nat, g: nat)
    requires g >= 1 && Multiple(y, g) == y && y / 2 <= x && g <= x
    ensures y <= 3 * Multiple(x, g)
    decreases y
  {
    if y < 3 * g {
      if y >= g { assert Multiple(y - g, g) == y - g; }
    } else if y < 4 * g {
      assert Multiple(y - g, g) == y - g && Multiple(y - 2 * g, g) == y - 2 * g && Multiple(y - 3 * g, g) == y - 3 * g;
    } else {
      assert Multiple(y - g, g) == y - g && Multiple(y - 2 * g, g) == y - 2 * g;
      HalfWaves(y - 2 * g, x - g, g);
    }
  }

  lemma SettledStays(c: Card, batch: nat)
    requires CardOk(c) && Settled(c, batch)
    ensures Again(c, batch) == batch
  {
    TopIs(c, batch);
    if Fast(c, batch) { Faster(c, batch); }
    AgainIs(c, batch);
  }

  ghost predicate SettlesWithin(c: Card, batch: nat, n: nat)
    requires CardOk(c)
  {
    exists k :: 0 <= k <= n && Settled(c, Tuned(c, batch, k))
  }

  lemma OneMore(c: Card, batch: nat, n: nat)
    requires CardOk(c) && n >= 1 && SettlesWithin(c, Again(c, batch), n - 1)
    ensures SettlesWithin(c, batch, n)
  {
    var k :| 0 <= k <= n - 1 && Settled(c, Tuned(c, Again(c, batch), k));
    assert Tuned(c, batch, k + 1) == Tuned(c, Again(c, batch), k);
  }

  /** x doubled n times. */
  function Doubled(x: nat, n: nat): nat
    decreases n
  {
    if n == 0 then x else Doubled(2 * x, n - 1)
  }

  lemma {:induction false} DoubledMore(x: nat, y: nat, n: nat)
    requires x <= y
    ensures x <= Doubled(x, n) <= Doubled(y, n)
    decreases n
  {
    if n > 0 { DoubledMore(2 * x, 2 * y, n - 1); }
  }

  lemma {:induction false} DoubledIs(x: nat, n: nat)
    ensures Doubled(x, n) == x * Pow2(n)
    decreases n
  {
    if n > 0 {
      DoubledIs(2 * x, n - 1);
      MulAssoc(x, 2, Pow2(n - 1));
    }
  }

  lemma {:induction false} DoubledTwice(x: nat, n: nat)
    ensures Doubled(2 * x, n) == 2 * Doubled(x, n)
    decreases n
  {
    if n > 0 { DoubledTwice(2 * x, n - 1); }
  }

  lemma {:induction false} Rises(c: Card, batch: nat, n: nat)
    requires CardOk(c) && BatchOk(batch, c.granule) && !Slow(c, batch) && Top(c) <= Doubled(batch, n)
    ensures SettlesWithin(c, batch, n)
    decreases n
  {
    TopIs(c, batch);
    if !Fast(c, batch) || n == 0 {
      assert Settled(c, Tuned(c, batch, 0));
    } else {
      Faster(c, batch);
      DoubledMore(Again(c, batch), 2 * batch, n - 1);
      Rises(c, Again(c, batch), n - 1);
      OneMore(c, batch, n);
    }
  }

  lemma {:induction false} Falls(c: Card, batch: nat, n: nat)
    requires CardOk(c) && BatchOk(batch, c.granule) && !Fast(c, batch) && batch <= Doubled(BC3_MIN_BATCH, n)
    ensures SettlesWithin(c, batch, n)
    decreases n
  {
    SmallestIs(c, batch);
    if !Slow(c, batch) || batch == MinBatch(c.granule) {
      assert Settled(c, Tuned(c, batch, 0));
    } else {
      Slower(c, batch);
      SmallestIs(c, Again(c, batch));
      if Again(c, batch) == MinBatch(c.granule) {
        assert Settled(c, Tuned(c, Again(c, batch), 0));
      } else {
        DoubledTwice(BC3_MIN_BATCH, n - 1);
        Falls(c, Again(c, batch), n - 1);
      }
      OneMore(c, batch, n);
    }
  }

  /** Nothing above the smallest batch is below 256 nonces. */
  lemma SmallestIs(c: Card, batch: nat)
    requires CardOk(c) && BatchOk(batch, c.granule)
    ensures MinBatch(c.granule) <= batch
    ensures batch <= BC3_MIN_BATCH ==> batch == MinBatch(c.granule)
  {
    BatchOkIs(batch, c.granule);
    MultipleIs(Max(BC3_MIN_BATCH, c.granule), c.granule);
    if batch <= BC3_MIN_BATCH { MostWaves(Max(BC3_MIN_BATCH, c.granule), batch, c.granule); }
  }

  /**
   The autotune settles: on a card whose launches take as long as they are
   large, within 17 launches of any batch the launch takes between half the
   target and two and a half times it - or the batch is the smallest there is
   and still too slow, or the largest and still too fast - and stays so.
   */
  lemma AutotuneSettles(c: Card, batch: nat)
    requires CardOk(c) && BatchOk(batch, c.granule)
    ensures exists k :: 0 <= k <= 17 && SettledFrom(c, batch, k)
  {
    SmallestIs(c, batch);
    TopIs(c, batch);
    if batch == MinBatch(c.granule) == Top(c) {
      assert Settled(c, Tuned(c, batch, 0));
    } else {
      SixteenTimes(c, batch);
      if Slow(c, batch) { Falls(c, batch, 17); } else { Rises(c, batch, 17); }
    }
    assert SettlesWithin(c, batch, 17);
    var k :| 0 <= k <= 17 && Settled(c, Tuned(c, batch, k));
    forall j | j >= k ensures Tuned(c, batch, j) == Tuned(c, batch, k) { Stays(c, batch, k, j); }
    assert SettledFrom(c, batch, k);
  }

  ghost predicate SettledFrom(c: Card, batch: nat, k: nat)
    requires CardOk(c)
  {
    Settled(c, Tuned(c, batch, k)) && forall j :: j >= k ==> Tuned(c, batch, j) == Tuned(c, batch, k)
  }

  lemma {:induction false} Stays(c: Card, batch: nat, k: nat, j: nat)
    requires CardOk(c) && j >= k && Settled(c, Tuned(c, batch, k))
    ensures Tuned(c, batch, j) == Tuned(c, batch, k)
    decreases j
  {
    if j > 0 {
      if k == 0 { SettledStays(c, batch); Stays(c, batch, 0, j - 1); } else { Stays(c, Again(c, batch), k - 1, j - 1); }
    }
  }

  lemma SixteenTimes(c: Card, batch: nat)
    requires CardOk(c) && BatchOk(batch, c.granule) && MinBatch(c.granule) < Top(c)
    ensures batch <= Doubled(BC3_MIN_BATCH, 17) && Top(c) <= Doubled(batch, 17)
  {
    TopIs(c, batch);
    MinBatchFits(c.granule);
    HalfOfMin(c.granule);
    Pow2Of17();
    DoubledIs(BC3_MIN_BATCH, 17);
    DoubledIs(batch, 17);
  }

  lemma Pow2Of17()
    ensures Pow2(17) == 0x2_0000
  {
    assert Pow2(8) == 0x100;
    assert Pow2(16) == 0x1_0000 by { Pow2Add(8, 8); }
  }

  /** The smallest batch is over 128 nonces. */
  lemma HalfOfMin(granule: u32)
    requires granule >= 1
    ensures MinBatch(granule) > BC3_MIN_BATCH / 2
  {
    MinBatchPositive(granule);
    DivMod(Max(BC3_MIN_BATCH, granule), granule);
  }
}
