/**
 One worker as a machine of steps (src/gpu_worker.rs: `mine_job`, `pump`,
 `top_up`, `device_error`, `finish`, the reopen loop of `run_gpu_worker`), and
 the invariant every run of it keeps. A CPU thread takes the same steps with
 launches of one nonce. The classes in GpuWorker.dfy and CpuWorker.dfy are
 shown to run this machine.
 */
module Scheduler {
  import opened Machine
  import opened SearchSpace

  const MAX_SCAN_ERRORS: nat := 5
  const MAX_REOPENS: nat := 5
  const QUEUE_DEPTH: nat := 2

  /** A launch that came back, with the space it was hashed in. */
  datatype Entry = Entry(space: Space, range: Range)

  /** Held: collected, not yet finished. Dropped: lost to `DeviceGone` before it was. */
  datatype Fate = Held | Finished | Dropped

  /** A submitted share: whose header it is. */
  datatype Found = Found(space: Space, en2: nat, nonce: nat)

  /** How a job ended, as `mine_job` returns it. */
  datatype JobEnd = Changed | Exhausted | DeviceGone

  /** What `mine_job` returned for a space; `late`: a launch had failed to come back after the end was decided. */
  datatype Report = Report(space: Space, end: JobEnd, late: bool)

  datatype State = State(
    space: Option<Space>,       // of the job last mined (`prev`), or being mined
    cursor: Cursor,
    inflight: seq<Range>,       // queued on the device, oldest first
    log: seq<Entry>,            // collected, oldest first
    fates: seq<Fate>,           // what became of each of them
    shares: seq<Found>,
    errors: nat,                // launches failed in a row
    failures: nat,              // launches failed, ever
    gone: bool,                 // the running job ended in `DeviceGone`
    gones: nat,                 // how often that happened, ever
    back: nat,                 // launches finished since the caller last looked (`collected`)
    reopens: nat,
    running: bool,              // inside `mine_job`
    alive: bool,                // false once the worker gave the device up
    lost: bool,                 // the device could not be reopened again
    decided: Option<JobEnd>,    // how the running job is to end (`ending`)
    late: bool,                 // a launch failed to come back after that
    reports: seq<Report>)       // of all jobs so far

  datatype Event =
    | Begin(space: Space)                 // `mine_job` starts
    | Queue(max: u32, ok: bool)           // `enqueue` succeeded or failed
    | Collect(ok: bool)                   // `collect` succeeded or failed
    | Finish(hits: seq<nat>)              // `finish`, submitting these nonces
    | Decide(end: JobEnd)                 // `top_up` stops queueing
    | End(reopened: bool)                   // `mine_job` returned; a gone device was, or was not, opened again

  function Init(w: u64): State
  {
    State(None, Cursor(w, 0), [], [], [], [], 0, 0, false, 0, 0, 0, false, true, false, None, false, [])
  }

  ghost predicate Increasing(hits: seq<nat>)
  {
    forall i, j :: 0 <= i < j < |hits| ==> hits[i] < hits[j]
  }

  /** Where nothing is lost: the front of the queue, or the cursor. */
  function Restart(s: State): Cursor
  {
    if s.inflight == [] then s.cursor else Cursor(s.inflight[0].en2, s.inflight[0].start)
  }

  /** `device_error`: the queue is emptied and the cursor put back. */
  function Fault(s: State, restart: Cursor): State
  {
    var e := s.errors + 1;
    var s' := s.(cursor := restart, inflight := [], failures := s.failures + 1, late := s.decided.Some?);
    if e >= MAX_SCAN_ERRORS then s'.(errors := 0, gone := true, gones := s.gones + 1)
    else s'.(errors := e)
  }

  function Founds(e: Entry, hits: seq<nat>): (fs: seq<Found>)
  {
    seq(|hits|, i requires 0 <= i < |hits| => Found(e.space, e.range.en2, hits[i]))
  }

  /** A space other than the last one starts over at the worker's own counter. */
  function Begun(w: u64, s: State, space: Space): State
  {
    var cursor := if s.space == Some(space) then s.cursor else Cursor(w, 0);
    s.(space := Some(space), cursor := cursor, gone := false, running := true, decided := None, late := false)
  }

  function Queued(n: u64, s: State, max: u32): State
  {
    var (c, r) := Take(s.cursor, max, n);
    s.(cursor := c, inflight := s.inflight + [r])
  }

  function Collected(s: State): State
  {
    if s.inflight == [] || s.space.None? then s
    else
      s.(inflight := s.inflight[1..], log := s.log + [Entry(s.space.value, s.inflight[0])],
         fates := s.fates + [Held], errors := 0)
  }

  function Submitted(s: State, hits: seq<nat>): State
  {
    if s.log == [] then s
    else Settle(s, Finished).(shares := s.shares + Founds(s.log[|s.log| - 1], hits), back := s.back + 1)
  }

  /** A launch still held is the one a failing second `top_up` drops. */
  function Ended(s: State, reopened: bool): State
  {
    var s' := if Holds(s) then Settle(s, Dropped) else s;
    var reopens := (if s.back > 0 then 0 else s.reopens) + if s.gone then 1 else 0;
    var lost := s.gone && reopens <= MAX_REOPENS && !reopened;
    s'.(back := 0, reopens := reopens, running := false, alive := s.alive && reopens <= MAX_REOPENS && !lost,
        lost := s.lost || lost, reports := s.reports + Reported(s))
  }

  function Step(w: u64, n: u64, s: State, e: Event): State
  {
    match e
    case Begin(space) => Begun(w, s, space)
    case Queue(max, ok) => if ok then Queued(n, s, max) else Fault(s, Restart(s))
    case Collect(ok) => if ok then Collected(s) else if s.inflight == [] then s else Fault(s, Restart(s))
    case Finish(hits) => Submitted(s, hits)
    case Decide(end) => s.(decided := Some(end))
    case End(reopened) => Ended(s, reopened)
  }

  function Reported(s: State): (r: seq<Report>)
  {
    if s.space.None? then []
    else if s.gone then [Report(s.space.value, DeviceGone, s.late)]
    else if s.decided.Some? then [Report(s.space.value, s.decided.value, s.late)]
    else []
  }

  predicate Holds(s: State)
  {
    s.fates != [] && s.fates[|s.fates| - 1] == Held
  }

  function Settle(s: State, f: Fate): State
  {
    if s.fates == [] then s else s.(fates := s.fates[|s.fates| - 1 := f])
  }

  /** The launches of one space, in the order they came back. */
  function Of(es: seq<Entry>, sp: Space): (rs: seq<Range>)
  {
    if es == [] then []
    else
      var e := es[|es| - 1];
      Of(es[..|es| - 1], sp) + if e.space == sp then [e.range] else []
  }

  /** How often the launches hash a nonce of a counter of a space. */
  function Hits(es: seq<Entry>, sp: Space, e: nat, nonce: nat): (t: nat)
  {
    Times(Of(es, sp), e, nonce)
  }

  ghost predicate InRange(r: Range, hits: seq<nat>)
  {
    forall i :: 0 <= i < |hits| ==> Covers(r, r.en2, hits[i])
  }

  /**
   What the code and its surroundings allow in a state. A failing device call
   is always possible; a space once left does not return (see ReturningRepeats).
   */
  ghost predicate Legal(s: State, e: Event)
  {
    match e
    case Begin(sp) =>
      && !s.running && s.alive && sp.extranonce2Size <= 7
      && (s.space == Some(sp) || Of(s.log, sp) == [])
    case Queue(_, _) =>
      && s.running && !s.gone && s.decided.None? && s.space.Some? && |s.inflight| < QUEUE_DEPTH
      && Fits(s.cursor.en2, s.space.value.extranonce2Size)
    case Collect(_) => s.running && !s.gone && !Holds(s) && s.inflight != []
    case Finish(hits) =>
      && s.running && !s.gone && Holds(s) && s.log != []
      && Increasing(hits) && InRange(s.log[|s.log| - 1].range, hits)
    case Decide(end) =>
      && s.running && !s.gone && s.decided.None? && s.space.Some? && end != DeviceGone
      && (end == Exhausted ==> !Fits(s.cursor.en2, s.space.value.extranonce2Size))
    case End(_) => s.running && (s.gone || (s.inflight == [] && !Holds(s) && s.decided.Some?))
  }

  ghost predicate LegalRun(w: u64, n: u64, run: seq<Event>)
  {
    run == [] ||
    (var i := |run| - 1; LegalRun(w, n, run[..i]) && Legal(Replay(w, n, run[..i]), run[i]))
  }

  ghost function Replay(w: u64, n: u64, run: seq<Event>): State
  {
    if run == [] then Init(w) else Step(w, n, Replay(w, n, run[..|run| - 1]), run[|run| - 1])
  }

  // ----- The invariant -----

  /** Everything collected, then everything in flight, tiles the space up to the cursor. */
  ghost predicate Tiled(w: u64, n: u64, s: State)
  {
    match s.space
    case None => s.log == [] && s.inflight == [] && s.cursor == Cursor(w, 0)
    case Some(sp) =>
      && Tiles(w, n, Of(s.log, sp) + s.inflight)
      && At(w, n, Total(Of(s.log, sp) + s.inflight), s.cursor)
  }

  /** Spaces left behind stay tiled from their start. */
  ghost predicate LeftTiled(w: u64, n: u64, s: State)
  {
    forall sp :: Tiles(w, n, Of(s.log, sp))
  }

  ghost predicate AllFit(s: State)
  {
    && (s.space.Some? ==> s.space.value.extranonce2Size <= 7)
    && (forall i :: 0 <= i < |s.log| ==>
          s.log[i].space.extranonce2Size <= 7 && s.log[i].range.en2 < Pow256(s.log[i].space.extranonce2Size))
    && (forall i :: 0 <= i < |s.inflight| ==>
          s.space.Some? && s.inflight[i].en2 < Pow256(s.space.value.extranonce2Size))
  }

  /** A share was found in a launch that was finished. */
  ghost predicate FoundIn(s: State, f: Found, i: int)
  {
    && 0 <= i < |s.log| && i < |s.fates| && s.fates[i] == Finished
    && s.log[i].space == f.space && Covers(s.log[i].range, f.en2, f.nonce)
  }

  ghost predicate SharesUnique(s: State)
  {
    && (forall i, j :: 0 <= i < j < |s.shares| ==> s.shares[i] != s.shares[j])
    && (forall f :: f in s.shares ==> exists i :: FoundIn(s, f, i))
  }

  function Drops(fates: seq<Fate>): (n: nat)
  {
    if fates == [] then 0
    else Drops(fates[..|fates| - 1]) + if fates[|fates| - 1] == Dropped then 1 else 0
  }

  /** Every launch that came back is finished - but for the one in hand, and one per `DeviceGone`. */
  ghost predicate Counted(s: State)
  {
    && |s.inflight| <= QUEUE_DEPTH && s.errors < MAX_SCAN_ERRORS
    && (s.gone ==> s.inflight == []) && (!s.running ==> s.inflight == [] && !Holds(s))
    && |s.fates| == |s.log|
    && (forall i :: 0 <= i < |s.fates| - 1 ==> s.fates[i] != Held)
    && Drops(s.fates) + (if s.running && s.gone then 1 else 0) <= s.gones
  }

  ghost predicate Inv(w: u64, n: u64, s: State)
  {
    Tiled(w, n, s) && LeftTiled(w, n, s) && AllFit(s) && SharesUnique(s) && Counted(s)
  }

  lemma OfSnoc(es: seq<Entry>, e: Entry, sp: Space)
    ensures Of(es + [e], sp) == Of(es, sp) + if e.space == sp then [e.range] else []
  {
    assert (es + [e])[..|es|] == es;
  }

  lemma HitsSnoc(es: seq<Entry>, e: Entry, sp: Space, en2: nat, nonce: nat)
    ensures Hits(es + [e], sp, en2, nonce) ==
            Hits(es, sp, en2, nonce) + if e.space == sp && Covers(e.range, en2, nonce) then 1 else 0
  {
    OfSnoc(es, e, sp);
    var rs := Of(es, sp);
    if e.space == sp {
      assert (rs + [e.range])[..|rs|] == rs;
    } else {
      assert rs + [] == rs;
    }
  }

  /** Two launches of a log that hash the same nonce make it hashed twice. */
  lemma {:induction false} HitTwice(es: seq<Entry>, i: nat, j: nat, sp: Space, e: nat, nonce: nat)
    requires i < j < |es| && es[i].space == es[j].space == sp
    requires Covers(es[i].range, e, nonce) && Covers(es[j].range, e, nonce)
    ensures Hits(es, sp, e, nonce) >= 2
  {
    var m := |es| - 1;
    assert es[..m] + [es[m]] == es;
    HitsSnoc(es[..m], es[m], sp, e, nonce);
    if j < m {
      HitTwice(es[..m], i, j, sp, e, nonce);
    } else {
      HitOnce(es[..m], i, sp, e, nonce);
    }
  }

  lemma {:induction false} HitOnce(es: seq<Entry>, i: nat, sp: Space, e: nat, nonce: nat)
    requires i < |es| && es[i].space == sp && Covers(es[i].range, e, nonce)
    ensures Hits(es, sp, e, nonce) >= 1
  {
    var m := |es| - 1;
    assert es[..m] + [es[m]] == es;
    HitsSnoc(es[..m], es[m], sp, e, nonce);
    if i < m {
      HitOnce(es[..m], i, sp, e, nonce);
    }
  }

  ghost predicate SameRecord(s: State, t: State)
  {
    s.log == t.log && s.fates == t.fates && s.shares == t.shares
  }

  lemma SharesCarryOver(s: State, t: State)
    requires SharesUnique(s) && SameRecord(s, t)
    ensures SharesUnique(t)
  {
    forall f | f in t.shares
      ensures exists i :: FoundIn(t, f, i)
    {
      var i :| FoundIn(s, f, i);
      assert FoundIn(t, f, i);
    }
  }

  /** A failure leaves the tiling whole: the cursor is back where the collected part ends. */
  lemma FaultTiles(w: u64, n: u64, s: State)
    requires Tiled(w, n, s) && s.space.Some? && AllFit(s)
    ensures Tiled(w, n, Fault(s, Restart(s)))
  {
    var sp, s' := s.space.value, Fault(s, Restart(s));
    var d := Of(s.log, sp);
    assert s'.space == s.space && s'.log == s.log && s'.inflight == [] && s'.cursor == Restart(s);
    assert d + [] == d;
    if s.inflight != [] {
      SmallSizes(sp.extranonce2Size);
      RestartAt(w, n, d, s.inflight);
    }
  }

  lemma RestartAt(w: u64, n: u64, d: seq<Range>, inflight: seq<Range>)
    requires Tiles(w, n, d + inflight) && inflight != [] && inflight[0].en2 < U64 - 1
    ensures Tiles(w, n, d) && At(w, n, Total(d), Cursor(inflight[0].en2, inflight[0].start))
  {
    var all := d + inflight;
    TilesPrefix(w, n, all, |d|);
    assert all[..|d|] == d && all[|d|] == inflight[0];
  }

  lemma FaultKeepsInv(w: u64, n: u64, s: State)
    requires Inv(w, n, s) && s.running && !s.gone && s.space.Some?
    ensures Inv(w, n, Fault(s, Restart(s)))
  {
    FaultTiles(w, n, s);
    SharesCarryOver(s, Fault(s, Restart(s)));
  }

  lemma BeginKeepsInv(w: u64, n: u64, s: State, sp: Space)
    requires Inv(w, n, s) && Legal(s, Begin(sp))
    ensures Inv(w, n, Step(w, n, s, Begin(sp)))
  {
    if s.space != Some(sp) {
      assert Of(s.log, sp) + [] == [];
      assert Row(w, n, 0) == w;
    }
    SharesCarryOver(s, Step(w, n, s, Begin(sp)));
  }

  /** The launch taken goes on the end of a tiling. */
  lemma TakeTiles(w: u64, n: u64, all: seq<Range>, c: Cursor, max: u32)
    requires Tiles(w, n, all) && At(w, n, Total(all), c) && c.en2 < U64 - 1
    ensures var (c', r) := Take(c, max, n);
      Tiles(w, n, all + [r]) && At(w, n, Total(all + [r]), c')
  {
    TakeMovesOn(w, n, Total(all), c, max);
    var r := Take(c, max, n).1;
    TilesSnoc(w, n, all, r);
    TotalSnoc(all, r);
  }

  lemma QueueTiles(w: u64, n: u64, s: State, max: u32)
    requires Tiled(w, n, s) && AllFit(s) && Legal(s, Queue(max, true))
    ensures Tiled(w, n, Step(w, n, s, Queue(max, true)))
  {
    var d := Of(s.log, s.space.value);
    SmallSizes(s.space.value.extranonce2Size);
    TakeTiles(w, n, d + s.inflight, s.cursor, max);
    var r := Take(s.cursor, max, n).1;
    assert d + (s.inflight + [r]) == d + s.inflight + [r];
  }

  lemma QueueFits(w: u64, n: u64, s: State, max: u32)
    requires AllFit(s) && Legal(s, Queue(max, true))
    ensures AllFit(Step(w, n, s, Queue(max, true)))
  {
    SmallSizes(s.space.value.extranonce2Size);
  }

  lemma QueueKeepsInv(w: u64, n: u64, s: State, max: u32)
    requires Inv(w, n, s) && Legal(s, Queue(max, true))
    ensures Inv(w, n, Step(w, n, s, Queue(max, true)))
  {
    QueueFits(w, n, s, max);
    QueueTiles(w, n, s, max);
    SharesCarryOver(s, Step(w, n, s, Queue(max, true)));
  }

  /** Up to seven bytes every counter that fits is far below the saturation point. */
  lemma SmallSizes(size: nat)
    requires size <= 7
    ensures Pow256(size) <= Pow256(7) == 0x100_0000_0000_0000
  {
    Pow256Add(size, 7 - size);
    assert Pow256(size) <= Pow256(size) * Pow256(7 - size);
  }

  lemma CollectTiles(w: u64, n: u64, s: State)
    requires Tiled(w, n, s) && LeftTiled(w, n, s) && s.space.Some? && s.inflight != []
    ensures var s' := Step(w, n, s, Collect(true)); Tiled(w, n, s') && LeftTiled(w, n, s')
  {
    var s' := Step(w, n, s, Collect(true));
    var sp := s.space.value;
    var entry := Entry(sp, s.inflight[0]);
    OfSnoc(s.log, entry, sp);
    var d := Of(s'.log, sp);
    assert d + s'.inflight == Of(s.log, sp) + s.inflight;
    forall sp'
      ensures Tiles(w, n, Of(s'.log, sp'))
    {
      OfSnoc(s.log, entry, sp');
      if sp' == sp {
        TilesPrefix(w, n, d + s'.inflight, |d|);
        assert (d + s'.inflight)[..|d|] == d;
      } else {
        assert Of(s.log, sp') + [] == Of(s.log, sp');
      }
    }
  }

  lemma CollectKeepsRecord(w: u64, n: u64, s: State)
    requires SharesUnique(s) && Counted(s) && Legal(s, Collect(true)) && s.space.Some?
    ensures var s' := Step(w, n, s, Collect(true)); SharesUnique(s') && Counted(s')
  {
    var s' := Step(w, n, s, Collect(true));
    assert s'.fates[..|s.fates|] == s.fates;
    forall f | f in s'.shares
      ensures exists i :: FoundIn(s', f, i)
    {
      var i :| FoundIn(s, f, i);
      assert FoundIn(s', f, i);
    }
  }

  lemma CollectFits(w: u64, n: u64, s: State)
    requires AllFit(s) && s.space.Some? && s.inflight != []
    ensures AllFit(Step(w, n, s, Collect(true)))
  {
  }

  lemma CollectKeepsInv(w: u64, n: u64, s: State)
    requires Inv(w, n, s) && Legal(s, Collect(true))
    ensures Inv(w, n, Step(w, n, s, Collect(true)))
  {
    CollectTiles(w, n, s);
    CollectFits(w, n, s);
    CollectKeepsRecord(w, n, s);
  }

  /** A tiled log hashes nothing twice. */
  lemma AtMostOnce(w: u64, n: u64, s: State, sp: Space, en2: nat, nonce: nat)
    requires LeftTiled(w, n, s) && w < n && nonce < U32
    ensures Hits(s.log, sp, en2, nonce) <= 1
  {
    var own, k := RowOf(n, en2);
    TilesExactlyOnce(w, n, Of(s.log, sp), own, k, nonce);
  }

  /** Settling the launch in hand leaves the others' fates alone. */
  lemma SettleKeeps(s: State, f: Fate)
    requires Counted(s) && Holds(s) && f != Held
    ensures var s' := Settle(s, f);
      && |s'.fates| == |s.log| && !Holds(s')
      && (forall i :: 0 <= i < |s'.fates| ==> s'.fates[i] != Held)
      && Drops(s'.fates) == Drops(s.fates) + (if f == Dropped then 1 else 0)
      && (forall g, i :: FoundIn(s, g, i) ==> FoundIn(s', g, i))
  {
    var s' := Settle(s, f);
    var m := |s.fates| - 1;
    assert s'.fates[..m] == s.fates[..m];
  }

  /** No share of the launch in hand was submitted before. */
  lemma HeldIsNew(w: u64, n: u64, s: State, f: Found)
    requires w < n && Inv(w, n, s) && Holds(s) && f in s.shares
    ensures f.space == s.log[|s.log| - 1].space ==> !Covers(s.log[|s.log| - 1].range, f.en2, f.nonce)
  {
    var m := |s.log| - 1;
    if f.space == s.log[m].space && Covers(s.log[m].range, f.en2, f.nonce) {
      var i :| FoundIn(s, f, i);
      HitTwice(s.log, i, m, f.space, f.en2, f.nonce);
      NoncesBelow(w, n, s, f.nonce);
      AtMostOnce(w, n, s, f.space, f.en2, f.nonce);
      assert false;
    }
  }

  predicate AllDistinct(fs: seq<Found>)
  {
    forall i, j :: 0 <= i < j < |fs| ==> fs[i] != fs[j]
  }

  ghost predicate AllFound(s: State, shares: seq<Found>)
  {
    forall f :: f in shares ==> exists i :: FoundIn(s, f, i)
  }

  lemma DistinctTogether(a: seq<Found>, b: seq<Found>)
    requires AllDistinct(a) && AllDistinct(b) && forall i, j :: 0 <= i < |a| && 0 <= j < |b| ==> a[i] != b[j]
    ensures AllDistinct(a + b)
  {
  }

  lemma FoundsAreNew(w: u64, n: u64, s: State, hits: seq<nat>, i: nat, j: nat)
    requires w < n && Inv(w, n, s) && Legal(s, Finish(hits)) && i < |s.shares| && j < |hits|
    ensures s.shares[i] != Founds(s.log[|s.log| - 1], hits)[j]
  {
    var entry := s.log[|s.log| - 1];
    assert Covers(entry.range, entry.range.en2, hits[j]);
    HeldIsNew(w, n, s, s.shares[i]);
  }

  lemma FinishFinds(s: State, hits: seq<nat>)
    requires SharesUnique(s) && Counted(s) && Legal(s, Finish(hits))
    ensures AllFound(Settle(s, Finished), s.shares + Founds(s.log[|s.log| - 1], hits))
  {
    var s', m := Settle(s, Finished), |s.log| - 1;
    SettleKeeps(s, Finished);
    var found := Founds(s.log[m], hits);
    var all := s.shares + found;
    forall f | f in all
      ensures exists i :: FoundIn(s', f, i)
    {
      if f in s.shares {
        var i :| FoundIn(s, f, i);
        assert FoundIn(s', f, i);
      } else {
        assert FoundIn(s', f, m);
      }
    }
  }

  lemma FinishKeepsShares(w: u64, n: u64, s: State, hits: seq<nat>)
    requires w < n && Inv(w, n, s) && Legal(s, Finish(hits))
    ensures SharesUnique(Step(w, n, s, Finish(hits)))
  {
    var found := Founds(s.log[|s.log| - 1], hits);
    forall i, j | 0 <= i < |s.shares| && 0 <= j < |found|
      ensures s.shares[i] != found[j]
    {
      FoundsAreNew(w, n, s, hits, i, j);
    }
    DistinctTogether(s.shares, found);
    FinishFinds(s, hits);
    SharesMoved(Settle(s, Finished), Step(w, n, s, Finish(hits)));
  }

  /** Where a share was found does not depend on which shares there are. */
  lemma SharesMoved(s: State, t: State)
    requires t.log == s.log && t.fates == s.fates && AllDistinct(t.shares) && AllFound(s, t.shares)
    ensures SharesUnique(t)
  {
    forall f | f in t.shares
      ensures exists i :: FoundIn(t, f, i)
    {
      var i :| FoundIn(s, f, i);
      assert FoundIn(t, f, i);
    }
  }

  lemma FinishKeepsInv(w: u64, n: u64, s: State, hits: seq<nat>)
    requires w < n && Inv(w, n, s) && Legal(s, Finish(hits))
    ensures Inv(w, n, Step(w, n, s, Finish(hits)))
  {
    FinishKeepsShares(w, n, s, hits);
    SettleKeeps(s, Finished);
  }

  /** The nonces of the launch in hand are below 2^32. */
  lemma NoncesBelow(w: u64, n: u64, s: State, nonce: nat)
    requires LeftTiled(w, n, s) && s.log != []
    requires Covers(s.log[|s.log| - 1].range, s.log[|s.log| - 1].range.en2, nonce)
    ensures nonce < U32
  {
    var m := |s.log| - 1;
    assert s.log[..m] + [s.log[m]] == s.log;
    OfSnoc(s.log[..m], s.log[m], s.log[m].space);
    var rs := Of(s.log, s.log[m].space);
    assert Tiles(w, n, rs) && rs[|rs| - 1] == s.log[m].range;
  }

  lemma EndKeepsInv(w: u64, n: u64, s: State, reopened: bool)
    requires Inv(w, n, s) && Legal(s, End(reopened))
    ensures Inv(w, n, Step(w, n, s, End(reopened)))
  {
    var s' := Step(w, n, s, End(reopened));
    if Holds(s) {
      SettleKeeps(s, Dropped);
      forall f | f in s'.shares
        ensures exists i :: FoundIn(s', f, i)
      {
        var i :| FoundIn(s, f, i);
        assert FoundIn(Settle(s, Dropped), f, i);
        assert FoundIn(s', f, i);
      }
    } else {
      SharesCarryOver(s, s');
    }
  }

  lemma StepKeepsInv(w: u64, n: u64, s: State, e: Event)
    requires w < n && Inv(w, n, s) && Legal(s, e)
    ensures Inv(w, n, Step(w, n, s, e))
  {
    match e
    case Begin(sp) => BeginKeepsInv(w, n, s, sp);
    case Queue(max, ok) => if ok { QueueKeepsInv(w, n, s, max); } else { FaultKeepsInv(w, n, s); }
    case Collect(ok) => if ok { CollectKeepsInv(w, n, s); } else { FaultKeepsInv(w, n, s); }
    case Finish(hits) => FinishKeepsInv(w, n, s, hits);
    case Decide(_) => SharesCarryOver(s, Step(w, n, s, e));
    case End(reopened) => EndKeepsInv(w, n, s, reopened);
  }

  /**
   The fault-tolerant pipeline: in every state every run reaches - whichever
   calls fail, whatever jobs come - collected, in-flight and cursor tile the
   worker's part of the space, and nothing collected is forgotten.
   */
  lemma {:induction false} EveryRunTiles(w: u64, n: u64, run: seq<Event>)
    requires w < n && LegalRun(w, n, run)
    ensures Inv(w, n, Replay(w, n, run))
  {
    if run == [] {
      assert Row(w, n, 0) == w;
    } else {
      var i := |run| - 1;
      EveryRunTiles(w, n, run[..i]);
      StepKeepsInv(w, n, Replay(w, n, run[..i]), run[i]);
    }
  }

  /** The start has the property, and every legal step keeps it. */
  ghost predicate Kept(w: u64, n: u64, p: State -> bool)
  {
    p(Init(w)) && forall s, e :: p(s) && Legal(s, e) ==> p(Step(w, n, s, e))
  }

  /** The state has every such property: it is where some legal run leads (see ReachedByARun). */
  ghost predicate Reached(w: u64, n: u64, s: State)
  {
    forall p: State -> bool :: Kept(w, n, p) ==> p(s)
  }

  lemma StartReached(w: u64, n: u64)
    ensures Reached(w, n, Init(w))
  {
  }

  lemma Advance(w: u64, n: u64, s: State, e: Event)
    requires Reached(w, n, s) && Legal(s, e)
    ensures Reached(w, n, Step(w, n, s, e))
  {
    forall p: State -> bool | Kept(w, n, p)
      ensures p(Step(w, n, s, e))
    {
      assert p(s);
    }
  }

  ghost predicate EndOfRun(w: u64, n: u64, s: State)
  {
    exists run :: LegalRun(w, n, run) && Replay(w, n, run) == s
  }

  lemma ReachedByARun(w: u64, n: u64, s: State)
    ensures Reached(w, n, s) <==> EndOfRun(w, n, s)
  {
    if Reached(w, n, s) {
      RunsAreKept(w, n);
    }
    if EndOfRun(w, n, s) {
      var run :| LegalRun(w, n, run) && Replay(w, n, run) == s;
      RunReaches(w, n, run);
    }
  }

  lemma RunsAreKept(w: u64, n: u64)
    ensures Kept(w, n, s => EndOfRun(w, n, s))
  {
    assert LegalRun(w, n, []) && Replay(w, n, []) == Init(w);
    forall s, e | EndOfRun(w, n, s) && Legal(s, e)
      ensures EndOfRun(w, n, Step(w, n, s, e))
    {
      var run :| LegalRun(w, n, run) && Replay(w, n, run) == s;
      var more := Then(w, n, run, s, e);
    }
  }

  lemma {:induction false} RunReaches(w: u64, n: u64, run: seq<Event>)
    requires LegalRun(w, n, run)
    ensures Reached(w, n, Replay(w, n, run))
  {
    if run != [] {
      var i := |run| - 1;
      RunReaches(w, n, run[..i]);
      Advance(w, n, Replay(w, n, run[..i]), run[i]);
    }
  }

  lemma ReachedTiles(w: u64, n: u64, s: State)
    requires w < n && Reached(w, n, s)
    ensures Inv(w, n, s)
  {
    ReachedByARun(w, n, s);
    var run :| LegalRun(w, n, run) && Replay(w, n, run) == s;
    EveryRunTiles(w, n, run);
  }

  /** A gone device has no errors pending; while a job runs, the worker has not given up. */
  ghost predicate Lively(s: State)
  {
    (s.gone ==> s.errors == 0) && (s.running ==> s.alive) && (s.alive ==> s.reopens <= MAX_REOPENS)
  }

  lemma StepLively(w: u64, n: u64, s: State, e: Event)
    requires Legal(s, e) && Lively(s)
    ensures Lively(Step(w, n, s, e))
  {
    match e
    case Begin(_) =>
    case Queue(_, _) =>
    case Collect(_) =>
    case Finish(_) =>
    case Decide(_) =>
    case End(_) =>
  }

  lemma {:induction false} EveryRunLively(w: u64, n: u64, run: seq<Event>)
    requires LegalRun(w, n, run)
    ensures Lively(Replay(w, n, run))
  {
    if run != [] {
      var i := |run| - 1;
      EveryRunLively(w, n, run[..i]);
      StepLively(w, n, Replay(w, n, run[..i]), run[i]);
    }
  }

  lemma ReachedLively(w: u64, n: u64, s: State)
    requires Reached(w, n, s)
    ensures Lively(s)
  {
    ReachedByARun(w, n, s);
    var run :| LegalRun(w, n, run) && Replay(w, n, run) == s;
    EveryRunLively(w, n, run);
  }

  // ----- Giving a dead device up -----

  /** As long as nothing came back, failures, gone devices and reopens keep step. */
  ghost predicate DeadCount(s: State)
  {
    && s.back == 0 && s.fates == []
    && s.failures == MAX_SCAN_ERRORS * s.gones + s.errors && s.errors < MAX_SCAN_ERRORS
    && s.reopens + (if s.running && s.gone then 1 else 0) == s.gones
    && (s.alive <==> s.reopens <= MAX_REOPENS && !s.lost) && (s.running ==> s.alive)
    && (!s.running ==> s.reopens == s.gones)
    && (s.gone ==> s.errors == 0) && (!s.alive ==> s.gone && s.reopens <= MAX_REOPENS + 1)
  }

  lemma DeadStep(w: u64, n: u64, s: State, e: Event)
    requires s.log == [] && DeadCount(s) && Legal(s, e) && e != Collect(true)
    ensures DeadCount(Step(w, n, s, e))
  {
    match e
    case Begin(_) =>
    case Queue(_, _) => assert Step(w, n, s, e).fates == [];
    case Collect(_) => assert Step(w, n, s, e).fates == [];
    case Finish(_) =>
    case Decide(_) =>
    case End(_) =>
  }

  /** The log only grows, and does with every launch that comes back. */
  lemma LogGrows(w: u64, n: u64, s: State, e: Event)
    requires Legal(s, e) && (s.inflight != [] ==> s.space.Some?)
    ensures var s' := Step(w, n, s, e); |s.log| <= |s'.log| && (e == Collect(true) ==> s'.log != [])
  {
    match e
    case Begin(_) =>
    case Queue(_, _) =>
    case Collect(_) =>
    case Finish(_) =>
    case Decide(_) =>
    case End(_) =>
  }

  lemma {:induction false} DeadDeviceCounts(w: u64, n: u64, run: seq<Event>)
    requires LegalRun(w, n, run) && Replay(w, n, run).log == []
    ensures DeadCount(Replay(w, n, run))
  {
    if run != [] {
      var i := |run| - 1;
      var s := Replay(w, n, run[..i]);
      InSpace(w, n, run[..i]);
      LogGrows(w, n, s, run[i]);
      DeadDeviceCounts(w, n, run[..i]);
      DeadStep(w, n, s, run[i]);
    }
  }

  ghost predicate Placed(s: State)
  {
    s.space.None? ==> s.inflight == [] && s.reports == []
  }

  lemma StepPlaced(w: u64, n: u64, s: State, e: Event)
    requires Legal(s, e) && Placed(s)
    ensures Placed(Step(w, n, s, e))
  {
    match e
    case Begin(_) =>
    case Queue(_, _) =>
    case Collect(_) =>
    case Finish(_) =>
    case Decide(_) =>
    case End(_) =>
  }

  /** A launch is in flight, and a job was reported, only once one has been started. */
  lemma {:induction false} InSpace(w: u64, n: u64, run: seq<Event>)
    requires LegalRun(w, n, run)
    ensures Placed(Replay(w, n, run))
  {
    if run != [] {
      var i := |run| - 1;
      InSpace(w, n, run[..i]);
      StepPlaced(w, n, Replay(w, n, run[..i]), run[i]);
    }
  }

  /**
   A device on which no launch ever comes back is given up after 30 failures,
   whatever jobs arrive meanwhile, and no job is started on it after that. It is
   given up before only if it could not be opened again.
   */
  lemma DeadDeviceGivenUp(w: u64, n: u64, run: seq<Event>)
    requires LegalRun(w, n, run) && Replay(w, n, run).log == []
    ensures var s := Replay(w, n, run);
      && s.failures <= 30
      && (!s.alive <==> s.lost || (s.failures == 30 && !s.running))
      && (s.failures == 30 || !s.alive ==> forall e :: Legal(s, e) ==> e.End?)
  {
    DeadDeviceCounts(w, n, run);
  }

  lemma StepLoses(w: u64, n: u64, s: State, e: Event)
    requires Step(w, n, s, e).lost && !s.lost
    ensures e == End(false)
  {
    match e
    case Begin(_) =>
    case Queue(_, _) =>
    case Collect(_) =>
    case Finish(_) =>
    case Decide(_) =>
    case End(_) =>
  }

  /** A worker that lost its device was told so: an open failed. */
  lemma {:induction false} LostWasNotOpened(w: u64, n: u64, run: seq<Event>)
    requires LegalRun(w, n, run) && Replay(w, n, run).lost
    ensures End(false) in run
  {
    var i := |run| - 1;
    var s := Replay(w, n, run[..i]);
    if s.lost { LostWasNotOpened(w, n, run[..i]); } else { StepLoses(w, n, s, run[i]); }
  }

  // ----- What a report is worth -----

  /** Nothing of the space is left: the cursor is past its last counter, nothing is in flight. */
  ghost predicate SpaceDone(s: State, sp: Space)
  {
    s.space == Some(sp) && s.inflight == [] && !Fits(s.cursor.en2, sp.extranonce2Size)
  }

  /** The worker has collected all of its part of the space. */
  ghost predicate Searched(w: nat, n: nat, log: seq<Entry>, sp: Space)
  {
    forall k: nat :: Row(w, n, k) < Pow256(sp.extranonce2Size) ==> (k + 1) * U32 <= Total(Of(log, sp))
  }

  lemma ExhaustedIsSearched(w: u64, n: u64, s: State, sp: Space)
    requires Tiled(w, n, s) && SpaceDone(s, sp)
    ensures Searched(w, n, s.log, sp)
  {
    forall k: nat | Row(w, n, k) < Pow256(sp.extranonce2Size)
      ensures (k + 1) * U32 <= Total(Of(s.log, sp))
    {
      ExhaustedIsDone(w, n, s, sp, k);
    }
  }

  lemma ExhaustedIsDone(w: u64, n: u64, s: State, sp: Space, k: nat)
    requires Tiled(w, n, s) && SpaceDone(s, sp) && Row(w, n, k) < Pow256(sp.extranonce2Size)
    ensures (k + 1) * U32 <= Total(Of(s.log, sp))
  {
    var d := Of(s.log, sp);
    assert d + s.inflight == d;
    var p := Total(d);
    if p < (k + 1) * U32 {
      assert p / U32 <= k;
      if p / U32 < k { RowsApart(w, n, p / U32, k); }
      assert false;
    }
  }

  /** A decided end, seen from the events of the job. */
  predicate DecidedIn(run: seq<Event>)
  {
    run != [] && (var e := run[|run| - 1]; e.Decide? || (!e.Begin? && DecidedIn(run[..|run| - 1])))
  }

  /** A launch failed to come back after that. */
  predicate LateIn(run: seq<Event>)
  {
    run != [] &&
    (var e, was := run[|run| - 1], run[..|run| - 1];
     !e.Begin? && (LateIn(was) || (e == Collect(false) && DecidedIn(was))))
  }

  /**
   Once the end is decided the cursor stands still, at the end of the space if
   that is why - until a launch fails to come back, which puts it on ground not
   yet hashed and ends the job.
   */
  ghost predicate DecisionOk(s: State)
  {
    && (s.decided.None? ==> !s.late)
    && (s.decided == Some(Exhausted) ==>
        s.space.Some? && (s.late ==> s.inflight == [])
        && (Fits(s.cursor.en2, s.space.value.extranonce2Size) <==> s.late))
  }

  /** Between jobs the last report is that of the last job. */
  ghost predicate ReportOk(s: State)
  {
    !s.running && s.space.Some? ==> s.reports != [] && Reported(s) == [s.reports[|s.reports| - 1]] && s.inflight == []
  }

  /** The oldest launch in flight lies within the space. */
  lemma BackOnGround(s: State)
    requires AllFit(s) && Placed(s) && s.inflight != []
    ensures s.space.Some? && Fits(Restart(s).en2, s.space.value.extranonce2Size)
  {
  }

  lemma StepKeepsDecision(w: u64, n: u64, s: State, e: Event)
    requires Legal(s, e) && AllFit(s) && Placed(s) && DecisionOk(s)
    ensures DecisionOk(Step(w, n, s, e))
  {
    match e
    case Begin(_) =>
    case Queue(_, _) =>
    case Collect(ok) => if !ok { BackOnGround(s); }
    case Finish(_) =>
    case Decide(_) =>
    case End(_) =>
  }

  lemma StepKeepsReport(w: u64, n: u64, s: State, e: Event)
    requires Legal(s, e) && Placed(s) && Counted(s) && ReportOk(s)
    ensures ReportOk(Step(w, n, s, e))
  {
    match e
    case Begin(_) =>
    case Queue(_, _) =>
    case Collect(_) =>
    case Finish(_) =>
    case Decide(_) =>
    case End(_) =>
  }

  /** What the state records of the decision is what the run says. */
  lemma {:induction false} EveryRunDecides(w: u64, n: u64, run: seq<Event>)
    requires w < n && LegalRun(w, n, run)
    ensures var s := Replay(w, n, run);
      && DecisionOk(s) && ReportOk(s)
      && (s.decided.Some? <==> DecidedIn(run)) && (s.late <==> LateIn(run))
  {
    if run != [] {
      var i := |run| - 1;
      var s := Replay(w, n, run[..i]);
      EveryRunDecides(w, n, run[..i]);
      EveryRunTiles(w, n, run[..i]);
      InSpace(w, n, run[..i]);
      StepKeepsDecision(w, n, s, run[i]);
      StepKeepsReport(w, n, s, run[i]);
      StepRecords(w, n, s, run[i]);
    }
  }

  lemma StepRecords(w: u64, n: u64, s: State, e: Event)
    requires Legal(s, e) && DecisionOk(s) && (s.space.None? ==> s.inflight == [])
    ensures var s' := Step(w, n, s, e);
      && (s'.decided.Some? <==> e.Decide? || (!e.Begin? && s.decided.Some?))
      && (s'.late <==> !e.Begin? && (s.late || (e == Collect(false) && s.decided.Some?)))
  {
    match e
    case Begin(_) =>
    case Queue(_, _) =>
    case Collect(_) =>
    case Finish(_) =>
    case Decide(_) =>
    case End(_) =>
  }

  lemma ReachedDecision(w: u64, n: u64, s: State)
    requires w < n && Reached(w, n, s)
    ensures DecisionOk(s) && ReportOk(s)
  {
    ReachedByARun(w, n, s);
    var run :| LegalRun(w, n, run) && Replay(w, n, run) == s;
    EveryRunDecides(w, n, run);
  }

  /** The worker's last job is over, and it reported the space exhausted. */
  ghost predicate JustReported(s: State, sp: Space)
  {
    !s.running && s.reports != [] && (var r := s.reports[|s.reports| - 1]; r.space == sp && r.end == Exhausted)
  }

  /**
   A space reported exhausted is exhausted if and only if no launch failed to
   come back after the end was decided.
   */
  lemma ReportTells(w: u64, n: u64, run: seq<Event>, sp: Space)
    requires w < n && LegalRun(w, n, run) && JustReported(Replay(w, n, run), sp)
    ensures var s := Replay(w, n, run);
      && (SpaceDone(s, sp) <==> !LateIn(run))
      && s.reports[|s.reports| - 1] == Report(sp, Exhausted, LateIn(run))
  {
    EveryRunDecides(w, n, run);
    InSpace(w, n, run);
    ReportSays(Replay(w, n, run), sp);
  }

  lemma ReportSays(s: State, sp: Space)
    requires DecisionOk(s) && ReportOk(s) && Placed(s) && JustReported(s, sp)
    ensures SpaceDone(s, sp) <==> !s.late
    ensures s.reports[|s.reports| - 1] == Report(sp, Exhausted, s.late)
  {
  }

  /** The reports that hold: each names a space searched to its end. */
  ghost predicate ReportsTrue(w: nat, n: nat, s: State)
  {
    forall r :: r in s.reports && r.end == Exhausted && !r.late ==> Searched(w, n, s.log, r.space)
  }

  lemma SearchedStays(w: nat, n: nat, log: seq<Entry>, e: Entry, sp: Space)
    requires Searched(w, n, log, sp)
    ensures Searched(w, n, log + [e], sp)
  {
    OfSnoc(log, e, sp);
    TotalSnoc(Of(log, sp), e.range);
    assert Of(log, sp) + [] == Of(log, sp);
  }

  lemma ReportsCarryOver(w: nat, n: nat, s: State, t: State)
    requires ReportsTrue(w, n, s) && t.log == s.log && t.reports == s.reports
    ensures ReportsTrue(w, n, t)
  {
  }

  lemma CollectReportsTrue(w: nat, n: nat, s: State, t: State, entry: Entry)
    requires ReportsTrue(w, n, s) && t.log == s.log + [entry] && t.reports == s.reports
    ensures ReportsTrue(w, n, t)
  {
    forall r | r in t.reports && r.end == Exhausted && !r.late
      ensures Searched(w, n, t.log, r.space)
    {
      SearchedStays(w, n, s.log, entry, r.space);
    }
  }

  lemma StepKeepsReportsTrue(w: u64, n: u64, s: State, e: Event)
    requires Legal(s, e) && Inv(w, n, s) && DecisionOk(s) && ReportsTrue(w, n, s)
    ensures ReportsTrue(w, n, Step(w, n, s, e))
  {
    if e.End? {
      EndReportsTrue(w, n, s, e.reopened);
    } else if e == Collect(true) && s.space.Some? {
      CollectReportsTrue(w, n, s, Step(w, n, s, e), Entry(s.space.value, s.inflight[0]));
    } else {
      SameLog(w, n, s, e);
      ReportsCarryOver(w, n, s, Step(w, n, s, e));
    }
  }

  /** Only a collect adds to the log, and only the end of a job to the reports. */
  lemma SameLog(w: u64, n: u64, s: State, e: Event)
    requires !e.End? && !(e == Collect(true) && s.space.Some?)
    ensures Step(w, n, s, e).log == s.log && Step(w, n, s, e).reports == s.reports
  {
    match e
    case Begin(_) =>
    case Queue(_, _) =>
    case Collect(_) =>
    case Finish(_) =>
    case Decide(_) =>
    case End(_) =>
  }

  lemma EndReportsTrue(w: u64, n: u64, s: State, reopened: bool)
    requires Legal(s, End(reopened)) && Inv(w, n, s) && DecisionOk(s) && ReportsTrue(w, n, s)
    ensures ReportsTrue(w, n, Step(w, n, s, End(reopened)))
  {
    var s' := Step(w, n, s, End(reopened));
    forall r | r in s'.reports && r.end == Exhausted && !r.late
      ensures Searched(w, n, s'.log, r.space)
    {
      if r !in s.reports {
        assert r in Reported(s);
        ExhaustedIsSearched(w, n, s, r.space);
      }
    }
  }

  lemma {:induction false} EveryRunReports(w: u64, n: u64, run: seq<Event>)
    requires w < n && LegalRun(w, n, run)
    ensures ReportsTrue(w, n, Replay(w, n, run))
  {
    if run != [] {
      var i := |run| - 1;
      EveryRunReports(w, n, run[..i]);
      EveryRunDecides(w, n, run[..i]);
      EveryRunTiles(w, n, run[..i]);
      StepKeepsReportsTrue(w, n, Replay(w, n, run[..i]), run[i]);
    }
  }

  /**
   `pump` decides once that the space is exhausted, and no longer queues. If a
   launch still in flight then fails to come back, the cursor is put back to
   it but nothing is queued again: the job ends as exhausted although the
   ground from that launch on was never hashed.
   */
  lemma LateFaultLosesGround(w: u64, n: u64, s: State, sp: Space)
    requires w < n && Inv(w, n, s) && s.space == Some(sp) && Legal(s, Collect(false))
    requires !Fits(s.cursor.en2, sp.extranonce2Size)
    ensures var s', front := Step(w, n, s, Collect(false)), s.inflight[0];
      && s'.inflight == [] && Fits(s'.cursor.en2, sp.extranonce2Size) && !SpaceDone(s', sp)
      && Hits(s'.log, sp, front.en2, front.start) == 0
  {
    BackOnGround(s);
    FrontIsNew(w, n, Of(s.log, sp), s.inflight);
    assert Step(w, n, s, Collect(false)) == Fault(s, Restart(s));
  }

  lemma FrontIsNew(w: u64, n: u64, d: seq<Range>, inflight: seq<Range>)
    requires w < n && inflight != [] && Tiles(w, n, d + inflight)
    ensures Times(d, inflight[0].en2, inflight[0].start) == 0
  {
    var all := d + inflight;
    TilesPrefix(w, n, all, |d|);
    assert all[..|d|] == d && all[|d|] == inflight[0];
    var k := Total(d) / U32;
    TilesExactlyOnce(w, n, d, w, k, inflight[0].start);
  }

  /** It happens: one worker, an extranonce2 of no bytes, its last launch lost. */
  lemma LateFaultHappens(sp: Space) returns (run: seq<Event>)
    requires sp.extranonce2Size == 0
    ensures LegalRun(0, 1, run) && LateIn(run) && JustReported(Replay(0, 1, run), sp)
  {
    var both := BothQueued(sp);
    var s3 := Replay(0, 1, both);
    var decided := Then(0, 1, both, s3, Decide(Exhausted));
    var s4 := Step(0, 1, s3, Decide(Exhausted));
    LastIs(both, decided, Decide(Exhausted));
    var late := Then(0, 1, decided, s4, Collect(false));
    var s5 := Step(0, 1, s4, Collect(false));
    LastIs(decided, late, Collect(false));
    run := Then(0, 1, late, s5, End(true));
    LastIs(late, run, End(true));
  }

  /** Two launches cover the one counter there is. */
  lemma BothQueued(sp: Space) returns (run: seq<Event>)
    requires sp.extranonce2Size == 0
    ensures LegalRun(0, 1, run)
    ensures var s := Replay(0, 1, run);
      && s.running && !s.gone && s.decided.None? && !s.late && s.space == Some(sp) && s.fates == [] && s.errors == 0
      && s.cursor == Cursor(1, 0) && |s.inflight| == 2 && s.reports == []
  {
    var s0 := Init(0);
    run := Then(0, 1, [], s0, Begin(sp));
    var s1 := Step(0, 1, s0, Begin(sp));
    assert s1.cursor == Cursor(0, 0);
    run := Then(0, 1, run, s1, Queue(0xffff_ffff, true));
    var s2 := Step(0, 1, s1, Queue(0xffff_ffff, true));
    assert s2.cursor == Cursor(0, 0xffff_ffff);
    run := Then(0, 1, run, s2, Queue(1, true));
  }

  lemma LastIs(was: seq<Event>, run: seq<Event>, e: Event)
    requires run == was + [e]
    ensures run[|run| - 1] == e && run[..|run| - 1] == was
  {
  }

  lemma Then(w: u64, n: u64, run: seq<Event>, s: State, e: Event) returns (more: seq<Event>)
    requires LegalRun(w, n, run) && Replay(w, n, run) == s && Legal(s, e)
    ensures more == run + [e] && LegalRun(w, n, more) && Replay(w, n, more) == Step(w, n, s, e)
  {
    more := run + [e];
    LastIs(run, more, e);
  }

  /** A job about to be reported exhausted: nothing is left, unless a launch was lost after the decision. */
  lemma ReachedEnd(w: u64, n: u64, s: State, sp: Space)
    requires w < n && Reached(w, n, s) && s.decided == Some(Exhausted) && s.space == Some(sp) && s.inflight == []
    ensures SpaceDone(s, sp) <==> !s.late
  {
    ReachedDecision(w, n, s);
  }

  lemma ReachedReports(w: u64, n: u64, s: State)
    requires w < n && Reached(w, n, s)
    ensures ReportsTrue(w, n, s)
  {
    ReachedByARun(w, n, s);
    var run :| LegalRun(w, n, run) && Replay(w, n, run) == s;
    EveryRunReports(w, n, run);
  }

  lemma ReachedPlaced(w: u64, n: u64, s: State)
    requires Reached(w, n, s)
    ensures Placed(s)
  {
    ReachedByARun(w, n, s);
    var run :| LegalRun(w, n, run) && Replay(w, n, run) == s;
    InSpace(w, n, run);
  }

  lemma ReachedReportSays(w: u64, n: u64, s: State, sp: Space)
    requires w < n && Reached(w, n, s) && JustReported(s, sp)
    ensures s.space == Some(sp) && s.inflight == []
    ensures Fits(s.cursor.en2, sp.extranonce2Size) <==> s.late
    ensures s.reports[|s.reports| - 1] == Report(sp, Exhausted, s.late)
  {
    ReachedDecision(w, n, s);
    ReachedPlaced(w, n, s);
    ReportSays(s, sp);
  }

  // ----- Why a space must not return -----

  /**
   Only the last space is remembered. Sent back to one it left after
   collecting its first launch there, a worker hashes its first nonce again.
   */
  lemma ReturningRepeats(w: u64, n: u64, s: State, sp: Space, max: u32)
    requires w < n && Inv(w, n, s) && !s.running && s.alive && sp.extranonce2Size <= 7
    requires s.space != Some(sp) && Of(s.log, sp) != []
    ensures var s1 := Step(w, n, s, Begin(sp));
      var s3 := Step(w, n, Step(w, n, s1, Queue(max, true)), Collect(true));
      Hits(s3.log, sp, w, 0) == 2
  {
    FirstNonceHashed(w, n, s.log, sp);
    var s1 := Step(w, n, s, Begin(sp));
    var s2 := Step(w, n, s1, Queue(max, true));
    var r := Take(Cursor(w, 0), max, n).1;
    assert s1.cursor == Cursor(w, 0) && s2.inflight == s1.inflight + [r] && s1.inflight == [];
    assert Step(w, n, s2, Collect(true)).log == s.log + [Entry(sp, r)];
    HitsSnoc(s.log, Entry(sp, r), sp, w, 0);
  }

  /** The state after one launch of `sp` has come back. */
  function FirstBack(w: u64, n: u64, s: State, sp: Space, max: u32): State
  {
    Step(w, n, Step(w, n, Step(w, n, s, Begin(sp)), Queue(max, true)), Collect(true))
  }

  ghost predicate SomeTwice(s: State, sp: Space)
  {
    exists e: nat, nonce: u32 :: Hits(s.log, sp, e, nonce) >= 2
  }

  /**
   Whatever space comes next and still has ground: once its first launch is
   back, something of it has been hashed twice if and only if it is another
   space than the last one and the worker had collected of it before.
   */
  lemma TwiceExactlyWhen(w: u64, n: u64, s: State, sp: Space, max: u32)
    requires w < n && Inv(w, n, s) && !s.running && s.alive && sp.extranonce2Size <= 7
    requires Fits(Begun(w, s, sp).cursor.en2, sp.extranonce2Size)
    ensures SomeTwice(FirstBack(w, n, s, sp, max), sp) <==> s.space != Some(sp) && Of(s.log, sp) != []
  {
    var s3 := FirstBack(w, n, s, sp, max);
    if s.space != Some(sp) && Of(s.log, sp) != [] {
      ReturningRepeats(w, n, s, sp, max);
      assert Hits(s3.log, sp, w, 0) >= 2;
    } else {
      FirstBackKeeps(w, n, s, sp, max);
      forall e: nat, nonce: u32 ensures Hits(s3.log, sp, e, nonce) <= 1 {
        AtMostOnce(w, n, s3, sp, e, nonce);
      }
    }
  }

  lemma FirstBackKeeps(w: u64, n: u64, s: State, sp: Space, max: u32)
    requires w < n && Inv(w, n, s) && Legal(s, Begin(sp))
    requires Fits(Begun(w, s, sp).cursor.en2, sp.extranonce2Size)
    ensures Inv(w, n, FirstBack(w, n, s, sp, max))
  {
    var s1 := Begun(w, s, sp);
    BeginKeepsInv(w, n, s, sp);
    assert Legal(s1, Queue(max, true));
    OneBackKeeps(w, n, s1, max);
  }

  lemma OneBackKeeps(w: u64, n: u64, s: State, max: u32)
    requires w < n && Inv(w, n, s) && Legal(s, Queue(max, true)) && !Holds(s)
    ensures Inv(w, n, Step(w, n, Step(w, n, s, Queue(max, true)), Collect(true)))
  {
    QueueKeepsInv(w, n, s, max);
    CollectKeepsInv(w, n, Queued(n, s, max));
  }

  lemma FirstNonceHashed(w: u64, n: u64, log: seq<Entry>, sp: Space)
    requires w < n && Tiles(w, n, Of(log, sp)) && Of(log, sp) != []
    ensures Hits(log, sp, w, 0) == 1
  {
    assert Row(w, n, 0) == w;
    var rs := Of(log, sp);
    TilesPrefix(w, n, rs, 0);
    TilesPrefix(w, n, rs, 1);
    TotalPositive(w, n, rs);
    TilesExactlyOnce(w, n, rs, w, 0, 0);
  }

  lemma TotalPositive(w: nat, n: nat, rs: seq<Range>)
    requires Tiles(w, n, rs) && rs != []
    ensures Total(rs) >= 1
  {
  }

  /** It happens: a launch of one space comes back, and another space follows. */
  lemma ReturningHappens(sp: Space, other: Space) returns (s: State)
    requires sp != other && sp.extranonce2Size <= 7 && other.extranonce2Size <= 7
    ensures Reached(0, 1, s) && !s.running && s.alive && s.space == Some(other) && Of(s.log, sp) != []
  {
    s := Init(0);
    StartReached(0, 1);
    s := OneLaunch(s, sp);
    s := Leave(s);
    NotThere(s.log, sp, other);
    Advance(0, 1, s, Begin(other));
    s := Step(0, 1, s, Begin(other));
    s := Leave(s);
  }

  lemma OneLaunch(s0: State, sp: Space) returns (s: State)
    requires s0 == Init(0) && Reached(0, 1, s0) && sp.extranonce2Size <= 7
    ensures Reached(0, 1, s) && s.running && !s.gone && s.decided.None? && s.inflight == [] && !Holds(s) && s.alive
    ensures s.space == Some(sp) && |s.log| == 1 && s.log[0].space == sp && Of(s.log, sp) != [] && s.reopens == 0
  {
    Advance(0, 1, s0, Begin(sp));
    var s1 := Begun(0, s0, sp);
    Advance(0, 1, s1, Queue(1, true));
    var s2 := s1.(cursor := Cursor(0, 1), inflight := [Range(0, 0, 1)]);
    assert Step(0, 1, s1, Queue(1, true)) == s2;
    s := BackAndFinished(s2, sp);
  }

  lemma BackAndFinished(s2: State, sp: Space) returns (s: State)
    requires Reached(0, 1, s2) && s2.running && !s2.gone && s2.decided.None? && s2.space == Some(sp)
    requires s2.inflight == [Range(0, 0, 1)] && s2.log == [] && s2.fates == [] && s2.reopens == 0 && s2.alive
    ensures Reached(0, 1, s) && s.running && !s.gone && s.decided.None? && s.inflight == [] && !Holds(s) && s.alive
    ensures s.space == Some(sp) && |s.log| == 1 && s.log[0].space == sp && Of(s.log, sp) != [] && s.reopens == 0
  {
    Advance(0, 1, s2, Collect(true));
    var s3 := Collected(s2);
    Advance(0, 1, s3, Finish([]));
    s := Submitted(s3, []);
    assert s.log == [Entry(sp, Range(0, 0, 1))] && s.fates == [Finished];
    OfSnoc([], s.log[0], sp);
    assert [] + [s.log[0]] == s.log;
  }

  lemma Leave(s0: State) returns (s: State)
    requires Reached(0, 1, s0) && s0.running && !s0.gone && s0.decided.None? && s0.space.Some?
    requires s0.inflight == [] && !Holds(s0) && s0.alive && s0.reopens == 0
    ensures Reached(0, 1, s) && !s.running && s.alive && s.space == s0.space && s.log == s0.log && s.inflight == []
    ensures !s.gone && !Holds(s) && s.reopens == 0
  {
    Advance(0, 1, s0, Decide(Changed));
    s := Step(0, 1, s0, Decide(Changed));
    Advance(0, 1, s, End(true));
    s := Step(0, 1, s, End(true));
  }

  lemma NotThere(log: seq<Entry>, sp: Space, other: Space)
    requires |log| == 1 && log[0].space == sp != other
    ensures Of(log, other) == []
  {
    OfSnoc([], log[0], other);
    assert [] + [log[0]] == log;
  }
}
