/**
 A GPU's worker as the code runs it (src/gpu_worker.rs): `Worker` and `JobRun`
 with their fields, `mine_job`, `pump`, `top_up`, `device_error`, `finish` and
 the reopen loop. What the device answers - a failed call, the hits of a
 launch, how long it took - and when the job changes is arbitrary. The ghost
 field `s` is the state of Scheduler.dfy's machine; every method takes it through
 legal steps, so the machine's theorems hold of the code.
 */
module GpuMining {
  import opened Machine
  import opened SearchSpace
  import opened Scheduler
  import opened Targets
  import opened Headers
  import opened LaunchSize

  const BC3_TARGET_LAUNCH: nat := 400_000_000   // nanoseconds

  /** A queued launch: its range, and the header its nonces go into. */
  datatype InFlight = InFlight(range: Range, extranonce2: seq<u8>, header: BlockHeader)

  /** `En2Header`, kept for the next launch under the same counter. */
  datatype CachedHeader = CachedHeader(en2: u64, extranonce2: seq<u8>, header: BlockHeader)

  ghost predicate RightHeader(h: Hashes, sp: Space, en2: u64, extranonce2: seq<u8>, header: BlockHeader)
  {
    && extranonce2 == Encode(en2, sp.extranonce2Size)
    && header == HeaderOf(h, sp, extranonce2, sp.ntime, 0)
  }

  ghost function Ranges(ls: seq<InFlight>): (rs: seq<Range>)
    ensures |rs| == |ls| && forall i :: 0 <= i < |ls| ==> rs[i] == ls[i].range
  {
    seq(|ls|, i requires 0 <= i < |ls| => ls[i].range)
  }

  /** A submitted share is sound, and is the one the machine recorded. */
  ghost predicate ShareMatches(h: Hashes, share: Share, job: MinerJob, f: Found)
  {
    && Sound(h, job, share) && f.space == job.space && share.nonce == f.nonce
    && f.en2 < U64 && share.extranonce2 == Encode(f.en2, job.space.extranonce2Size)
  }

  ghost function Nonces(shares: seq<Share>): (ns: seq<nat>)
    ensures |ns| == |shares|
  {
    seq(|shares|, k requires 0 <= k < |shares| => shares[k].nonce)
  }

  /** The nonce is in the launch's range and its hash meets the share target. */
  ghost predicate IsShare(h: Hashes, job: MinerJob, done: InFlight, nonce: u32)
  {
    && Covers(done.range, done.range.en2, nonce)
    && Meets(h.pow(Serialize(done.header.(nonce := nonce))), job.shareTarget)
  }

  /** The budget counts the launch's hits, and the batch is tuned by what a launch of the whole batch would have taken. */
  ghost predicate Resized(budget: Budget, batch: u32, granule: u32, count: u32, reported: nat, elapsed: nat, budget': Budget, batch': u32)
    requires granule >= 1
  {
    && budget' == Record(budget, count, reported)
    && batch' == Autotune(batch, Projected(elapsed, batch, count), BC3_TARGET_LAUNCH, granule, MinBatch(granule), MaxBatch(granule))
  }

  /** What a launch of the whole batch would have taken. */
  function Projected(elapsed: nat, batch: nat, count: nat): nat
  {
    elapsed * batch / Max(count, 1)
  }

  ghost predicate AllMatch(h: Hashes, submitted: seq<Share>, asked: seq<MinerJob>, found: seq<Found>)
  {
    && |submitted| == |asked| == |found|
    && (forall i :: 0 <= i < |submitted| ==> ShareMatches(h, submitted[i], asked[i], found[i]))
  }

  lemma AllMatchMore(h: Hashes, submitted: seq<Share>, asked: seq<MinerJob>, found: seq<Found>,
                     shares: seq<Share>, job: MinerJob, more: seq<Found>)
    requires AllMatch(h, submitted, asked, found) && |shares| == |more|
    requires forall k :: 0 <= k < |shares| ==> ShareMatches(h, shares[k], job, more[k])
    ensures AllMatch(h, submitted + shares, asked + seq(|shares|, _ => job), found + more)
  {
  }

  ghost predicate RightHeaders(h: Hashes, sp: Space, inflight: seq<InFlight>)
  {
    forall i :: 0 <= i < |inflight| ==>
      RightHeader(h, sp, inflight[i].range.en2, inflight[i].extranonce2, inflight[i].header)
  }

  lemma FrontRight(h: Hashes, sp: Space, inflight: seq<InFlight>)
    requires RightHeaders(h, sp, inflight) && inflight != []
    ensures RightHeaders(h, sp, [inflight[0]])
  {
  }

  lemma OneRight(h: Hashes, sp: Space, done: InFlight)
    requires RightHeaders(h, sp, [done])
    ensures RightHeader(h, sp, done.range.en2, done.extranonce2, done.header)
  {
    assert [done][0] == done;
  }

  ghost predicate Grew(before: seq<Entry>, after: seq<Entry>, sp: Space)
  {
    before <= after && forall i :: |before| <= i < |after| ==> after[i].space == sp
  }

  /** The launches of a space fit into it, so a job cannot go on for ever. */
  lemma {:induction false} TotalBound(w: u64, n: u64, rs: seq<Range>, limit: nat)
    requires w < n && Tiles(w, n, rs) && forall i :: 0 <= i < |rs| ==> rs[i].en2 < limit
    ensures Total(rs) <= limit * U32
  {
    if rs != [] {
      var p := Total(rs[..|rs| - 1]);
      RowGrows(w, n, p / U32);
    }
  }

  lemma {:induction false} RowGrows(w: nat, n: nat, k: nat)
    requires n >= 1
    ensures Row(w, n, k) >= k
  {
    if k != 0 {
      RowGrows(w, n, k - 1);
    }
  }

  ghost function Covered(s: State): nat
  {
    if s.space.Some? then Total(Of(s.log, s.space.value)) else 0
  }

  ghost function Capacity(s: State): nat
  {
    if s.space.Some? then Pow256(s.space.value.extranonce2Size) * U32 else 0
  }

  /** What of the space is left to cover. */
  ghost function Left(s: State): int
  {
    Capacity(s) - Covered(s)
  }

  lemma {:induction false} OfFits(log: seq<Entry>, sp: Space)
    requires forall i :: 0 <= i < |log| ==> log[i].range.en2 < Pow256(log[i].space.extranonce2Size)
    ensures forall i :: 0 <= i < |Of(log, sp)| ==> Of(log, sp)[i].en2 < Pow256(sp.extranonce2Size)
  {
    if log != [] {
      OfFits(log[..|log| - 1], sp);
    }
  }

  lemma CoveredBound(w: u64, n: u64, s: State)
    requires w < n && Inv(w, n, s)
    ensures Covered(s) <= Capacity(s)
  {
    if s.space.Some? {
      var sp := s.space.value;
      OfFits(s.log, sp);
      TotalBound(w, n, Of(s.log, sp), Pow256(sp.extranonce2Size));
    }
  }

  lemma ReachedBound(w: u64, n: u64, s: State)
    requires w < n && Reached(w, n, s)
    ensures Covered(s) <= Capacity(s)
  {
    ReachedTiles(w, n, s);
    CoveredBound(w, n, s);
  }

  ghost predicate Sorted(s: seq<u32>)
  {
    forall i, j :: 0 <= i < j < |s| ==> s[i] < s[j]
  }

  function Insert(s: seq<u32>, h: u32): (r: seq<u32>)
  {
    if s == [] || h < s[0] then [h] + s
    else if h == s[0] then s
    else [s[0]] + Insert(s[1..], h)
  }

  lemma {:induction false} InsertKeeps(s: seq<u32>, h: u32)
    requires Sorted(s)
    ensures Sorted(Insert(s, h))
    ensures forall x :: x in Insert(s, h) <==> x == h || x in s
  {
    var r := Insert(s, h);
    if s != [] && h > s[0] {
      var rest := s[1..];
      InsertKeeps(rest, h);
      assert s == [s[0]] + rest;
      forall j | 1 <= j < |r|
        ensures r[0] < r[j]
      {
        assert r[j] in Insert(rest, h);
      }
    }
  }

  /** `sort_unstable` and `dedup`. */
  method SortDedup(hits: seq<u32>) returns (out: seq<u32>)
    ensures Sorted(out)
    ensures forall x :: x in out <==> x in hits
  {
    out := [];
    for k := 0 to |hits|
      invariant Sorted(out)
      invariant forall x :: x in out <==> x in hits[..k]
    {
      InsertKeeps(out, hits[k]);
      out := Insert(out, hits[k]);
      assert hits[..k + 1] == hits[..k] + [hits[k]];
    }
    assert hits[..|hits|] == hits;
  }

  /** Of the looks to come `before`, those up to `after` were taken: the last found the job changed, or none did. */
  predicate Heard(before: seq<bool>, after: seq<bool>, changed: bool)
    decreases |before|
  {
    || (after == before && !changed)
    || (before != [] && if before[0] then changed && after == before[1..] else Heard(before[1..], after, changed))
  }

  lemma {:induction false} HeardNext(before: seq<bool>, now: seq<bool>, changed: bool)
    requires Heard(before, now, false) && changed == (now != [] && now[0])
    ensures Heard(before, if now == [] then [] else now[1..], changed)
    decreases |before|
  {
    if now != before { HeardNext(before[1..], now, changed); }
  }

  lemma {:induction false} HeardOn(before: seq<bool>, now: seq<bool>, after: seq<bool>, changed: bool)
    requires Heard(before, now, false) && Heard(now, after, changed)
    ensures Heard(before, after, changed)
    decreases |before|
  {
    if now != before { HeardOn(before[1..], now, after, changed); }
  }

  lemma NothingHeard(looks: seq<bool>)
    ensures Heard(looks, looks, false)
  {
  }

  class JobRun {
    const job: MinerJob
    const depth: nat
    const granule: u32
    const blockTarget: Option<Digest>
    var inflight: seq<InFlight>
    var ending: Option<JobEnd>
    var header: Option<CachedHeader>
    /** What looking for another generation, or a window to switch to, will find, look by look; then nothing. */
    var looks: seq<bool>
    ghost const script: seq<bool>

    constructor (job: MinerJob, depth: nat, granule: u32, blockTarget: Option<Digest>, looks: seq<bool>)
      ensures this.job == job && this.depth == depth && this.granule == granule && this.blockTarget == blockTarget
      ensures inflight == [] && ending == None && header == None && this.looks == script == looks
    {
      this.job, this.depth, this.granule, this.blockTarget := job, depth, granule, blockTarget;
      inflight, ending, header, this.looks, script := [], None, None, looks, looks;
    }

    /** One look. */
    method Look() returns (changed: bool)
      modifies this`looks
      ensures changed == (old(looks) != [] && old(looks)[0])
      ensures looks == if old(looks) == [] then [] else old(looks)[1..]
    {
      if looks == [] { return false; }
      changed, looks := looks[0], looks[1..];
    }

    ghost predicate Ok(h: Hashes)
      reads this
    {
      Sane(h) && ending != Some(DeviceGone) && Heard(script, looks, ending == Some(Changed))
    }

    /** The end is to be `end`, which what was heard agrees with. */
    ghost predicate OkBut(h: Hashes, end: JobEnd)
      reads this
    {
      Sane(h) && ending.None? && end != DeviceGone && Heard(script, looks, end == Changed)
    }

    ghost predicate Sane(h: Hashes)
      reads this
    {
      && job.space.extranonce2Size <= 7 && 1 <= depth <= QUEUE_DEPTH && granule >= 1
      && (blockTarget.None? <==> MinedTarget(job.space.bits).None?)
      && (blockTarget.Some? ==> BE(blockTarget.value) == MinedTarget(job.space.bits).value)
      && RightHeaders(h, job.space, inflight)
      && (header.Some? ==> RightHeader(h, job.space, header.value.en2, header.value.extranonce2, header.value.header))
      && |inflight| <= depth
    }
  }

  class Worker {
    const hashes: Hashes
    const index: u64
    const stride: u64
    var prev: Option<MinerJob>
    var cursor: Cursor
    var batch: u32
    var budget: Budget
    var errors: nat
    var collected: nat
    var reopens: nat
    var submitted: seq<Share>
    ghost var asked: seq<MinerJob>   // the job each share was found on
    ghost var s: State               // of Scheduler.dfy's machine

    constructor (hashes: Hashes, index: u64, totalWorkers: nat)
      requires index < totalWorkers < U64
      ensures this.hashes == hashes && this.index == index && this.stride == totalWorkers
      ensures Idle() && s == Init(index) && batch == BC3_START_BATCH
    {
      this.hashes, this.index, this.stride := hashes, index, totalWorkers;
      prev, cursor, batch, budget := None, Cursor(index, 0), BC3_START_BATCH, NO_BUDGET;
      errors, collected, reopens, submitted := 0, 0, 0, [];
      asked, s := [], Init(index);
      new;
      StartReached(index, stride);
    }

    /** The fields are the machine's, and every share submitted so far is sound. */
    ghost predicate Agrees()
      reads this
    {
      && index < stride && Reached(index, stride, s)
      && cursor == s.cursor && errors == s.errors && collected == s.back && reopens == s.reopens
      && AllMatch(hashes, submitted, asked, s.shares)
    }

    ghost predicate Idle()
      reads this
    {
      Agrees() && !s.running && (prev.None? <==> s.space.None?) && (prev.Some? ==> s.space == Some(prev.value.space))
    }

    ghost predicate Running(run: JobRun)
      reads this, run
    {
      && Agrees() && run.Ok(hashes) && s.running && s.space == Some(run.job.space)
      && s.inflight == Ranges(run.inflight) && BatchOk(batch, run.granule) && s.decided == run.ending
    }

    /** Only launches of the running space were logged. */
    twostate predicate OnlyLogged(run: JobRun)
      reads this`s
    {
      Grew(old(s).log, s.log, run.job.space) && s.reports == old(s).reports
    }

    /** `device_error`: the machine's failed call, and whether it was one too many. */
    method DeviceError(run: JobRun, restart: Cursor, ghost e: Event) returns (gone: bool)
      requires Running(run) && Legal(s, e) && (e == Collect(false) || (e.Queue? && !e.ok))
      requires restart == Restart(s)
      modifies this`errors, this`cursor, this`s, run`inflight
      ensures Running(run) && s == Step(index, stride, old(s), e) && gone == s.gone
      ensures run.inflight == [] && s.log == old(s.log) && s.fates == old(s.fates) && s.reports == old(s.reports)
      ensures !gone ==> errors == old(errors) + 1
    {
      Advance(index, stride, s, e);
      StepsBack(s, e);
      s := Step(index, stride, s, e);
      errors := errors + 1;
      run.inflight := [];
      cursor := restart;
      gone := errors >= MAX_SCAN_ERRORS;
      if gone {
        errors := 0;
      }
    }

    lemma StepsBack(s: State, e: Event)
      requires Legal(s, e) && (e == Collect(false) || (e.Queue? && !e.ok))
      ensures Step(index, stride, s, e) == Fault(s, Restart(s))
    {
    }

    /**
     `top_up`: fill the queue to its depth, or decide how the job ends. True if
     the device went while doing so.
     */
    method TopUp(run: JobRun) returns (gone: bool)
      requires Running(run) && !s.gone
      modifies this`errors, this`cursor, this`s, run`inflight, run`ending, run`header, run`looks
      ensures Running(run) && gone == s.gone
      ensures s.log == old(s.log) && s.fates == old(s.fates) && s.reports == old(s.reports)
      ensures !gone ==> errors >= old(errors) && (run.ending.Some? || |run.inflight| == run.depth)
    {
      ghost var log0, fates0, reports0 := s.log, s.fates, s.reports;
      gone := false;
      while !gone && run.ending.None? && |run.inflight| < run.depth
        invariant Running(run) && gone == s.gone
        invariant s.log == log0 && s.fates == fates0 && s.reports == reports0
        invariant !gone ==> errors >= old(errors)
        decreases !gone, run.ending.None?, MAX_SCAN_ERRORS - errors, run.depth - |run.inflight|
      {
        ErrorsBelow();
        gone := TopUpOnce(run);
      }
    }

    /**
     One turn of `top_up`'s loop: the job is over if it has changed, else if its
     space has run out, and else a launch is queued.
     */
    method TopUpOnce(run: JobRun) returns (gone: bool)
      requires Running(run) && !s.gone && run.ending.None? && |run.inflight| < run.depth
      modifies this`errors, this`cursor, this`s, run`inflight, run`ending, run`header, run`looks
      ensures Running(run) && gone == s.gone
      ensures s.log == old(s.log) && s.fates == old(s.fates) && s.reports == old(s.reports)
      ensures run.ending == if old(run.looks) != [] && old(run.looks)[0] then Some(Changed)
                            else if !Fits(old(cursor.en2), run.job.space.extranonce2Size) then Some(Exhausted) else None
      ensures run.ending.Some? ==> !gone && cursor == old(cursor) && run.inflight == old(run.inflight) && errors == old(errors)
      ensures !gone && run.ending.None? ==>
        errors == old(errors) + 1 || (errors == old(errors) && |run.inflight| == old(|run.inflight|) + 1)
    {
      gone := false;
      HeardNext(run.script, run.looks, run.looks != [] && run.looks[0]);
      var changed := run.Look();
      if changed {
        Decided(run, Changed);
      } else if !Fits(cursor.en2, run.job.space.extranonce2Size) {
        Decided(run, Exhausted);
      } else {
        gone := QueueOne(run);
      }
    }

    /** The end of the job is decided: changed, if the last look said so. */
    method Decided(run: JobRun, end: JobEnd)
      requires Agrees() && s.running && s.space == Some(run.job.space) && s.inflight == Ranges(run.inflight)
      requires run.granule >= 1 && BatchOk(batch, run.granule) && s.decided.None? && Legal(s, Decide(end))
      requires run.OkBut(hashes, end)
      modifies this`s, run`ending
      ensures Running(run) && s == old(s).(decided := Some(end)) && run.ending == Some(end)
    {
      Advance(index, stride, s, Decide(end));
      s := Step(index, stride, s, Decide(end));
      run.ending := Some(end);
    }

    /** The header of the extranonce2, built afresh only when it is another one than the last. */
    method HeaderFor(run: JobRun, en2: u64) returns (h: CachedHeader)
      requires Running(run)
      modifies run`header
      ensures Running(run) && h.en2 == en2 && RightHeader(hashes, run.job.space, en2, h.extranonce2, h.header)
    {
      if run.header.None? || run.header.value.en2 != en2 {
        var extranonce2 := Encode(en2, run.job.space.extranonce2Size);
        var header := En2Header(hashes, run.job.space, extranonce2);
        run.header := Some(CachedHeader(en2, extranonce2, header));
      }
      h := run.header.value;
    }

    /** One turn of `top_up`'s loop, from the launch size on. */
    method QueueOne(run: JobRun) returns (gone: bool)
      requires Running(run) && !s.gone && run.ending.None? && |run.inflight| < run.depth
      requires Fits(cursor.en2, run.job.space.extranonce2Size)
      modifies this`errors, this`cursor, this`s, run`inflight, run`header
      ensures Running(run) && gone == s.gone
      ensures s.log == old(s.log) && s.fates == old(s.fates) && s.reports == old(s.reports)
      ensures !gone ==> (errors == old(errors) + 1 || (errors == old(errors) && |run.inflight| == old(|run.inflight|) + 1))
      ensures |run.inflight| == old(|run.inflight|) + 1 ==>
        var range := run.inflight[old(|run.inflight|)].range;
        range.count == Min(Max(Chunk(budget, batch), 1), U32 - range.start)
        && (budget.limit.Some? ==> range.count <= Max(budget.limit.value, 1))
    {
      var max: u32 := Max(Chunk(budget, batch), 1);
      var restart := cursor;
      var (next, range) := Take(cursor, max, stride);
      var h := HeaderFor(run, range.en2);
      var ok: bool := *;   // `enqueue`
      if ok {
        InLine(run, max, next, InFlight(range, h.extranonce2, h.header));
        gone := false;
      } else {
        var from := if run.inflight == [] then restart
                    else Cursor(run.inflight[0].range.en2, run.inflight[0].range.start);
        gone := DeviceError(run, from, Queue(max, false));
      }
    }

    /** The launch is in the queue, and the cursor past it. */
    method InLine(run: JobRun, ghost max: u32, next: Cursor, launch: InFlight)
      requires Running(run) && !s.gone && run.ending.None? && |run.inflight| < run.depth && max >= 1
      requires Fits(cursor.en2, run.job.space.extranonce2Size) && (next, launch.range) == Take(cursor, max, stride)
      requires RightHeader(hashes, run.job.space, launch.range.en2, launch.extranonce2, launch.header)
      modifies this`cursor, this`s, run`inflight
      ensures Running(run) && !s.gone && run.inflight == old(run.inflight) + [launch]
      ensures s.log == old(s.log) && s.fates == old(s.fates) && s.reports == old(s.reports)
    {
      ghost var before := s;
      Advance(index, stride, s, Queue(max, true));
      s := Step(index, stride, s, Queue(max, true));
      cursor := next;
      run.inflight := run.inflight + [launch];
      assert Ranges(run.inflight) == before.inflight + [launch.range];
    }

    lemma ErrorsBelow()
      requires Agrees()
      ensures errors < MAX_SCAN_ERRORS && |s.inflight| <= QUEUE_DEPTH
    {
      ReachedTiles(index, stride, s);
    }

    /** Every hit of a launch re-checked: those in its range whose hash meets the target are shares. */
    method RecheckHits(job: MinerJob, blockTarget: Option<Digest>, done: InFlight, hits: seq<u32>)
      returns (shares: seq<Share>)
      requires Sorted(hits) && done.range.start + done.range.count <= U32
      requires RightHeader(hashes, job.space, done.range.en2, done.extranonce2, done.header)
      requires blockTarget.None? <==> MinedTarget(job.space.bits).None?
      requires blockTarget.Some? ==> BE(blockTarget.value) == MinedTarget(job.space.bits).value
      ensures Increasing(Nonces(shares)) && InRange(done.range, Nonces(shares))
      ensures forall k :: 0 <= k < |shares| ==>
        ShareMatches(hashes, shares[k], job, Found(job.space, done.range.en2, shares[k].nonce))
      ensures forall x: u32 :: x in Nonces(shares) <==> x in hits && IsShare(hashes, job, done, x)
    {
      shares := [];
      for i := 0 to |hits|
        invariant Rechecked(job, done, hits[..i], shares)
      {
        assert hits[..i + 1] == hits[..i] + [hits[i]];
        var share := RecheckOne(job, blockTarget, done, hits[i]);
        RecheckedNext(job, done, hits[..i], shares, hits[i], share);
        if share.Some? { shares := shares + [share.value]; }
      }
      assert hits[..|hits|] == hits;
    }

    /** One nonce: a share exactly if it lies in the launch's range and its hash meets the target. */
    method RecheckOne(job: MinerJob, blockTarget: Option<Digest>, done: InFlight, nonce: u32) returns (share: Option<Share>)
      requires done.range.start + done.range.count <= U32
      requires RightHeader(hashes, job.space, done.range.en2, done.extranonce2, done.header)
      requires blockTarget.None? <==> MinedTarget(job.space.bits).None?
      requires blockTarget.Some? ==> BE(blockTarget.value) == MinedTarget(job.space.bits).value
      ensures share.Some? <==> IsShare(hashes, job, done, nonce)
      ensures share.Some? ==> ShareMatches(hashes, share.value, job, Found(job.space, done.range.en2, nonce))
    {
      var offset := if nonce >= done.range.start then nonce - done.range.start else nonce + U32 - done.range.start;
      if offset >= done.range.count { return None; }
      share := Recheck(hashes, job, done.extranonce2, nonce, Serialize(done.header.(nonce := nonce)), blockTarget);
    }

    /** `shares` are those of `hits`, in their order, as the machine records them. */
    ghost predicate Rechecked(job: MinerJob, done: InFlight, hits: seq<u32>, shares: seq<Share>)
    {
      && Increasing(Nonces(shares)) && InRange(done.range, Nonces(shares))
      && (forall k :: 0 <= k < |shares| ==>
            ShareMatches(hashes, shares[k], job, Found(job.space, done.range.en2, shares[k].nonce)))
      && (forall x: u32 :: x in Nonces(shares) <==> x in hits && IsShare(hashes, job, done, x))
    }

    lemma RecheckedNext(job: MinerJob, done: InFlight, hits: seq<u32>, shares: seq<Share>, nonce: u32, share: Option<Share>)
      requires Rechecked(job, done, hits, shares) && forall x: u32 :: x in hits ==> x < nonce
      requires share.Some? <==> IsShare(hashes, job, done, nonce)
      requires share.Some? ==> ShareMatches(hashes, share.value, job, Found(job.space, done.range.en2, nonce))
      ensures Rechecked(job, done, hits + [nonce], if share.Some? then shares + [share.value] else shares)
    {
      var more := if share.Some? then shares + [share.value] else shares;
      assert Nonces(more) == Nonces(shares) + if share.Some? then [nonce as nat] else [];
      forall k | 0 <= k < |shares| ensures shares[k].nonce < nonce {
        assert Nonces(shares)[k] in Nonces(shares);
      }
    }

    /** `finish`: of the nonces the launch reported exactly those that are shares go to the pool, each once. */
    method Finish(run: JobRun, done: InFlight, raw: seq<u32>, reported: nat, elapsed: nat)
      requires Running(run) && !s.gone && Holds(s)
      requires s.log != [] && s.log[|s.log| - 1] == Entry(run.job.space, done.range)
      requires RightHeaders(hashes, run.job.space, [done])
      modifies this`collected, this`budget, this`batch, this`submitted, this`asked, this`s
      ensures Running(run) && !s.gone && !Holds(s) && s.log == old(s.log) && s.reports == old(s.reports)
      ensures collected == old(collected) + 1
      ensures exists more :: submitted == old(submitted) + more && SharesOf(run.job, done, raw, more)
      ensures Resized(old(budget), old(batch), run.granule, done.range.count, reported, elapsed, budget, batch)
    {
      InOneCounter(run, done);
      OneRight(hashes, run.job.space, done);
      var hits := SortDedup(raw);
      var shares := RecheckHits(run.job, run.blockTarget, done, hits);
      Submit(run, Entry(run.job.space, done.range), shares, Nonces(shares));
      assert SharesOf(run.job, done, raw, shares);
      Resize(run, done.range.count, reported, elapsed);
    }

    ghost predicate SharesOf(job: MinerJob, done: InFlight, raw: seq<u32>, shares: seq<Share>)
    {
      && Increasing(Nonces(shares))
      && forall x: u32 :: x in Nonces(shares) <==> x in raw && IsShare(hashes, job, done, x)
    }

    /** The launch size, from the hits the launch reported and the time a full-size one would have taken. */
    method Resize(run: JobRun, count: u32, reported: nat, elapsed: nat)
      requires Running(run)
      modifies this`budget, this`batch
      ensures Running(run) && Resized(old(budget), old(batch), run.granule, count, reported, elapsed, budget, batch)
    {
      var projected := Projected(elapsed, batch, count);
      budget := Record(budget, count, reported);
      batch := NextBatch(run.granule, projected);
    }

    method NextBatch(granule: u32, projected: nat) returns (next: u32)
      requires granule >= 1 && BatchOk(batch, granule)
      ensures BatchOk(next, granule)
      ensures next == Autotune(batch, projected, BC3_TARGET_LAUNCH, granule, MinBatch(granule), MaxBatch(granule))
    {
      AutotuneOk(batch, projected, BC3_TARGET_LAUNCH, granule);
      MinBatchFits(granule);
      next := Autotune(batch, projected, BC3_TARGET_LAUNCH, granule, MinBatch(granule), MaxBatch(granule));
    }

    method Submit(run: JobRun, ghost entry: Entry, shares: seq<Share>, ghost found: seq<nat>)
      requires Running(run) && !s.gone && Holds(s) && entry.space == run.job.space
      requires s.log != [] && s.log[|s.log| - 1] == entry
      requires |shares| == |found| && Increasing(found) && InRange(entry.range, found)
      requires forall k :: 0 <= k < |found| ==>
        ShareMatches(hashes, shares[k], run.job, Found(run.job.space, entry.range.en2, found[k]))
      modifies this`collected, this`submitted, this`asked, this`s
      ensures Running(run) && !s.gone && !Holds(s) && s.log == old(s.log) && s.reports == old(s.reports)
      ensures collected == old(collected) + 1 && submitted == old(submitted) + shares
    {
      ghost var before := s;
      AllMatchMore(hashes, submitted, asked, s.shares, shares, run.job, Founds(entry, found));
      Advance(index, stride, s, Event.Finish(found));
      s := Step(index, stride, s, Event.Finish(found));
      SettleHolds(before, Finished);
      assert s.shares == before.shares + Founds(entry, found);
      submitted := submitted + shares;
      asked := asked + seq(|shares|, _ => run.job);
      collected := collected + 1;
    }

    lemma SettleHolds(s: State, f: Fate)
      requires s.fates != [] && f != Held
      ensures !Holds(Settle(s, f))
    {
    }

    lemma InOneCounter(run: JobRun, done: InFlight)
      requires Agrees() && s.log != [] && s.log[|s.log| - 1] == Entry(run.job.space, done.range)
      ensures done.range.start + done.range.count <= U32
    {
      ReachedTiles(index, stride, s);
      if done.range.count >= 1 {
        NoncesBelow(index, stride, s, done.range.start + done.range.count - 1);
      }
    }

    /** One turn of `pump`'s loop: how the job ended, if it did. */
    method Turn(run: JobRun) returns (end: Option<JobEnd>)
      requires Running(run) && !s.gone && !Holds(s)
      modifies this`errors, this`cursor, this`s, this`collected, this`budget, this`batch, this`submitted, this`asked, run
      ensures Running(run) && OnlyLogged(run)
      ensures end == Some(DeviceGone) <==> s.gone
      ensures end.Some? && !s.gone ==> run.inflight == [] && !Holds(s) && run.ending == end
      ensures end.None? ==> !Holds(s) && Covered(s) <= Capacity(s)
      ensures end.None? ==> Covered(s) > Covered(old(s)) || (Covered(s) == Covered(old(s)) && errors > old(errors))
    {
      ReachedTiles(index, stride, s);
      CoveredBound(index, stride, s);
      var gone := TopUp(run);
      if gone {
        return Some(DeviceGone);
      }
      if run.inflight == [] {
        return run.ending;
      }
      var done := run.inflight[0];
      FrontRight(hashes, run.job.space, run.inflight);
      var ok;
      ok, gone := CollectOne(run);
      if gone {
        return Some(DeviceGone);
      }
      if ok {
        gone := FinishBehind(run, done);
        if gone {
          return Some(DeviceGone);
        }
      }
      end := None;
    }

    /** The launch that came back is finished, behind the next one being queued. */
    method FinishBehind(run: JobRun, done: InFlight) returns (gone: bool)
      requires Running(run) && !s.gone && Holds(s)
      requires s.log != [] && s.log[|s.log| - 1] == Entry(run.job.space, done.range)
      requires RightHeaders(hashes, run.job.space, [done])
      modifies this`errors, this`cursor, this`s, this`collected, this`budget, this`batch, this`submitted, this`asked, run
      ensures Running(run) && gone == s.gone && s.log == old(s.log) && s.reports == old(s.reports)
      ensures !gone ==> !Holds(s)
      // The next launch was in line before this one was finished.
      ensures !gone && run.depth > 1 ==> run.ending.Some? || |run.inflight| == run.depth
    {
      gone := false;
      if run.depth > 1 { gone := TopUp(run); }
      var raw: seq<u32>, reported: nat, elapsed: nat := *, *, *;   // the launch's hit list, how many it had, its time
      if !gone { Finish(run, done, raw, reported, elapsed); }
    }

    /** `pump`: turn after turn, until one of them ends the job. */
    method Pump(run: JobRun) returns (end: JobEnd)
      requires Running(run) && !s.gone && !Holds(s)
      modifies this`errors, this`cursor, this`s, this`collected, this`budget, this`batch, this`submitted, this`asked, run
      ensures Running(run) && OnlyLogged(run)
      ensures end == DeviceGone <==> s.gone
      ensures end != DeviceGone ==> run.inflight == [] && !Holds(s) && run.ending == Some(end)
    {
      var r: Option<JobEnd> := None;
      ReachedBound(index, stride, s);
      while r.None?
        invariant Running(run) && OnlyLogged(run)
        invariant r == Some(DeviceGone) <==> s.gone
        invariant r.Some? && !s.gone ==> run.inflight == [] && !Holds(s) && run.ending == r
        invariant r.None? ==> !Holds(s) && Covered(s) <= Capacity(s)
        decreases r.None?, Capacity(s) - Covered(s), MAX_SCAN_ERRORS - errors
      {
        ErrorsBelow();
        r := Turn(run);
      }
      end := r.value;
    }

    /** `collect`, and what a failure of it leads to. */
    method CollectOne(run: JobRun) returns (ok: bool, gone: bool)
      requires Running(run) && !s.gone && !Holds(s) && run.inflight != []
      modifies this`errors, this`cursor, this`s, run`inflight
      ensures Running(run) && gone == s.gone && OnlyLogged(run)
      ensures ok ==> !gone && Holds(s) && s.log == old(s.log) + [Entry(run.job.space, old(run.inflight[0]).range)]
      ensures ok ==> Covered(old(s)) < Covered(s) <= Capacity(s)
      ensures !ok && !gone ==> errors == old(errors) + 1 && s.log == old(s.log) && !Holds(s)
    {
      ok := *;
      gone := false;
      if ok {
        ghost var before, range := s, run.inflight[0].range;
        Collected(run);
        CollectedLaunch(before, range);
      } else {
        var done := run.inflight[0];
        gone := DeviceError(run, Cursor(done.range.en2, done.range.start), Collect(false));
      }
    }

    method Collected(run: JobRun)
      requires Running(run) && !s.gone && !Holds(s) && run.inflight != []
      modifies this`errors, this`s, run`inflight
      ensures Running(run) && !s.gone && OnlyLogged(run) && Holds(s)
      ensures s.log == old(s.log) + [Entry(run.job.space, old(run.inflight[0]).range)]
      ensures s.space == old(s).space
    {
      ghost var before := s;
      Advance(index, stride, s, Collect(true));
      s := Step(index, stride, s, Collect(true));
      run.inflight := run.inflight[1..];
      errors := 0;
      assert Ranges(run.inflight) == before.inflight[1..];
    }

    lemma CollectedLaunch(before: State, range: Range)
      requires index < stride && Reached(index, stride, s)
      requires before.space.Some? && s.space == before.space
      requires s.log == before.log + [Entry(before.space.value, range)]
      ensures Covered(before) < Covered(s) <= Capacity(s)
    {
      ReachedTiles(index, stride, s);
      CoveredBound(index, stride, s);
      var m := |before.log|;
      OfSnoc(before.log, Entry(before.space.value, range), before.space.value);
      var rs := Of(s.log, before.space.value);
      assert Tiles(index, stride, rs) && rs[|rs| - 1] == range;
      CollectGrows(before, range);
    }

    lemma CollectGrows(before: State, range: Range)
      requires before.space.Some? && s.space == before.space && range.count >= 1
      requires s.log == before.log + [Entry(before.space.value, range)]
      ensures Covered(s) > Covered(before)
    {
      OfSnoc(before.log, Entry(before.space.value, range), before.space.value);
      TotalSnoc(Of(before.log, before.space.value), range);
    }

    /** `mine_job` has returned, and the caller has not yet looked at how. */
    ghost predicate Returned(job: MinerJob)
      reads this
    {
      && Agrees() && s.running && s.space == Some(job.space) && prev == Some(job)
      && (s.gone || (s.inflight == [] && !Holds(s) && s.decided.Some?))
    }

    /**
     `mine_job`: one job from its start to whatever ends it. Said to be
     exhausted, the space is - unless, and only
     unless, a launch failed to come back after that was decided (`late` of the
     machine, which LateIn reads off its run).
     */
    method MineJob(job: MinerJob, depth: nat, granule: u32, looks: seq<bool>) returns (end: JobEnd, ghost left: seq<bool>)
      requires Idle() && Legal(s, Begin(job.space)) && 1 <= depth <= QUEUE_DEPTH && granule >= 1
      modifies this`errors, this`cursor, this`s, this`collected, this`budget, this`batch, this`submitted, this`asked, this`prev
      ensures Returned(job) && Grew(old(s).log, s.log, job.space) && s.reports == old(s).reports
      ensures if s.gone then end == DeviceGone else s.decided == Some(end) && end != DeviceGone
      ensures end == Exhausted ==> (SpaceDone(s, job.space) <==> !s.late)
      ensures Heard(looks, left, s.decided == Some(Changed))
    {
      var blockTarget := CompactToTarget(job.space.bits);
      var run := new JobRun(job, depth, granule, blockTarget, looks);
      NothingHeard(looks);
      StartOn(job, granule);
      end := Pump(run);
      prev := Some(job);
      left := run.looks;
      if end == Exhausted { ReachedEnd(index, stride, s, job.space); }
    }

    /** Where the job starts: where the last one stopped, if it covers the same space. */
    method StartOn(job: MinerJob, granule: u32)
      requires Idle() && Legal(s, Begin(job.space)) && granule >= 1
      modifies this`cursor, this`batch, this`s
      ensures Agrees() && BatchOk(batch, granule) && batch == StartBatch(old(batch), granule)
      ensures s.running && !s.gone && s.space == Some(job.space) && s.inflight == [] && !Holds(s) && s.log == old(s).log
      ensures s.decided.None? && s.reports == old(s).reports
    {
      ReachedTiles(index, stride, s);
      Advance(index, stride, s, Begin(job.space));
      s := Step(index, stride, s, Begin(job.space));
      if prev.None? || !SameSearchSpace(prev.value, job) {
        cursor := Cursor(index, 0);
      }
      batch := FirstBatch(granule);
    }

    method FirstBatch(granule: u32) returns (first: u32)
      requires granule >= 1
      ensures BatchOk(first, granule) && first == StartBatch(batch, granule)
    {
      StartBatchOk(batch, granule);
      MinBatchFits(granule);
      first := StartBatch(batch, granule);
    }

    /**
     What `run_gpu_worker` does when a job has ended: launches that came back
     give the reopens back, a gone device takes one; the sixth in a row, or a
     device that does not open again, ends the worker.
     */
    method AfterJob(end: JobEnd) returns (alive: bool, ghost reopened: bool)
      requires Agrees() && Legal(s, Event.End(true)) && s.alive && (end == DeviceGone <==> s.gone)
      requires prev.Some? && s.space == Some(prev.value.space)
      modifies this`errors, this`collected, this`reopens, this`s
      ensures Idle() && s == Step(index, stride, old(s), Event.End(reopened)) && alive == s.alive
      ensures reopens == (if old(collected) > 0 then 0 else old(reopens)) + (if end == DeviceGone then 1 else 0)
      ensures alive <==> end == DeviceGone ==> reopens <= MAX_REOPENS && reopened
    {
      var opens: bool := *;   // `open_backend_with_fallback`
      reopened := opens;
      ReachedLively(index, stride, s);
      Advance(index, stride, s, Event.End(reopened));
      s := Step(index, stride, s, Event.End(reopened));
      if collected > 0 {
        reopens := 0;
      }
      collected := 0;
      alive := true;
      if end == DeviceGone {
        reopens := reopens + 1;
        if reopens > MAX_REOPENS || !opens {
          alive := false;
        } else {
          errors := 0;   // `reopened`
        }
      }
    }

    /**
     The loop of `run_gpu_worker` over the jobs that come, none of a space
     that was left before: each is mined and reported in turn, all of them
     unless the worker gives its device up on the way.
     */
    method Run(jobs: seq<MinerJob>)
      requires Idle() && s == Init(index) && NoReturn(jobs)
      requires forall i :: 0 <= i < |jobs| ==> jobs[i].space.extranonce2Size <= 7
      modifies this
      ensures Idle() && Inv(index, stride, s)
      ensures exists i :: 0 <= i <= |jobs| && Between(jobs, i) && (i < |jobs| ==> !s.alive)
    {
      var i, alive := 0, true;
      while i < |jobs| && alive
        invariant 0 <= i <= |jobs| && Idle() && alive == s.alive && Between(jobs, i)
      {
        var depth, granule := *, *;
        alive := OneJob(jobs, i, depth, granule);
        i := i + 1;
      }
      ReachedTiles(index, stride, s);
    }

    /** The first i jobs have been mined and reported. */
    ghost predicate Between(jobs: seq<MinerJob>, i: nat)
      requires i <= |jobs|
      reads this`s
    {
      && (i > 0 ==> s.space == Some(jobs[i - 1].space))
      && LoggedFor(s.log, jobs[..i])
      && ReportsFor(s.reports, jobs, i)
    }

    method OneJob(jobs: seq<MinerJob>, i: nat, depth: bool, granule: u32) returns (alive: bool)
      requires i < |jobs| && NoReturn(jobs) && jobs[i].space.extranonce2Size <= 7
      requires Idle() && s.alive && Between(jobs, i)
      modifies this
      ensures Idle() && alive == s.alive && Between(jobs, i + 1)
    {
      ghost var log, reports := s.log, s.reports;
      MayBegin(jobs, i);
      alive := MinedAndEnded(jobs[i], if depth then QUEUE_DEPTH else 1, Max(granule, 1));
      StillLogged(log, s.log, jobs, i);
      StillReported(reports, s.reports, jobs, i);
    }

    lemma MayBegin(jobs: seq<MinerJob>, i: nat)
      requires i < |jobs| && NoReturn(jobs) && jobs[i].space.extranonce2Size <= 7
      requires Idle() && s.alive && Between(jobs, i)
      ensures Legal(s, Begin(jobs[i].space))
    {
      NotLogged(s.log, jobs, i);
    }

    method MinedAndEnded(job: MinerJob, depth: nat, granule: u32) returns (alive: bool)
      requires Idle() && Legal(s, Begin(job.space)) && 1 <= depth <= QUEUE_DEPTH && granule >= 1
      modifies this
      ensures Idle() && alive == s.alive && s.space == Some(job.space) && Grew(old(s).log, s.log, job.space)
      ensures |s.reports| == |old(s).reports| + 1 && s.reports[..|old(s).reports|] == old(s).reports
      ensures s.reports[|old(s).reports|].space == job.space
    {
      var looks: seq<bool> := *;
      var end, left := MineJob(job, depth, granule, looks);
      ReachedLively(index, stride, s);
      ghost var mined, reopened := s, true;
      alive, reopened := AfterJob(end);
      OneReport(mined, reopened, job.space);
    }

    lemma OneReport(s: State, reopened: bool, sp: Space)
      requires Legal(s, Event.End(reopened)) && s.space == Some(sp)
      ensures var s' := Step(index, stride, s, Event.End(reopened));
        && s'.space == s.space && s'.log == s.log
        && |s'.reports| == |s.reports| + 1 && s'.reports[..|s.reports|] == s.reports && s'.reports[|s.reports|].space == sp
    {
    }
  }

  /** A space once left does not come back. */
  ghost predicate NoReturn(jobs: seq<MinerJob>)
  {
    forall i, k :: 0 <= i < k < |jobs| && jobs[i].space == jobs[k].space ==> jobs[k - 1].space == jobs[k].space
  }

  ghost predicate IsAsked(jobs: seq<MinerJob>, sp: Space)
  {
    exists j :: 0 <= j < |jobs| && jobs[j].space == sp
  }

  ghost predicate LoggedFor(log: seq<Entry>, jobs: seq<MinerJob>)
  {
    forall k :: 0 <= k < |log| ==> IsAsked(jobs, log[k].space)
  }

  ghost predicate ReportsFor(reports: seq<Report>, jobs: seq<MinerJob>, i: nat)
    requires i <= |jobs|
  {
    |reports| == i && forall k :: 0 <= k < i ==> reports[k].space == jobs[k].space
  }

  lemma StillReported(before: seq<Report>, after: seq<Report>, jobs: seq<MinerJob>, i: nat)
    requires i < |jobs| && ReportsFor(before, jobs, i)
    requires |after| == i + 1 && after[..i] == before && after[i].space == jobs[i].space
    ensures ReportsFor(after, jobs, i + 1)
  {
    forall k | 0 <= k < i + 1 ensures after[k].space == jobs[k].space {
      if k < i { assert after[..i][k] == before[k]; }
    }
  }

  lemma StillLogged(before: seq<Entry>, after: seq<Entry>, jobs: seq<MinerJob>, i: nat)
    requires i < |jobs| && LoggedFor(before, jobs[..i]) && Grew(before, after, jobs[i].space)
    ensures LoggedFor(after, jobs[..i + 1])
  {
    forall k | 0 <= k < |after|
      ensures IsAsked(jobs[..i + 1], after[k].space)
    {
      if k < |before| {
        assert before[k] == after[k];
        var j :| 0 <= j < |jobs[..i]| && jobs[..i][j].space == before[k].space;
        assert jobs[..i + 1][j].space == after[k].space;
      } else {
        assert jobs[..i + 1][i].space == after[k].space;
      }
    }
  }

  lemma NotLogged(log: seq<Entry>, jobs: seq<MinerJob>, i: nat)
    requires i < |jobs| && NoReturn(jobs) && LoggedFor(log, jobs[..i])
    ensures (i > 0 && jobs[i - 1].space == jobs[i].space) || Of(log, jobs[i].space) == []
  {
    if i == 0 || jobs[i - 1].space != jobs[i].space {
      forall k | 0 <= k < |log|
        ensures log[k].space != jobs[i].space
      {
        assert IsAsked(jobs[..i], log[k].space);
        var j :| 0 <= j < |jobs[..i]| && jobs[..i][j].space == log[k].space;
        assert jobs[j].space == log[k].space;
      }
      NoneOf(log, jobs[i].space);
    }
  }

  lemma {:induction false} NoneOf(log: seq<Entry>, sp: Space)
    requires forall k :: 0 <= k < |log| ==> log[k].space != sp
    ensures Of(log, sp) == []
  {
    if log != [] {
      NoneOf(log[..|log| - 1], sp);
    }
  }
}
