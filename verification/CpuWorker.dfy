/**
 A CPU thread as the code runs it (src/worker.rs): `mine_job` over batches of
 nonces with the header patched in place, the resume point, `start_on`. It
 takes the steps of Scheduler.dfy's machine with launches of one nonce.
 */
module CpuMining {
  import opened Machine
  import opened SearchSpace
  import opened Scheduler
  import opened Targets
  import opened Headers
  import Gpu = GpuMining

  const BATCH: nat := 4

  /** 2^64 - 2^56: what a counter of up to seven bytes leaves to step by. */
  const ROOM: nat := 0xff00_0000_0000_0000

  /** `overflowing_add(1)`; it wrapped when the result is 0. */
  function NextNonce(n: u32): (r: u32)
  {
    if n == 0xffff_ffff then 0 else n + 1
  }

  /** `resume_point`: where a thread that stops goes on later. */
  function ResumePoint(en2: u64, nextNonce: u32, wrapped: bool, stride: u64): (c: Cursor)
  {
    if wrapped then Cursor(Min(en2 + stride, U64 - 1), 0) else Cursor(en2, nextNonce)
  }

  ghost predicate Ready(s: State, sp: Space)
  {
    && s.running && !s.gone && s.decided.None? && s.space == Some(sp) && s.inflight == [] && !Holds(s)
    && sp.extranonce2Size <= 7
  }

  /** Hashing the nonce under the cursor, as the machine's three steps. */
  lemma HashNext(w: u64, n: u64, s: State, sp: Space, hits: seq<nat>) returns (s': State)
    requires w < n && Reached(w, n, s) && Ready(s, sp) && Fits(s.cursor.en2, sp.extranonce2Size)
    requires hits == [] || hits == [s.cursor.nonce]
    ensures Reached(w, n, s') && Ready(s', sp)
    ensures s'.cursor == ResumePoint(s.cursor.en2, NextNonce(s.cursor.nonce), NextNonce(s.cursor.nonce) == 0, n)
    ensures var entry := Entry(sp, Range(s.cursor.en2, s.cursor.nonce, 1));
      s'.log == s.log + [entry] && s'.shares == s.shares + Founds(entry, hits) && s'.reports == s.reports
  {
    var entry := Entry(sp, Range(s.cursor.en2, s.cursor.nonce, 1));
    var s1 := QueueNext(w, n, s, sp);
    s' := Step(w, n, s1, Collect(true));
    Advance(w, n, s1, Collect(true));
    assert s'.inflight == [] && Holds(s') && s'.reports == s.reports && s'.log == s.log + [entry] && s'.shares == s.shares && s'.cursor == s1.cursor;
    s' := FinishNext(w, n, s', sp, entry, hits);
  }

  lemma QueueNext(w: u64, n: u64, s: State, sp: Space) returns (s': State)
    requires Reached(w, n, s) && Ready(s, sp) && Fits(s.cursor.en2, sp.extranonce2Size)
    ensures Reached(w, n, s') && s'.running && !s'.gone && s'.decided.None? && s'.space == Some(sp) && !Holds(s')
    ensures s'.reports == s.reports
    ensures s'.inflight == [Range(s.cursor.en2, s.cursor.nonce, 1)] && s'.log == s.log && s'.shares == s.shares
    ensures s'.cursor == ResumePoint(s.cursor.en2, NextNonce(s.cursor.nonce), NextNonce(s.cursor.nonce) == 0, n)
  {
    Advance(w, n, s, Queue(1, true));
    s' := Step(w, n, s, Queue(1, true));
  }

  lemma FinishNext(w: u64, n: u64, s: State, sp: Space, entry: Entry, hits: seq<nat>) returns (s': State)
    requires Reached(w, n, s) && s.running && !s.gone && s.decided.None? && s.space == Some(sp) && Holds(s) && s.inflight == []
    requires s.log != [] && s.log[|s.log| - 1] == entry && entry.range.count == 1 && sp.extranonce2Size <= 7
    requires hits == [] || hits == [entry.range.start]
    ensures Reached(w, n, s') && Ready(s', sp) && s'.log == s.log && s'.cursor == s.cursor
    ensures s'.shares == s.shares + Founds(entry, hits) && s'.reports == s.reports
  {
    Advance(w, n, s, Finish(hits));
    s' := Step(w, n, s, Finish(hits));
  }

  lemma HashNextCovers(w: u64, n: u64, s: State, s': State, sp: Space, r: Range)
    requires w < n && Reached(w, n, s') && s.space == s'.space == Some(sp) && s'.log == s.log + [Entry(sp, r)] && r.count == 1
    ensures Gpu.Covered(s) < Gpu.Covered(s') <= Gpu.Capacity(s')
  {
    ReachedTiles(w, n, s');
    Gpu.CoveredBound(w, n, s');
    OfSnoc(s.log, Entry(sp, r), sp);
    TotalSnoc(Of(s.log, sp), r);
  }

  class Thread {
    const hashes: Hashes
    const index: u64
    const stride: u64
    var prev: Option<MinerJob>
    var en2: u64
    var nonce: u32
    var submitted: seq<Share>
    ghost var asked: seq<MinerJob>
    ghost var s: State

    /** Far more workers than a machine has still leave the counter room to step past its last value. */
    constructor (hashes: Hashes, index: u64, totalWorkers: nat)
      requires index < totalWorkers && totalWorkers <= ROOM
      ensures this.hashes == hashes && this.index == index && this.stride == totalWorkers
      ensures Idle() && s == Init(index)
    {
      this.hashes, this.index, this.stride := hashes, index, totalWorkers;
      prev, en2, nonce, submitted := None, index, 0, [];
      asked, s := [], Init(index);
      new;
      StartReached(index, stride);
    }

    ghost predicate Agrees()
      reads this
    {
      && index < stride && stride <= ROOM && Reached(index, stride, s)
      && Gpu.AllMatch(hashes, submitted, asked, s.shares)
    }

    ghost predicate Idle()
      reads this
    {
      && Agrees() && !s.running && s.alive && s.cursor == Cursor(en2, nonce)
      && (prev.None? <==> s.space.None?) && (prev.Some? ==> s.space == Some(prev.value.space))
    }

    ghost predicate Mining(job: MinerJob)
      reads this
    {
      Agrees() && Ready(s, job.space)
    }

    /** One nonce: the header patched, hashed and, if it meets the target, submitted. */
    method HashOne(job: MinerJob, blockTarget: Option<Digest>, extranonce2: seq<u8>, ghost b: BlockHeader, header: array<u8>, n: u32)
      requires Mining(job) && s.cursor.nonce == n && Fits(s.cursor.en2, job.space.extranonce2Size)
      requires Gpu.RightHeader(hashes, job.space, s.cursor.en2, extranonce2, b)
      requires header.Length == 80 && header[..76] == Front(b)
      requires blockTarget.None? <==> MinedTarget(job.space.bits).None?
      requires blockTarget.Some? ==> BE(blockTarget.value) == MinedTarget(job.space.bits).value
      modifies this`submitted, this`asked, this`s, header
      ensures Mining(job) && header[..76] == Front(b)
      ensures s.log == old(s.log) + [Entry(job.space, Range(old(s.cursor.en2), n, 1))] && s.reports == old(s.reports)
      ensures s.cursor == ResumePoint(old(s.cursor.en2), NextNonce(n), NextNonce(n) == 0, stride)
      // Submitted exactly when the hash meets the target.
      ensures |submitted| == old(|submitted|) +
        if Meets(hashes.pow(Serialize(b.(nonce := n))), job.shareTarget) then 1 else 0
    {
      var le := ToLE(n, 4);
      header[76], header[77], header[78], header[79] := le[0], le[1], le[2], le[3];
      assert header[..] == header[..76] + le;
      PatchedHeader(b, n);
      var share := Recheck(hashes, job, extranonce2, n, header[..], blockTarget);
      ghost var hits := if share.Some? then [n] else [];
      Hashed(job, share, hits);
    }

    method Hashed(job: MinerJob, share: Option<Share>, ghost hits: seq<nat>)
      requires Mining(job) && Fits(s.cursor.en2, job.space.extranonce2Size)
      requires hits == if share.Some? then [s.cursor.nonce] else []
      requires share.Some? ==> Gpu.ShareMatches(hashes, share.value, job, Found(job.space, s.cursor.en2, s.cursor.nonce))
      modifies this`submitted, this`asked, this`s
      ensures Mining(job) && s.log == old(s.log) + [Entry(job.space, Range(old(s.cursor.en2), old(s.cursor.nonce), 1))]
      ensures s.reports == old(s.reports)
      ensures s.cursor == ResumePoint(old(s.cursor.en2), NextNonce(old(s.cursor.nonce)), NextNonce(old(s.cursor.nonce)) == 0, stride)
      ensures |submitted| == old(|submitted|) + if share.Some? then 1 else 0
    {
      ghost var before := s;
      s := HashNext(index, stride, s, job.space, hits);
      if share.Some? {
        submitted := submitted + [share.value];
        asked := asked + [job];
      }
    }

    /**
     The nonces of one extranonce2 from `start` on, in batches, until they run
     out - then `n` is 0 - or the job changes, looked for once a batch: `looks`
     is what the looks from here on will find, `left` what is left of it.
     */
    method Grind(job: MinerJob, blockTarget: Option<Digest>, extranonce2: seq<u8>, b: BlockHeader, start: u32, looks: seq<bool>)
      returns (n: u32, changed: bool, left: seq<bool>)
      requires Mining(job) && s.cursor == Cursor(en2, start) && Fits(en2, job.space.extranonce2Size)
      requires Gpu.RightHeader(hashes, job.space, en2, extranonce2, b)
      requires blockTarget.None? <==> MinedTarget(job.space.bits).None?
      requires blockTarget.Some? ==> BE(blockTarget.value) == MinedTarget(job.space.bits).value
      modifies this`submitted, this`asked, this`s
      ensures Mining(job) && s.cursor == ResumePoint(en2, n, n == 0, stride) && (changed || n == 0)
      ensures Gpu.Heard(looks, left, changed)
      ensures Gpu.Grew(old(s).log, s.log, job.space) && s.reports == old(s).reports
      ensures Gpu.Covered(old(s)) < Gpu.Covered(s) <= Gpu.Capacity(s)
    {
      var bytes := Serialize(b);
      var header := new u8[80](i requires 0 <= i < 80 => bytes[i]);
      assert header[..76] == Front(b);
      ghost var first := s;
      n, changed, left := start, false, looks;
      Gpu.NothingHeard(looks);
      var over := false;
      while !over
        invariant Mining(job) && header[..76] == Front(b) && fresh(header) && Gpu.Grew(first.log, s.log, job.space) && s.reports == first.reports
        invariant Gpu.Heard(looks, left, changed) && (changed ==> over)
        invariant !over ==> s.cursor == Cursor(en2, n)
        invariant over ==> s.cursor == ResumePoint(en2, n, n == 0, stride) && (changed || n == 0)
        invariant Gpu.Covered(first) <= Gpu.Covered(s) && (over ==> Gpu.Covered(first) < Gpu.Covered(s) <= Gpu.Capacity(s))
        decreases !over, Gpu.Capacity(s) - Gpu.Covered(s)
      {
        n := Batch(job, blockTarget, extranonce2, b, header, n);
        // A new generation; looked at once per batch.
        changed := left != [] && left[0];
        Gpu.HeardNext(looks, left, changed);
        if left != [] { left := left[1..]; }
        over := changed || n == 0;
      }
    }

    method Batch(job: MinerJob, blockTarget: Option<Digest>, extranonce2: seq<u8>, ghost b: BlockHeader, header: array<u8>, start: u32)
      returns (n: u32)
      requires Mining(job) && s.cursor == Cursor(en2, start) && Fits(en2, job.space.extranonce2Size)
      requires Gpu.RightHeader(hashes, job.space, en2, extranonce2, b)
      requires header.Length == 80 && header[..76] == Front(b)
      requires blockTarget.None? <==> MinedTarget(job.space.bits).None?
      requires blockTarget.Some? ==> BE(blockTarget.value) == MinedTarget(job.space.bits).value
      modifies this`submitted, this`asked, this`s, header
      ensures Mining(job) && header[..76] == Front(b) && Gpu.Grew(old(s).log, s.log, job.space) && s.reports == old(s).reports
      ensures s.cursor == ResumePoint(en2, n, n == 0, stride)
      ensures Gpu.Covered(old(s)) < Gpu.Covered(s) <= Gpu.Capacity(s)
    {
      ghost var first := s;
      n := start;
      var done, wrapped := 0, false;
      while done < BATCH && !wrapped
        invariant 0 <= done <= BATCH && Mining(job) && header[..76] == Front(b) && Gpu.Grew(first.log, s.log, job.space) && s.reports == first.reports
        invariant s.cursor == ResumePoint(en2, n, wrapped, stride) && (wrapped ==> n == 0) && (done > 0 ==> (wrapped <==> n == 0))
        invariant if done == 0 then s == first && !wrapped else Gpu.Covered(first) < Gpu.Covered(s) <= Gpu.Capacity(s)
      {
        ghost var before := s;
        HashOne(job, blockTarget, extranonce2, b, header, n);
        HashNextCovers(index, stride, before, s, job.space, Range(en2, n, 1));
        done := done + 1;
        n := NextNonce(n);
        wrapped := n == 0;   // the nonces of this extranonce2 ran out
      }
    }

    /** Grinding `job` since the state was `before`. */
    ghost predicate Going(job: MinerJob, before: State)
      reads this
    {
      && Mining(job) && s.cursor == Cursor(en2, nonce)
      && Gpu.Grew(before.log, s.log, job.space) && s.reports == before.reports
    }

    /** Done with `job`, and why is decided. */
    ghost predicate Over(job: MinerJob, before: State, exhausted: bool)
      reads this
    {
      && Agrees() && s.cursor == Cursor(en2, nonce) && s.space == Some(job.space)
      && Legal(s, End(true)) && !s.gone && !s.late && s.decided == Some(if exhausted then Exhausted else Changed)
      && Gpu.Grew(before.log, s.log, job.space) && s.reports == before.reports
    }

    /**
     `mine_job`: grind until the job changes; true when instead the thread's
     counters have run out - and then nothing of its part of the space is left.
     */
    method MineJob(job: MinerJob, looks: seq<bool>) returns (exhausted: bool, ghost left: seq<bool>)
      requires Mining(job) && s.cursor == Cursor(en2, nonce)
      modifies this`submitted, this`asked, this`s, this`en2, this`nonce
      ensures Over(job, old(s), exhausted) && (exhausted ==> SpaceDone(s, job.space))
      ensures Gpu.Heard(looks, left, !exhausted)
    {
      var blockTarget := CompactToTarget(job.space.bits);
      var rest;
      exhausted, rest := Counters(job, blockTarget, looks);
      left := rest;
      ghost var end := if exhausted then Exhausted else Changed;
      ReachedDecision(index, stride, s);
      Advance(index, stride, s, Decide(end));
      s := Step(index, stride, s, Decide(end));
    }

    method Counters(job: MinerJob, blockTarget: Option<Digest>, looks: seq<bool>) returns (exhausted: bool, left: seq<bool>)
      requires Mining(job) && s.cursor == Cursor(en2, nonce)
      requires blockTarget.None? <==> MinedTarget(job.space.bits).None?
      requires blockTarget.Some? ==> BE(blockTarget.value) == MinedTarget(job.space.bits).value
      modifies this`submitted, this`asked, this`s, this`en2, this`nonce
      ensures Going(job, old(s)) && (exhausted ==> SpaceDone(s, job.space))
      ensures Gpu.Heard(looks, left, !exhausted)
    {
      Gpu.ReachedBound(index, stride, s);
      Gpu.NothingHeard(looks);
      var changed := false;
      left := looks;
      while !changed && Fits(en2, job.space.extranonce2Size)
        invariant Going(job, old(s)) && Gpu.Left(s) >= 0 && Gpu.Heard(looks, left, changed)
        decreases !changed, Gpu.Left(s)
      {
        ghost var before := left;
        changed, left := Counter(job, blockTarget, left);
        Gpu.HeardOn(looks, before, left, changed);
      }
      exhausted := !changed;
    }

    /** One turn of `mine_job`'s loop: what is left of one extranonce2. */
    method Counter(job: MinerJob, blockTarget: Option<Digest>, looks: seq<bool>) returns (changed: bool, left: seq<bool>)
      requires Mining(job) && s.cursor == Cursor(en2, nonce) && Fits(en2, job.space.extranonce2Size)
      requires blockTarget.None? <==> MinedTarget(job.space.bits).None?
      requires blockTarget.Some? ==> BE(blockTarget.value) == MinedTarget(job.space.bits).value
      modifies this`submitted, this`asked, this`s, this`en2, this`nonce
      ensures Mining(job) && s.cursor == Cursor(en2, nonce) && Gpu.Grew(old(s).log, s.log, job.space) && s.reports == old(s).reports
      ensures 0 <= Gpu.Left(s) < Gpu.Left(old(s)) && Gpu.Heard(looks, left, changed)
    {
      SmallSizes(job.space.extranonce2Size);
      var extranonce2 := Encode(en2, job.space.extranonce2Size);
      var b := En2Header(hashes, job.space, extranonce2);
      var n;
      n, changed, left := Grind(job, blockTarget, extranonce2, b, nonce, looks);
      if changed {
        var c := ResumePoint(en2, n, n == 0, stride);
        en2, nonce := c.en2, c.nonce;
      } else {
        en2, nonce := en2 + stride, 0;
      }
    }

    /** One job in `run_worker`'s loop: `start_on`, `mine_job`, the place kept for the next, and what is reported. */
    method OneJob(job: MinerJob, looks: seq<bool>) returns (exhausted: bool, ghost left: seq<bool>)
      requires Idle() && Legal(s, Begin(job.space))
      modifies this`submitted, this`asked, this`s, this`en2, this`nonce, this`prev
      ensures Gpu.Heard(looks, left, !exhausted)
      ensures Idle() && prev == Some(job) && Gpu.Grew(old(s).log, s.log, job.space)
      ensures s.reports == old(s).reports + [Report(job.space, if exhausted then Exhausted else Changed, false)]
    {
      StartOn(job);
      exhausted, left := MineJob(job, looks);
      ReachedLively(index, stride, s);
      Advance(index, stride, s, End(true));
      s := Step(index, stride, s, End(true));
      prev := Some(job);
    }

    method StartOn(job: MinerJob)
      requires Idle() && Legal(s, Begin(job.space))
      modifies this`s, this`en2, this`nonce
      ensures Going(job, old(s)) && s.log == old(s).log
    {
      ReachedTiles(index, stride, s);
      Advance(index, stride, s, Begin(job.space));
      s := Step(index, stride, s, Begin(job.space));
      if prev.None? || !SameSearchSpace(prev.value, job) {
        en2, nonce := index, 0;
      }
    }
  }
}
