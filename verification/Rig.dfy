/**
 The whole rig: any number of CPU threads and GPUs, each a worker of
 Scheduler.dfy with its own index (src/main.rs), their steps interleaved in
 any order.
 */
module Rig {
  import opened Machine
  import opened SearchSpace
  import opened Scheduler

  datatype RigEvent = RigEvent(worker: nat, event: Event)

  ghost function RigReplay(n: u64, run: seq<RigEvent>): (rig: seq<State>)
    ensures |rig| == n
  {
    if run == [] then seq(n, w requires 0 <= w < n => Init(w))
    else
      var rig := RigReplay(n, run[..|run| - 1]);
      var e := run[|run| - 1];
      if e.worker < n then rig[e.worker := Step(e.worker, n, rig[e.worker], e.event)] else rig
  }

  ghost predicate LegalRigRun(n: u64, run: seq<RigEvent>)
  {
    run == [] ||
    (var i := |run| - 1;
     && LegalRigRun(n, run[..i]) && run[i].worker < n
     && Legal(RigReplay(n, run[..i])[run[i].worker], run[i].event))
  }

  /** Every worker of the rig is one of the machines of Scheduler.dfy, in a state one of its own runs leads to. */
  ghost predicate RigReached(n: u64, rig: seq<State>)
    requires |rig| == n
  {
    forall w :: 0 <= w < n ==> Reached(w, n, rig[w])
  }

  lemma {:induction false} EveryRigRun(n: u64, run: seq<RigEvent>)
    requires LegalRigRun(n, run)
    ensures RigReached(n, RigReplay(n, run))
  {
    if run == [] {
      forall w | 0 <= w < n
        ensures Reached(w, n, RigReplay(n, run)[w])
      {
        StartReached(w, n);
      }
    } else {
      var i := |run| - 1;
      EveryRigRun(n, run[..i]);
      var w := run[i].worker;
      Advance(w, n, RigReplay(n, run[..i])[w], run[i].event);
    }
  }

  /** How often the first m workers together hashed a nonce of a counter. */
  ghost function RigHits(rig: seq<State>, m: nat, sp: Space, e: nat, nonce: nat): (t: nat)
    requires m <= |rig|
  {
    if m == 0 then 0 else RigHits(rig, m - 1, sp, e, nonce) + Hits(rig[m - 1].log, sp, e, nonce)
  }

  /** Only the worker that owns the counter ever hashes it, and it does so at most once. */
  lemma {:induction false} OnlyTheOwner(n: u64, rig: seq<State>, m: nat, sp: Space, own: nat, k: nat, nonce: nat)
    requires |rig| == n && m <= n && own < n && nonce < U32
    requires forall w :: 0 <= w < n ==> Tiles(w, n, Of(rig[w].log, sp))
    ensures RigHits(rig, m, sp, Row(own, n, k), nonce) ==
      if own < m && k * U32 + nonce < Total(Of(rig[own].log, sp)) then 1 else 0
  {
    if m != 0 {
      OnlyTheOwner(n, rig, m - 1, sp, own, k, nonce);
      TilesExactlyOnce(m - 1, n, Of(rig[m - 1].log, sp), own, k, nonce);
    }
  }

  /** Every worker has at some time reported the space exhausted, with no launch lost after the decision. */
  ghost predicate AllReported(rig: seq<State>, sp: Space)
  {
    forall w :: 0 <= w < |rig| ==> Report(sp, Exhausted, false) in rig[w].reports
  }

  /** Every worker's last job is over and was reported exhausted for `sp`, truly or not. */
  ghost predicate AllStopped(rig: seq<State>, sp: Space)
  {
    forall w :: 0 <= w < |rig| ==> JustReported(rig[w], sp)
  }

  /** One of them lost a launch after it had decided. */
  ghost predicate SomeLate(rig: seq<State>)
  {
    exists w :: 0 <= w < |rig| && rig[w].late
  }

  /** How often one worker's log has the header of these extranonce2 bytes and this nonce. */
  ghost function LogHits(log: seq<Entry>, sp: Space, extranonce2: seq<u8>, nonce: nat): (t: nat)
  {
    if log == [] then 0
    else
      var e := log[|log| - 1];
      LogHits(log[..|log| - 1], sp, extranonce2, nonce) +
      if e.space == sp && Encode(e.range.en2, sp.extranonce2Size) == extranonce2 && e.range.start <= nonce < e.range.start + e.range.count
      then 1 else 0
  }

  /** And all of the first m workers' logs. */
  ghost function LogsHits(rig: seq<State>, m: nat, sp: Space, extranonce2: seq<u8>, nonce: nat): (t: nat)
    requires m <= |rig|
  {
    if m == 0 then 0 else LogsHits(rig, m - 1, sp, extranonce2, nonce) + LogHits(rig[m - 1].log, sp, extranonce2, nonce)
  }

  /** How often the rig has hashed a header of the space. */
  ghost function HeaderHits(rig: seq<State>, sp: Space, extranonce2: seq<u8>, nonce: nat): (t: nat)
  {
    LogsHits(rig, |rig|, sp, extranonce2, nonce)
  }

  ghost predicate LogFits(log: seq<Entry>)
  {
    forall i :: 0 <= i < |log| ==>
      log[i].space.extranonce2Size <= 7 && log[i].range.en2 < Pow256(log[i].space.extranonce2Size)
  }

  /** The bytes of the extranonce2 name the counter: the two ways to count are one. */
  lemma {:induction false} LogHitsAre(log: seq<Entry>, sp: Space, extranonce2: seq<u8>, nonce: nat)
    requires LogFits(log) && sp.extranonce2Size <= 7 && |extranonce2| == sp.extranonce2Size
    ensures LogHits(log, sp, extranonce2, nonce) == Hits(log, sp, BE(extranonce2), nonce)
  {
    if log != [] {
      var was, e := log[..|log| - 1], log[|log| - 1];
      LogHitsAre(was, sp, extranonce2, nonce);
      assert was + [e] == log;
      HitsSnoc(was, e, sp, BE(extranonce2), nonce);
      if e.space == sp { EncodeBijective(sp.extranonce2Size); }
    }
  }

  lemma {:induction false} LogsHitsAre(rig: seq<State>, m: nat, sp: Space, extranonce2: seq<u8>, nonce: nat)
    requires m <= |rig| && sp.extranonce2Size <= 7 && |extranonce2| == sp.extranonce2Size
    requires forall w :: 0 <= w < m ==> LogFits(rig[w].log)
    ensures LogsHits(rig, m, sp, extranonce2, nonce) == RigHits(rig, m, sp, BE(extranonce2), nonce)
  {
    if m > 0 {
      LogsHitsAre(rig, m - 1, sp, extranonce2, nonce);
      LogHitsAre(rig[m - 1].log, sp, extranonce2, nonce);
    }
  }

  lemma HeaderHitsAre(n: u64, rig: seq<State>, sp: Space, extranonce2: seq<u8>, nonce: nat)
    requires |rig| == n && RigReached(n, rig) && sp.extranonce2Size <= 7 && |extranonce2| == sp.extranonce2Size
    ensures HeaderHits(rig, sp, extranonce2, nonce) == RigHits(rig, n, sp, BE(extranonce2), nonce)
  {
    forall w | 0 <= w < n ensures LogFits(rig[w].log) { ReachedTiles(w, n, rig[w]); }
    LogsHitsAre(rig, n, sp, extranonce2, nonce);
  }

  /**
   Rig-wide exactly-once coverage. However many workers, and whatever
   retargets, job changes, window switches and device failures their runs go
   through, no (extranonce2, nonce) of a space is hashed on the CPU or
   collected from a GPU twice; and once every worker has reported the space
   exhausted, none of them after a lost launch, each of the 256^size * 2^32 of
   them was, exactly once.
   */
  lemma ExactlyOnce(n: u64, run: seq<RigEvent>, sp: Space, extranonce2: seq<u8>, nonce: nat)
    requires n >= 1 && LegalRigRun(n, run)
    requires sp.extranonce2Size <= 7 && |extranonce2| == sp.extranonce2Size && nonce < U32
    ensures var rig := RigReplay(n, run);
      && HeaderHits(rig, sp, extranonce2, nonce) <= 1
      && (AllReported(rig, sp) ==> HeaderHits(rig, sp, extranonce2, nonce) == 1)
  {
    var e := BE(extranonce2);
    ToBEBE(extranonce2);
    var own, k := RowOf(n, e);
    EveryRigRun(n, run);
    HeaderHitsAre(n, RigReplay(n, run), sp, extranonce2, nonce);
    OnceByItsOwner(n, RigReplay(n, run), sp, own, k, nonce);
  }

  lemma AllTile(n: u64, rig: seq<State>, sp: Space)
    requires |rig| == n && RigReached(n, rig)
    ensures forall w :: 0 <= w < n ==> Tiles(w, n, Of(rig[w].log, sp))
  {
    forall w | 0 <= w < n
      ensures Tiles(w, n, Of(rig[w].log, sp))
    {
      ReachedTiles(w, n, rig[w]);
    }
  }

  lemma OnceByItsOwner(n: u64, rig: seq<State>, sp: Space, own: nat, k: nat, nonce: nat)
    requires |rig| == n && own < n && RigReached(n, rig) && nonce < U32
    requires Row(own, n, k) < Pow256(sp.extranonce2Size)
    ensures RigHits(rig, n, sp, Row(own, n, k), nonce) <= 1
    ensures AllReported(rig, sp) ==> RigHits(rig, n, sp, Row(own, n, k), nonce) == 1
  {
    AllTile(n, rig, sp);
    OnlyTheOwner(n, rig, n, sp, own, k, nonce);
    if AllReported(rig, sp) {
      ReachedReports(own, n, rig[own]);
      assert Report(sp, Exhausted, false) in rig[own].reports;
      assert Searched(own, n, rig[own].log, sp);
      assert (k + 1) * U32 <= Total(Of(rig[own].log, sp));
    }
  }

  // ----- Exactly when the reports hold -----

  /** Every pair of the space was hashed once. */
  ghost predicate AllOnce(rig: seq<State>, sp: Space)
  {
    forall extranonce2: seq<u8>, nonce: nat ::
      |extranonce2| == sp.extranonce2Size && nonce < U32 ==> HeaderHits(rig, sp, extranonce2, nonce) == 1
  }

  /**
   All workers have stopped, each reporting the space exhausted: each pair was
   hashed exactly once if and only if none of them lost a launch after it had
   decided. One that did left a pair nobody hashed.
   */
  lemma ReportsHoldUnlessLate(n: u64, run: seq<RigEvent>, sp: Space)
    requires n >= 1 && LegalRigRun(n, run) && sp.extranonce2Size <= 7
    requires AllStopped(RigReplay(n, run), sp)
    ensures AllOnce(RigReplay(n, run), sp) <==> !SomeLate(RigReplay(n, run))
  {
    var rig := RigReplay(n, run);
    EveryRigRun(n, run);
    if SomeLate(rig) {
      var w :| 0 <= w < n && rig[w].late;
      var extranonce2 := LateLeavesAPair(n, rig, sp, w);
      assert HeaderHits(rig, sp, extranonce2, rig[w].cursor.nonce) == 0;
    } else {
      NoneLateAllReported(n, rig, sp);
      forall extranonce2: seq<u8>, nonce: nat | |extranonce2| == sp.extranonce2Size && nonce < U32
        ensures HeaderHits(rig, sp, extranonce2, nonce) == 1
      {
        ExactlyOnce(n, run, sp, extranonce2, nonce);
      }
    }
  }

  lemma NoneLateAllReported(n: u64, rig: seq<State>, sp: Space)
    requires |rig| == n && RigReached(n, rig) && AllStopped(rig, sp) && !SomeLate(rig)
    ensures AllReported(rig, sp)
  {
    forall w | 0 <= w < n
      ensures Report(sp, Exhausted, false) in rig[w].reports
    {
      ReachedReportSays(w, n, rig[w], sp);
      assert !rig[w].late;
    }
  }

  /** Where the late worker's cursor was put back to, nobody hashes. */
  lemma LateLeavesAPair(n: u64, rig: seq<State>, sp: Space, w: nat) returns (extranonce2: seq<u8>)
    requires |rig| == n && RigReached(n, rig) && w < n && JustReported(rig[w], sp) && rig[w].late
    requires sp.extranonce2Size <= 7
    ensures |extranonce2| == sp.extranonce2Size && HeaderHits(rig, sp, extranonce2, rig[w].cursor.nonce) == 0
  {
    var s := rig[w];
    ReachedReportSays(w, n, s, sp);
    ReachedTiles(w, n, s);
    SmallSizes(sp.extranonce2Size);
    var k := CursorPlace(w, n, s, sp);
    extranonce2 := ToBE(s.cursor.en2, sp.extranonce2Size);
    BEToBE(s.cursor.en2, sp.extranonce2Size);
    AllTile(n, rig, sp);
    HeaderHitsAre(n, rig, sp, extranonce2, s.cursor.nonce);
    OnlyTheOwner(n, rig, n, sp, w, k, s.cursor.nonce);
  }

  /** The cursor of a worker with nothing in flight is at the end of what it has collected. */
  lemma CursorPlace(w: u64, n: u64, s: State, sp: Space) returns (k: nat)
    requires w < n && Inv(w, n, s) && s.space == Some(sp) && s.inflight == [] && s.cursor.en2 < U64 - 1
    ensures s.cursor.en2 == Row(w, n, k) && k * U32 + s.cursor.nonce == Total(Of(s.log, sp))
  {
    assert Of(s.log, sp) + [] == Of(s.log, sp);
    k := Total(Of(s.log, sp)) / U32;
  }

  /** No share is submitted twice, by one worker or by two. */
  lemma NoShareTwice(n: u64, run: seq<RigEvent>, w: nat, i: nat, w': nat, i': nat)
    requires n >= 1 && LegalRigRun(n, run)
    requires w < n && w' < n && (w != w' || i != i')
    requires i < |RigReplay(n, run)[w].shares| && i' < |RigReplay(n, run)[w'].shares|
    ensures RigReplay(n, run)[w].shares[i] != RigReplay(n, run)[w'].shares[i']
  {
    EveryRigRun(n, run);
    SharesApart(n, RigReplay(n, run), w, i, w', i');
  }

  lemma SharesApart(n: u64, rig: seq<State>, w: nat, i: nat, w': nat, i': nat)
    requires |rig| == n && RigReached(n, rig) && w < n && w' < n && (w != w' || i != i')
    requires i < |rig[w].shares| && i' < |rig[w'].shares|
    ensures rig[w].shares[i] != rig[w'].shares[i']
  {
    ReachedTiles(w, n, rig[w]);
    ReachedTiles(w', n, rig[w']);
    if w != w' && rig[w].shares[i] == rig[w'].shares[i'] {
      var k := RowOfShare(w, n, rig[w], rig[w].shares[i]);
      var k' := RowOfShare(w', n, rig[w'], rig[w].shares[i]);
      RowUnique(w, n, k, w', k');
      assert false;
    }
  }

  lemma RowOfShare(w: u64, n: u64, s: State, f: Found) returns (k: nat)
    requires w < n && Inv(w, n, s) && f in s.shares
    ensures f.en2 == Row(w, n, k)
  {
    var i :| FoundIn(s, f, i);
    k := RowOfEntry(w, n, s.log, i);
  }

  lemma {:induction false} RowOfEntry(w: u64, n: u64, log: seq<Entry>, i: nat) returns (k: nat)
    requires w < n && i < |log| && Tiles(w, n, Of(log, log[i].space))
    ensures log[i].range.en2 == Row(w, n, k)
  {
    var m := |log| - 1;
    var sp := log[i].space;
    assert log[..m] + [log[m]] == log;
    OfSnoc(log[..m], log[m], sp);
    var rs := Of(log, sp);
    if log[m].space == sp {
      assert rs[..|rs| - 1] == Of(log[..m], sp) && rs[|rs| - 1] == log[m].range;
    } else {
      assert Of(log[..m], sp) + [] == Of(log[..m], sp);
    }
    if i < m {
      k := RowOfEntry(w, n, log[..m], i);
    } else {
      k := Total(rs[..|rs| - 1]) / U32;
    }
  }
}
