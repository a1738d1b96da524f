/**
 What a mark of the stall guard comes of (src/shared.rs `check_gpu_stalls`), over
 whole runs: a card is set aside with work to do, and taken back after a launch.
 */
module Restoring {
  import opened Machine
  import opened Handover

  // ----- What happened in a run -----

  /** A launch of slot `k` came back later than `since`. */
  ghost predicate LaunchedAfter(cfg: Config, gpus: nat, cpus: nat, run: seq<Event>, k: nat, since: nat)
  {
    exists p :: 0 <= p < |run| && run[p] == Launch(k) && Run(cfg, gpus, cpus, run[..p]).clock > since
  }

  /** There was a job, no earlier than `since`. */
  ghost predicate HadJob(cfg: Config, gpus: nat, cpus: nat, run: seq<Event>, since: nat)
  {
    exists p :: 0 <= p <= |run| && var s := Run(cfg, gpus, cpus, run[..p]); s.clock >= since && s.job.Some?
  }

  /** `a` was the proof of work, no earlier than `since`. */
  ghost predicate WasCurrent(cfg: Config, gpus: nat, cpus: nat, run: seq<Event>, a: PowAlgo, since: nat)
  {
    exists p :: 0 <= p <= |run| && var s := Run(cfg, gpus, cpus, run[..p]); s.clock >= since && s.current == Some(a)
  }

  /** Slot `k` claimed `a`, no earlier than `since`. */
  ghost predicate Claimed(cfg: Config, gpus: nat, cpus: nat, run: seq<Event>, k: nat, a: PowAlgo, since: nat)
  {
    exists p :: 0 <= p <= |run| && var s := Run(cfg, gpus, cpus, run[..p]); s.clock >= since && k < |s.claims| && a in s.claims[k]
  }

  /** Slot `k` claimed nothing at all. */
  ghost predicate Unclaimed(cfg: Config, gpus: nat, cpus: nat, run: seq<Event>, k: nat)
  {
    exists p :: 0 <= p <= |run| && var s := Run(cfg, gpus, cpus, run[..p]); k < |s.claims| && s.claims[k] == {}
  }

  /** What happened stays so, however the run goes on. */
  lemma LaunchedStays(cfg: Config, gpus: nat, cpus: nat, run: seq<Event>, e: Event, k: nat, since: nat)
    requires LaunchedAfter(cfg, gpus, cpus, run, k, since)
    ensures LaunchedAfter(cfg, gpus, cpus, run + [e], k, since)
  {
    var p :| 0 <= p < |run| && run[p] == Launch(k) && Run(cfg, gpus, cpus, run[..p]).clock > since;
    assert (run + [e])[..p] == run[..p] && (run + [e])[p] == Launch(k);
  }

  lemma HadJobStays(cfg: Config, gpus: nat, cpus: nat, run: seq<Event>, e: Event, since: nat)
    requires HadJob(cfg, gpus, cpus, run, since)
    ensures HadJob(cfg, gpus, cpus, run + [e], since)
  {
    var p :| 0 <= p <= |run| && var s := Run(cfg, gpus, cpus, run[..p]); s.clock >= since && s.job.Some?;
    assert (run + [e])[..p] == run[..p];
  }

  lemma WasCurrentStays(cfg: Config, gpus: nat, cpus: nat, run: seq<Event>, e: Event, a: PowAlgo, since: nat)
    requires WasCurrent(cfg, gpus, cpus, run, a, since)
    ensures WasCurrent(cfg, gpus, cpus, run + [e], a, since)
  {
    var p :| 0 <= p <= |run| && var s := Run(cfg, gpus, cpus, run[..p]); s.clock >= since && s.current == Some(a);
    assert (run + [e])[..p] == run[..p];
  }

  lemma ClaimedStays(cfg: Config, gpus: nat, cpus: nat, run: seq<Event>, e: Event, k: nat, a: PowAlgo, since: nat)
    requires Claimed(cfg, gpus, cpus, run, k, a, since)
    ensures Claimed(cfg, gpus, cpus, run + [e], k, a, since)
  {
    var p :| 0 <= p <= |run| && var s := Run(cfg, gpus, cpus, run[..p]); s.clock >= since && k < |s.claims| && a in s.claims[k];
    assert (run + [e])[..p] == run[..p];
  }

  lemma UnclaimedStays(cfg: Config, gpus: nat, cpus: nat, run: seq<Event>, e: Event, k: nat)
    requires Unclaimed(cfg, gpus, cpus, run, k)
    ensures Unclaimed(cfg, gpus, cpus, run + [e], k)
  {
    var p :| 0 <= p <= |run| && var s := Run(cfg, gpus, cpus, run[..p]); k < |s.claims| && s.claims[k] == {};
    assert (run + [e])[..p] == run[..p];
  }

  /** The end of a run is one of its states. */
  lemma AtTheEnd(run: seq<Event>)
    ensures run[..|run|] == run
  {
  }

  // ----- What the guard goes by -----

  /** What the guard's scan has read so far happened, in the order it is read. */
  ghost predicate ScanHappened(cfg: Config, gpus: nat, cpus: nat, run: seq<Event>, c: Scan)
  {
    && (c.algo.Some? ==> WasCurrent(cfg, gpus, cpus, run, c.algo.value, c.now))
    && (c.hasJob ==> HadJob(cfg, gpus, cpus, run, c.now))
  }

  ghost predicate GuardHappened(cfg: Config, gpus: nat, cpus: nat, run: seq<Event>, g: GuardPc)
  {
    var s := Run(cfg, gpus, cpus, run);
    && (ScanOf(g).Some? ==> ScanHappened(cfg, gpus, cpus, run, ScanOf(g).value) && ScanOf(g).value.now <= s.clock)
    && match g
       case VStamp(c, claims) =>
         && (forall a :: a in claims ==> Claimed(cfg, gpus, cpus, run, c.slot, a, c.now))
         && (claims == {} ==> Unclaimed(cfg, gpus, cpus, run, c.slot))
       case VClaimedAt(c, _) =>
         c.hasJob && c.algo.Some? && Claimed(cfg, gpus, cpus, run, c.slot, c.algo.value, c.now)
       case VStore(c, mark, resumed) =>
         && (mark != 0 ==> mark == Max(c.now, 1) && c.hasJob && c.algo.Some? && Claimed(cfg, gpus, cpus, run, c.slot, c.algo.value, c.now))
         && (mark == 0 && resumed ==>
             c.slot < |s.stalled| && s.stalled[c.slot] != 0 && LaunchedAfter(cfg, gpus, cpus, run, c.slot, s.stalled[c.slot]))
         && (mark == 0 && !resumed ==> Unclaimed(cfg, gpus, cpus, run, c.slot))
       case _ => true
  }

  /** A stamp is the time a launch came back. */
  ghost predicate StampsHappened(cfg: Config, gpus: nat, cpus: nat, run: seq<Event>)
  {
    var s := Run(cfg, gpus, cpus, run);
    forall k: nat, since: nat :: k < |s.stamp| && s.stamp[k] > since ==> LaunchedAfter(cfg, gpus, cpus, run, k, since)
  }

  lemma {:induction false} EveryStampHappened(cfg: Config, gpus: nat, cpus: nat, run: seq<Event>)
    ensures StampsHappened(cfg, gpus, cpus, run)
  {
    if run != [] {
      var was, e := run[..|run| - 1], run[|run| - 1];
      assert run == was + [e];
      EveryStampHappened(cfg, gpus, cpus, was);
      var s, s' := Run(cfg, gpus, cpus, was), Run(cfg, gpus, cpus, run);
      forall k: nat, since: nat | k < |s'.stamp| && s'.stamp[k] > since
        ensures LaunchedAfter(cfg, gpus, cpus, run, k, since)
      {
        if e == Launch(k) {
          assert run[..|was|] == was && run[|was|] == Launch(k);
        } else {
          StampStays(cfg, s, e, k);
          LaunchedStays(cfg, gpus, cpus, was, e, k, since);
        }
      }
    }
  }

  lemma StampStays(cfg: Config, s: State, e: Event, k: nat)
    requires Shaped(s) && k < |s.stamp| && e != Launch(k)
    ensures Next(cfg, s, e).stamp[k] == s.stamp[k]
  {
    match e
    case GuardStep => GuardOnlyMarks(cfg, s);
    case _ =>
  }

  lemma ScanStaysHappened(cfg: Config, gpus: nat, cpus: nat, run: seq<Event>, e: Event, c: Scan)
    requires ScanHappened(cfg, gpus, cpus, run, c)
    ensures ScanHappened(cfg, gpus, cpus, run + [e], c)
  {
    if c.algo.Some? { WasCurrentStays(cfg, gpus, cpus, run, e, c.algo.value, c.now); }
    if c.hasJob { HadJobStays(cfg, gpus, cpus, run, e, c.now); }
  }

  /** What the guard goes by has still happened a step later. */
  lemma StaysHappened(cfg: Config, gpus: nat, cpus: nat, run: seq<Event>, e: Event, g: GuardPc)
    requires GuardHappened(cfg, gpus, cpus, run, g)
    requires var s, s' := Run(cfg, gpus, cpus, run), Next(cfg, Run(cfg, gpus, cpus, run), e);
      s.clock <= s'.clock && (g.VStore? ==> s'.stalled == s.stalled)
    ensures GuardHappened(cfg, gpus, cpus, run + [e], g)
  {
    Then(cfg, gpus, cpus, run, e);
    if ScanOf(g).Some? { ScanStaysHappened(cfg, gpus, cpus, run, e, ScanOf(g).value); }
    match g
    case VStamp(c, claims) =>
      forall a | a in claims ensures Claimed(cfg, gpus, cpus, run + [e], c.slot, a, c.now) {
        ClaimedStays(cfg, gpus, cpus, run, e, c.slot, a, c.now);
      }
      if claims == {} { UnclaimedStays(cfg, gpus, cpus, run, e, c.slot); }
    case VClaimedAt(c, _) => ClaimedStays(cfg, gpus, cpus, run, e, c.slot, c.algo.value, c.now);
    case VStore(c, mark, resumed) =>
      StoreStaysHappened(cfg, gpus, cpus, run, e, Run(cfg, gpus, cpus, run).stalled, c, mark, resumed);
    case _ =>
  }

  lemma StoreStaysHappened(cfg: Config, gpus: nat, cpus: nat, run: seq<Event>, e: Event, stalled: seq<nat>, c: Scan, mark: nat, resumed: bool)
    requires mark != 0 ==> c.algo.Some? && Claimed(cfg, gpus, cpus, run, c.slot, c.algo.value, c.now)
    requires mark == 0 && resumed ==> c.slot < |stalled| && LaunchedAfter(cfg, gpus, cpus, run, c.slot, stalled[c.slot])
    requires mark == 0 && !resumed ==> Unclaimed(cfg, gpus, cpus, run, c.slot)
    ensures mark != 0 ==> Claimed(cfg, gpus, cpus, run + [e], c.slot, c.algo.value, c.now)
    ensures mark == 0 && resumed ==> LaunchedAfter(cfg, gpus, cpus, run + [e], c.slot, stalled[c.slot])
    ensures mark == 0 && !resumed ==> Unclaimed(cfg, gpus, cpus, run + [e], c.slot)
  {
    if mark != 0 {
      ClaimedStays(cfg, gpus, cpus, run, e, c.slot, c.algo.value, c.now);
    } else if resumed {
      LaunchedStays(cfg, gpus, cpus, run, e, c.slot, stalled[c.slot]);
    } else {
      UnclaimedStays(cfg, gpus, cpus, run, e, c.slot);
    }
  }

  /** What the guard would read now has happened. */
  lemma SeenNow(cfg: Config, gpus: nat, cpus: nat, run: seq<Event>, since: nat)
    requires since <= Run(cfg, gpus, cpus, run).clock
    ensures var s := Run(cfg, gpus, cpus, run);
      && (s.job.Some? ==> HadJob(cfg, gpus, cpus, run, since))
      && (s.current.Some? ==> WasCurrent(cfg, gpus, cpus, run, s.current.value, since))
  {
    AtTheEnd(run);
  }

  lemma ClaimsNow(cfg: Config, gpus: nat, cpus: nat, run: seq<Event>, k: nat, since: nat)
    requires since <= Run(cfg, gpus, cpus, run).clock && k < |Run(cfg, gpus, cpus, run).claims|
    ensures var s := Run(cfg, gpus, cpus, run);
      && (forall a :: a in s.claims[k] ==> Claimed(cfg, gpus, cpus, run, k, a, since))
      && (s.claims[k] == {} ==> Unclaimed(cfg, gpus, cpus, run, k))
  {
    AtTheEnd(run);
  }

  /** The guard's own step reads something more, of the state the run has come to. */
  lemma GuardGoesOn(cfg: Config, gpus: nat, cpus: nat, run: seq<Event>, s: State)
    requires s == Run(cfg, gpus, cpus, run) && GuardOk(cfg, s)
    requires StampsHappened(cfg, gpus, cpus, run) && GuardHappened(cfg, gpus, cpus, run, s.guard)
    ensures GuardHappened(cfg, gpus, cpus, run, GuardNext(cfg, s).guard)
  {
    match s.guard
    case VIdle =>
    case VAlgo(c) => SeenNow(cfg, gpus, cpus, run, c.now);
    case VHasJob(c) => SeenNow(cfg, gpus, cpus, run, c.now);
    case VSince(_) =>
    case VClaims(c) => ClaimsRead(cfg, gpus, cpus, run, s, c);
    case VStamp(c, claims) => StampRead(cfg, gpus, cpus, run, s, c, claims);
    case VClaimedAt(_, _) =>
    case VStore(_, _, _) =>
    case VCheck(_) =>
    case VNudge =>
    case VNotify =>
  }

  lemma ClaimsRead(cfg: Config, gpus: nat, cpus: nat, run: seq<Event>, s: State, c: Scan)
    requires s == Run(cfg, gpus, cpus, run) && s.guard == VClaims(c)
    requires GuardHappened(cfg, gpus, cpus, run, s.guard)
    ensures GuardHappened(cfg, gpus, cpus, run, GuardNext(cfg, s).guard)
  {
    if c.slot < |s.gpus| { ClaimsNow(cfg, gpus, cpus, run, c.slot, c.now); }
  }

  lemma StampRead(cfg: Config, gpus: nat, cpus: nat, run: seq<Event>, s: State, c: Scan, claims: set<PowAlgo>)
    requires s == Run(cfg, gpus, cpus, run) && s.guard == VStamp(c, claims) && GuardOk(cfg, s)
    requires StampsHappened(cfg, gpus, cpus, run) && GuardHappened(cfg, gpus, cpus, run, s.guard)
    ensures GuardHappened(cfg, gpus, cpus, run, GuardNext(cfg, s).guard)
  {
    if s.stamp[c.slot] > s.stalled[c.slot] { assert LaunchedAfter(cfg, gpus, cpus, run, c.slot, s.stalled[c.slot]); }
  }

  lemma {:induction false} EveryScanHappened(cfg: Config, gpus: nat, cpus: nat, run: seq<Event>)
    ensures GuardHappened(cfg, gpus, cpus, run, Run(cfg, gpus, cpus, run).guard)
  {
    if run != [] {
      var was, e := run[..|run| - 1], run[|run| - 1];
      assert run == was + [e];
      EveryScanHappened(cfg, gpus, cpus, was);
      EveryRun(cfg, gpus, cpus, was);
      var s := Run(cfg, gpus, cpus, was);
      if e.GuardStep? {
        EveryStampHappened(cfg, gpus, cpus, was);
        GuardGoesOn(cfg, gpus, cpus, was, s);
        GuardOnlyMarks(cfg, s);
        OnlyStoresMark(cfg, s);
      } else {
        TimesGrow(cfg, s, e);
        GuardAlone(cfg, s, e);
      }
      StaysHappened(cfg, gpus, cpus, was, e, Next(cfg, s, e).guard);
    }
  }

  lemma OnlyStoresMark(cfg: Config, s: State)
    requires Shaped(s)
    ensures var s' := GuardNext(cfg, s); s'.guard.VStore? ==> s'.stalled == s.stalled
  {
    match s.guard
    case VIdle =>
    case VAlgo(_) =>
    case VHasJob(_) =>
    case VSince(_) =>
    case VClaims(_) =>
    case VStamp(_, _) =>
    case VClaimedAt(_, _) =>
    case VStore(_, _, _) =>
    case VCheck(_) =>
    case VNudge =>
    case VNotify =>
  }

  // ----- What the marks say -----

  /** The time a slot stands set aside since; 0: it does not. */
  function AsideSince(log: seq<Mark>, k: nat): (since: nat)
  {
    if log == [] then 0
    else
      var m := log[|log| - 1];
      if m.slot != k then AsideSince(log[..|log| - 1], k) else if m.Stalled? then Max(m.now, 1) else 0
  }

  ghost predicate MarksKeepTime(s: State)
    requires Shaped(s)
  {
    forall k :: 0 <= k < |s.stalled| ==> s.stalled[k] == AsideSince(s.marks, k)
  }

  lemma AsideSinceSnoc(log: seq<Mark>, m: Mark, k: nat)
    ensures AsideSince(log + [m], k) == if m.slot != k then AsideSince(log, k) else if m.Stalled? then Max(m.now, 1) else 0
  {
    assert (log + [m])[..|log|] == log;
  }

  lemma {:induction false} EveryMarkKeepsTime(cfg: Config, gpus: nat, cpus: nat, run: seq<Event>)
    ensures MarksKeepTime(Run(cfg, gpus, cpus, run))
  {
    if run != [] {
      var was, e := run[..|run| - 1], run[|run| - 1];
      EveryMarkKeepsTime(cfg, gpus, cpus, was);
      var s := Run(cfg, gpus, cpus, was);
      if e.GuardStep? && s.guard.VStore? {
        EveryRun(cfg, gpus, cpus, was);
        EveryScanHappened(cfg, gpus, cpus, was);
        StoreKeepsTime(cfg, s);
      } else {
        GuardAlone(cfg, s, e);
      }
    }
  }

  lemma StoreKeepsTime(cfg: Config, s: State)
    requires Shaped(s) && GuardOk(cfg, s) && MarksKeepTime(s) && s.guard.VStore?
    requires s.guard.mark != 0 ==> s.guard.mark == Max(s.guard.s.now, 1)
    ensures MarksKeepTime(GuardNext(cfg, s))
  {
    var s' := GuardNext(cfg, s);
    var m := s'.marks[|s.marks|];
    forall k | 0 <= k < |s'.stalled| ensures s'.stalled[k] == AsideSince(s'.marks, k) {
      AsideSinceSnoc(s.marks, m, k);
    }
  }

  /** What there was to a mark, the marks before it being `before`. */
  ghost predicate MarkHappened(cfg: Config, gpus: nat, cpus: nat, run: seq<Event>, before: seq<Mark>, m: Mark)
  {
    match m
    case Stalled(k, now) =>
      && HadJob(cfg, gpus, cpus, run, now)
      && exists a :: WasCurrent(cfg, gpus, cpus, run, a, now) && Claimed(cfg, gpus, cpus, run, k, a, now)
    case Resumed(k) => AsideSince(before, k) > 0 && LaunchedAfter(cfg, gpus, cpus, run, k, AsideSince(before, k))
    case Dropped(k) => AsideSince(before, k) > 0 && Unclaimed(cfg, gpus, cpus, run, k)
  }

  lemma MarkStaysHappened(cfg: Config, gpus: nat, cpus: nat, run: seq<Event>, e: Event, before: seq<Mark>, m: Mark)
    requires MarkHappened(cfg, gpus, cpus, run, before, m)
    ensures MarkHappened(cfg, gpus, cpus, run + [e], before, m)
  {
    match m
    case Stalled(k, now) =>
      HadJobStays(cfg, gpus, cpus, run, e, now);
      var a :| WasCurrent(cfg, gpus, cpus, run, a, now) && Claimed(cfg, gpus, cpus, run, k, a, now);
      WasCurrentStays(cfg, gpus, cpus, run, e, a, now);
      ClaimedStays(cfg, gpus, cpus, run, e, k, a, now);
    case Resumed(k) => LaunchedStays(cfg, gpus, cpus, run, e, k, AsideSince(before, k));
    case Dropped(k) => UnclaimedStays(cfg, gpus, cpus, run, e, k);
  }

  lemma NewMarkHappened(cfg: Config, gpus: nat, cpus: nat, run: seq<Event>)
    requires Run(cfg, gpus, cpus, run).guard.VStore?
    ensures var s := Run(cfg, gpus, cpus, run);
      var s' := GuardNext(cfg, s);
      && |s'.marks| == |s.marks| + 1 && s'.marks[..|s.marks|] == s.marks
      && MarkHappened(cfg, gpus, cpus, run, s.marks, s'.marks[|s.marks|])
  {
    EveryRun(cfg, gpus, cpus, run);
    EveryScanHappened(cfg, gpus, cpus, run);
    EveryMarkKeepsTime(cfg, gpus, cpus, run);
  }

  /**
   Over every run: a card is set aside only when, since the check began, there
   was a job and the card claimed the proof of work current then; it is taken
   back only after a launch of it later than the time it was set aside for; and
   its mark is dropped only when it has come to claim nothing.
   */
  lemma {:induction false} EveryMarkHappened(cfg: Config, gpus: nat, cpus: nat, run: seq<Event>, j: nat)
    requires j < |Run(cfg, gpus, cpus, run).marks|
    ensures var marks := Run(cfg, gpus, cpus, run).marks; MarkHappened(cfg, gpus, cpus, run, marks[..j], marks[j])
  {
    if run != [] {
      var was, e := run[..|run| - 1], run[|run| - 1];
      assert run == was + [e];
      var before, marks := Run(cfg, gpus, cpus, was).marks, Run(cfg, gpus, cpus, run).marks;
      MarksGoOn(cfg, gpus, cpus, was, e);
      if j < |before| {
        EveryMarkHappened(cfg, gpus, cpus, was, j);
        SameStart(before, marks, j);
      }
      MarkStaysHappened(cfg, gpus, cpus, was, e, marks[..j], marks[j]);
    }
  }

  lemma SameStart(before: seq<Mark>, marks: seq<Mark>, j: nat)
    requires j < |before| <= |marks| && marks[..|before|] == before
    ensures marks[j] == before[j] && marks[..j] == before[..j]
  {
    assert marks[j] == marks[..|before|][j];
    assert marks[..j] == marks[..|before|][..j];
  }

  /** A step adds at most one mark, and one there was something to. */
  lemma MarksGoOn(cfg: Config, gpus: nat, cpus: nat, run: seq<Event>, e: Event)
    ensures var s := Run(cfg, gpus, cpus, run);
      var marks := Next(cfg, s, e).marks;
      && |s.marks| <= |marks| <= |s.marks| + 1 && marks[..|s.marks|] == s.marks
      && (|marks| > |s.marks| ==> MarkHappened(cfg, gpus, cpus, run, s.marks, marks[|s.marks|]))
  {
    var s := Run(cfg, gpus, cpus, run);
    if e.GuardStep? && s.guard.VStore? { NewMarkHappened(cfg, gpus, cpus, run); } else { GuardAlone(cfg, s, e); }
  }

  // ----- A card set aside has been silent -----

  /** The time the guard goes by: of launch, claim and first job, whichever came last. */
  function LastActive(s: State, k: nat): (t: nat)
    requires Shaped(s) && k < |s.gpus|
  {
    Max(s.stamp[k], Max(s.claimedAt[k], s.jobSince))
  }

  /** Slot `k` finishes a launch, is about to claim something, or a run of jobs starts. */
  predicate Active(cfg: Config, s: State, e: Event, k: nat)
    requires Shaped(s)
  {
    || e == Launch(k)
    || (e.GpuSet? && e.slot == k && e.up && k < |s.gpus| && s.gpus[k].pc.GIdle? && e.a !in s.gpus[k].held && e.a in cfg.kernels)
    || (e.StratumStep? && s.stratum.SSlot? && s.job.None?)
  }

  /** A claim is on its way that has not yet stored its time. */
  predicate Claiming(s: State, k: nat)
    requires k < |s.gpus|
  {
    s.gpus[k].pc.GStamp?
  }

  ghost predicate ActivityStamped(cfg: Config, gpus: nat, cpus: nat, run: seq<Event>, s: State, k: nat)
    requires Shaped(s) && k < |s.gpus|
  {
    forall p :: 0 <= p < |run| && Active(cfg, Run(cfg, gpus, cpus, run[..p]), run[p], k) ==>
      LastActive(s, k) >= Run(cfg, gpus, cpus, run[..p]).clock || Claiming(s, k)
  }

  /** What is done now is stamped now, a claim with the claimer's next step; the stamps only grow. */
  lemma StepStamps(cfg: Config, s: State, e: Event, k: nat)
    requires Shaped(s) && TimesOk(cfg, s) && k < |s.gpus|
    ensures var s' := Next(cfg, s, e);
      && LastActive(s', k) >= LastActive(s, k)
      && (Claiming(s, k) ==> Claiming(s', k) || LastActive(s', k) >= s.clock)
      && (Active(cfg, s, e, k) ==> LastActive(s', k) >= s.clock || Claiming(s', k))
  {
    if e.GuardStep? {
      GuardOnlyMarks(cfg, s);
      GuardLeavesGpus(cfg, s);
    } else {
      TimesGrow(cfg, s, e);
      ActsNow(cfg, s, e, k);
    }
  }

  lemma ActsNow(cfg: Config, s: State, e: Event, k: nat)
    requires Shaped(s) && k < |s.gpus| && !e.GuardStep?
    ensures var s' := Next(cfg, s, e);
      && (Claiming(s, k) ==> Claiming(s', k) || LastActive(s', k) >= s.clock)
      && (Active(cfg, s, e, k) ==> LastActive(s', k) >= s.clock || Claiming(s', k))
  {
    match e
    case Tick(_) =>
    case Launch(_) =>
    case GpuSet(_, _, _) =>
    case GpuStep(_) =>
    case GuardStep =>
    case Publish(_) =>
    case Clear =>
    case StratumStep =>
    case CpuStep(_, _, _) =>
    case Wake(_) =>
  }

  lemma GuardLeavesGpus(cfg: Config, s: State)
    requires Shaped(s)
    ensures GuardNext(cfg, s).gpus == s.gpus
  {
    match s.guard
    case VIdle =>
    case VAlgo(_) =>
    case VHasJob(_) =>
    case VSince(_) =>
    case VClaims(_) =>
    case VStamp(_, _) =>
    case VClaimedAt(_, _) =>
    case VStore(_, _, _) =>
    case VCheck(_) =>
    case VNudge =>
    case VNotify =>
  }

  lemma {:induction false} ClockGrows(cfg: Config, gpus: nat, cpus: nat, run: seq<Event>, p: nat)
    requires p <= |run|
    ensures Run(cfg, gpus, cpus, run[..p]).clock <= Run(cfg, gpus, cpus, run).clock
  {
    if p == |run| {
      assert run[..p] == run;
    } else {
      var was, e := run[..|run| - 1], run[|run| - 1];
      assert run[..p] == was[..p];
      ClockGrows(cfg, gpus, cpus, was, p);
      var s := Run(cfg, gpus, cpus, was);
      EveryRun(cfg, gpus, cpus, was);
      if e.GuardStep? { GuardOnlyMarks(cfg, s); } else { TimesGrow(cfg, s, e); }
    }
  }

  lemma {:induction false} EveryActivityStamped(cfg: Config, gpus: nat, cpus: nat, run: seq<Event>, k: nat)
    requires k < |Run(cfg, gpus, cpus, run).gpus|
    ensures ActivityStamped(cfg, gpus, cpus, run, Run(cfg, gpus, cpus, run), k)
  {
    if run != [] {
      var was, e := run[..|run| - 1], run[|run| - 1];
      var s, s' := Run(cfg, gpus, cpus, was), Run(cfg, gpus, cpus, run);
      EveryActivityStamped(cfg, gpus, cpus, was, k);
      EveryRun(cfg, gpus, cpus, was);
      StepStamps(cfg, s, e, k);
      SamePrefixes(run, was);
      forall p | 0 <= p < |run| && Active(cfg, Run(cfg, gpus, cpus, run[..p]), run[p], k)
        ensures LastActive(s', k) >= Run(cfg, gpus, cpus, run[..p]).clock || Claiming(s', k)
      {
        if p < |was| {
          ClockGrows(cfg, gpus, cpus, was, p);
          assert Active(cfg, Run(cfg, gpus, cpus, was[..p]), was[p], k);
        }
      }
    }
  }

  /** Nothing was heard of slot `k` for the limit before a moment whose time is `now`. */
  ghost predicate WasSilent(cfg: Config, gpus: nat, cpus: nat, run: seq<Event>, k: nat, now: nat)
  {
    exists q :: 0 <= q <= |run| && SilentAt(cfg, gpus, cpus, run[..q], k, now)
  }

  ghost predicate SilentAt(cfg: Config, gpus: nat, cpus: nat, run: seq<Event>, k: nat, now: nat)
  {
    var s := Run(cfg, gpus, cpus, run);
    && s.clock == now && k < |s.gpus|
    && forall p :: 0 <= p < |run| && Active(cfg, Run(cfg, gpus, cpus, run[..p]), run[p], k) ==>
         Run(cfg, gpus, cpus, run[..p]).clock + cfg.limit < now || Claiming(s, k)
  }

  /**
   A card is set aside only for silence: in the limit before the check's own time
   it has finished no launch, begun no claim whose time is stored, and no run of
   jobs has started.
   */
  lemma SetAsideForSilence(cfg: Config, gpus: nat, cpus: nat, run: seq<Event>, j: nat)
    requires var marks := Run(cfg, gpus, cpus, run).marks; j < |marks| && marks[j].Stalled?
    ensures var m := Run(cfg, gpus, cpus, run).marks[j]; WasSilent(cfg, gpus, cpus, run, m.slot, m.now)
  {
    var m := Run(cfg, gpus, cpus, run).marks[j];
    SetAsideOnlyIdle(cfg, gpus, cpus, run, j);
    var q :| 0 <= q <= |run| &&
      var t := Run(cfg, gpus, cpus, run[..q]);
      t.clock == m.now && m.slot < |t.gpus| && IdleFor(cfg, t.stamp[m.slot], t.claimedAt[m.slot], t.jobSince, m.now);
    EveryActivityStamped(cfg, gpus, cpus, run[..q], m.slot);
    assert SilentAt(cfg, gpus, cpus, run[..q], m.slot, m.now);
  }

  // ----- The next check sets a silent card aside -----

  /** Something was heard of slot `k` later than `t`: a launch, a claim, or a run of jobs that started. */
  ghost predicate HeardAfter(cfg: Config, gpus: nat, cpus: nat, run: seq<Event>, k: nat, t: nat)
  {
    exists p :: 0 <= p < |run| && HeardBy(Run(cfg, gpus, cpus, run[..p]), run[p], k) && Run(cfg, gpus, cpus, run[..p]).clock > t
  }

  predicate HeardBy(s: State, e: Event, k: nat)
    requires Shaped(s)
  {
    || e == Launch(k) || (e == GpuStep(k) && k < |s.gpus| && s.gpus[k].pc.GStamp?)
    || (e.StratumStep? && s.stratum.SSlot? && s.job.None?)
  }

  /** Stamps move only for such an event. */
  lemma StampsMoveFor(cfg: Config, s: State, e: Event, k: nat)
    requires Shaped(s) && k < |s.gpus| && !HeardBy(s, e, k)
    ensures LastActive(Next(cfg, s, e), k) == LastActive(s, k)
  {
    match e
    case Tick(_) =>
    case Launch(_) =>
    case GpuSet(_, _, _) =>
    case GpuStep(_) =>
    case GuardStep => GuardOnlyMarks(cfg, s);
    case Publish(_) =>
    case Clear =>
    case StratumStep =>
    case CpuStep(_, _, _) =>
    case Wake(_) =>
  }

  lemma StampsMoveToNow(cfg: Config, s: State, e: Event, k: nat)
    requires Shaped(s) && k < |s.gpus| && HeardBy(s, e, k)
    ensures LastActive(Next(cfg, s, e), k) <= Max(LastActive(s, k), s.clock)
  {
  }

  lemma {:induction false} ActiveIsHeard(cfg: Config, gpus: nat, cpus: nat, run: seq<Event>, k: nat, t: nat)
    requires var s := Run(cfg, gpus, cpus, run); k < |s.gpus| && LastActive(s, k) > t
    ensures HeardAfter(cfg, gpus, cpus, run, k, t)
  {
    if run != [] {
      var was, e := run[..|run| - 1], run[|run| - 1];
      var s := Run(cfg, gpus, cpus, was);
      assert run[..|was|] == was;
      if HeardBy(s, e, k) { StampsMoveToNow(cfg, s, e, k); } else { StampsMoveFor(cfg, s, e, k); }
      if LastActive(s, k) > t {
        ActiveIsHeard(cfg, gpus, cpus, was, k, t);
        var p :| 0 <= p < |was| && HeardBy(Run(cfg, gpus, cpus, was[..p]), was[p], k) && Run(cfg, gpus, cpus, was[..p]).clock > t;
        assert run[..p] == was[..p] && run[p] == was[p];
      }
    }
  }

  /** Slot `k` claims PoW `a`, which there is a job of, and was not heard of for the limit before `now`. */
  predicate Idle(cfg: Config, s: State, k: nat, a: PowAlgo, now: nat)
    requires Shaped(s)
  {
    k < |s.gpus| && a in s.claims[k] && s.current == Some(a) && s.job.Some? && LastActive(s, k) + cfg.limit < now
  }

  /** Where the check stands with it: not yet there, about to set it aside, or past it. */
  predicate OnItsWayOut(cfg: Config, s: State, k: nat, a: PowAlgo, now: nat)
    requires Shaped(s) && k < |s.gpus|
  {
    match s.guard
    case VIdle => s.stalled[k] != 0
    case VAlgo(c) => c.now == now && c.slot == 0 && s.stalled[k] == 0
    case VHasJob(c) => c.now == now && c.slot == 0 && c.algo == Some(a) && s.stalled[k] == 0
    case VSince(c) => c.now == now && c.slot == 0 && c.algo == Some(a) && c.hasJob && s.stalled[k] == 0
    case VClaims(c) =>
      Reads(cfg, c, a, now) && c.slot <= |s.gpus| && (s.stalled[k] == 0 <==> c.slot <= k)
    case VStamp(c, claims) =>
      Reads(cfg, c, a, now) && (s.stalled[k] == 0 <==> c.slot <= k) && (c.slot == k ==> a in claims)
    case VClaimedAt(c, stamp) =>
      Reads(cfg, c, a, now) && (s.stalled[k] == 0 <==> c.slot <= k) && (c.slot == k ==> stamp + cfg.limit < now)
    case VStore(c, mark, _) =>
      Reads(cfg, c, a, now) && (s.stalled[k] == 0 <==> c.slot <= k) && (c.slot == k ==> mark != 0)
    case _ => s.stalled[k] != 0
  }

  predicate Reads(cfg: Config, c: Scan, a: PowAlgo, now: nat)
  {
    c.now == now && c.algo == Some(a) && c.hasJob && c.since + cfg.limit < now
  }

  /** At one of the slots. */
  lemma SlotGoesOut(cfg: Config, s: State, k: nat, a: PowAlgo, now: nat)
    requires Shaped(s) && GuardOk(cfg, s) && Idle(cfg, s, k, a, now) && OnItsWayOut(cfg, s, k, a, now)
    requires s.guard.VStamp? || s.guard.VClaimedAt? || s.guard.VStore?
    ensures OnItsWayOut(cfg, GuardNext(cfg, s), k, a, now)
  {
    match s.guard
    case VStamp(_, _) =>
    case VClaimedAt(_, _) =>
    case VStore(_, _, _) =>
    case _ =>
  }

  lemma CheckGoesOut(cfg: Config, s: State, k: nat, a: PowAlgo, now: nat)
    requires Shaped(s) && GuardOk(cfg, s) && Idle(cfg, s, k, a, now) && OnItsWayOut(cfg, s, k, a, now) && !s.guard.VIdle?
    ensures OnItsWayOut(cfg, GuardNext(cfg, s), k, a, now)
  {
    match s.guard
    case VIdle =>
    case VAlgo(_) =>
    case VHasJob(_) =>
    case VSince(_) =>
    case VClaims(_) =>
    case VStamp(_, _) => SlotGoesOut(cfg, s, k, a, now);
    case VClaimedAt(_, _) => SlotGoesOut(cfg, s, k, a, now);
    case VStore(_, _, _) => SlotGoesOut(cfg, s, k, a, now);
    case VCheck(_) =>
    case VNudge =>
    case VNotify =>
  }

  lemma StepGoesOut(cfg: Config, s: State, e: Event, k: nat, a: PowAlgo, now: nat)
    requires Shaped(s) && Inv(cfg, s) && Idle(cfg, s, k, a, now) && OnItsWayOut(cfg, s, k, a, now) && !s.guard.VIdle?
    ensures OnItsWayOut(cfg, Next(cfg, s, e), k, a, now)
  {
    if e.GuardStep? {
      CheckGoesOut(cfg, s, k, a, now);
    } else {
      GuardKept(cfg, s, e);
      GuardAlone(cfg, s, e);
    }
  }

  /** From `from` to the end one check runs, begun there at time `now`, and all the while slot `k` is idle. */
  ghost predicate IdleCheck(cfg: Config, gpus: nat, cpus: nat, run: seq<Event>, from: nat, k: nat, a: PowAlgo, now: nat)
    requires from < |run|
  {
    && run[from].GuardStep? && Run(cfg, gpus, cpus, run[..from]).guard.VIdle? && Run(cfg, gpus, cpus, run[..from]).clock == now
    && (forall p :: from < p < |run| ==> !Run(cfg, gpus, cpus, run[..p]).guard.VIdle?)
    && (forall p :: from <= p < |run| ==> Idle(cfg, Run(cfg, gpus, cpus, run[..p]), k, a, now))
  }

  lemma IdleCheckBefore(cfg: Config, gpus: nat, cpus: nat, run: seq<Event>, from: nat, k: nat, a: PowAlgo, now: nat)
    requires from + 1 < |run| && IdleCheck(cfg, gpus, cpus, run, from, k, a, now)
    ensures IdleCheck(cfg, gpus, cpus, run[..|run| - 1], from, k, a, now)
    ensures var s := Run(cfg, gpus, cpus, run[..|run| - 1]); !s.guard.VIdle? && Idle(cfg, s, k, a, now)
  {
    var was := run[..|run| - 1];
    forall p | 0 <= p <= |was| ensures was[..p] == run[..p] {}
  }

  lemma {:induction false} GoingOut(cfg: Config, gpus: nat, cpus: nat, run: seq<Event>, from: nat, k: nat, a: PowAlgo, now: nat)
    requires from < |run| && IdleCheck(cfg, gpus, cpus, run, from, k, a, now)
    requires k < |Run(cfg, gpus, cpus, run[..from]).stalled| && Run(cfg, gpus, cpus, run[..from]).stalled[k] == 0
    ensures k < |Run(cfg, gpus, cpus, run).gpus| && OnItsWayOut(cfg, Run(cfg, gpus, cpus, run), k, a, now)
    decreases |run|
  {
    var was, e := run[..|run| - 1], run[|run| - 1];
    var s := Run(cfg, gpus, cpus, was);
    if |was| == from {
      assert was == run[..from];
    } else {
      IdleCheckBefore(cfg, gpus, cpus, run, from, k, a, now);
      assert was[..from] == run[..from];
      GoingOut(cfg, gpus, cpus, was, from, k, a, now);
      EveryRun(cfg, gpus, cpus, was);
      StepGoesOut(cfg, s, e, k, a, now);
    }
  }

  /**
   And no card is spared: one that claims the PoW of the job there is, not heard
   of for the limit when a check begins nor while it runs, is set aside when it
   is over, however often jobs have come meanwhile (see ActiveIsHeard).
   */
  lemma NextCheckSetsAside(cfg: Config, gpus: nat, cpus: nat, run: seq<Event>, from: nat, k: nat, a: PowAlgo, now: nat)
    requires from < |run| && IdleCheck(cfg, gpus, cpus, run, from, k, a, now) && Run(cfg, gpus, cpus, run).guard.VIdle?
    requires k < |Run(cfg, gpus, cpus, run[..from]).stalled| && Run(cfg, gpus, cpus, run[..from]).stalled[k] == 0
    ensures var s := Run(cfg, gpus, cpus, run); k < |s.stalled| && s.stalled[k] != 0
  {
    GoingOut(cfg, gpus, cpus, run, from, k, a, now);
  }

  // ----- A check says what it changed -----

  /** Some mark from the m-th on set a card aside or took one back. */
  ghost predicate Changes(marks: seq<Mark>, m: nat)
  {
    exists j :: m <= j < |marks| && !marks[j].Dropped?
  }

  lemma ChangesMore(marks: seq<Mark>, more: Mark, m: nat)
    requires m <= |marks|
    ensures Changes(marks + [more], m) <==> Changes(marks, m) || !more.Dropped?
  {
    assert forall j :: 0 <= j < |marks| ==> (marks + [more])[j] == marks[j];
    if !more.Dropped? { assert !(marks + [more])[|marks|].Dropped?; }
  }

  /** Of PoW `a`, what the check has changed it has yet to announce, or the generation was bumped. */
  ghost predicate ToAnnounce(s: State, a: PowAlgo, m: nat, gen: nat)
    requires Shaped(s)
  {
    && m <= |s.marks| && gen <= s.generation
    && match s.guard
       case VIdle => Changes(s.marks, m) ==> s.generation > gen
       case VAlgo(c) => c.algo.None? && !c.changed && !Changes(s.marks, m)
       case VCheck(b) => b == a
       case VNudge => true
       case VNotify => s.generation > gen
       case _ =>
         var c := ScanOf(s.guard).value;
         c.algo == Some(a) && c.slot <= |s.gpus| && (Changes(s.marks, m) ==> c.changed)
  }

  lemma StoreAnnounces(cfg: Config, s: State, a: PowAlgo, m: nat, gen: nat)
    requires Shaped(s) && GuardOk(cfg, s) && ToAnnounce(s, a, m, gen) && s.guard.VStore?
    ensures ToAnnounce(GuardNext(cfg, s), a, m, gen)
  {
    var s' := GuardNext(cfg, s);
    assert s'.marks == s.marks + [s'.marks[|s.marks|]];
    ChangesMore(s.marks, s'.marks[|s.marks|], m);
  }

  lemma CheckAnnounces(cfg: Config, s: State, a: PowAlgo, m: nat, gen: nat)
    requires Shaped(s) && GuardOk(cfg, s) && ToAnnounce(s, a, m, gen) && !s.guard.VIdle?
    requires s.current == Some(a) && s.job.Some?
    ensures ToAnnounce(GuardNext(cfg, s), a, m, gen)
  {
    match s.guard
    case VIdle =>
    case VAlgo(_) =>
    case VHasJob(_) =>
    case VSince(_) =>
    case VClaims(_) =>
    case VStamp(_, _) =>
    case VClaimedAt(_, _) =>
    case VStore(_, _, _) => StoreAnnounces(cfg, s, a, m, gen);
    case VCheck(_) =>
    case VNudge =>
    case VNotify =>
  }

  lemma GenerationGrows(cfg: Config, s: State, e: Event)
    requires Shaped(s) && !e.GuardStep?
    ensures var s' := Next(cfg, s, e); s'.generation >= s.generation && s'.guard == s.guard && s'.marks == s.marks
  {
    GuardKept(cfg, s, e);
    GuardAlone(cfg, s, e);
  }

  lemma StepAnnounces(cfg: Config, s: State, e: Event, a: PowAlgo, m: nat, gen: nat)
    requires Shaped(s) && Inv(cfg, s) && ToAnnounce(s, a, m, gen) && !s.guard.VIdle?
    requires s.current == Some(a) && s.job.Some?
    ensures ToAnnounce(Next(cfg, s, e), a, m, gen)
  {
    if e.GuardStep? { CheckAnnounces(cfg, s, a, m, gen); } else { GenerationGrows(cfg, s, e); }
  }

  /** From `from` to the end one check runs, begun there, and all the while there is a job of PoW `a`. */
  ghost predicate CheckOf(cfg: Config, gpus: nat, cpus: nat, run: seq<Event>, from: nat, a: PowAlgo)
    requires from < |run|
  {
    && run[from].GuardStep? && Run(cfg, gpus, cpus, run[..from]).guard.VIdle?
    && forall p :: from < p < |run| ==>
         var s := Run(cfg, gpus, cpus, run[..p]); !s.guard.VIdle? && s.current == Some(a) && s.job.Some?
  }

  lemma {:induction false} ToAnnounceOn(cfg: Config, gpus: nat, cpus: nat, run: seq<Event>, from: nat, a: PowAlgo)
    requires from < |run| && CheckOf(cfg, gpus, cpus, run, from, a)
    ensures var s0 := Run(cfg, gpus, cpus, run[..from]);
      ToAnnounce(Run(cfg, gpus, cpus, run), a, |s0.marks|, s0.generation)
    decreases |run|
  {
    var was, e := run[..|run| - 1], run[|run| - 1];
    var s, s0 := Run(cfg, gpus, cpus, was), Run(cfg, gpus, cpus, run[..from]);
    if |was| == from {
      assert was == run[..from];
    } else {
      CheckOfBefore(cfg, gpus, cpus, run, from, a);
      assert was[..from] == run[..from];
      ToAnnounceOn(cfg, gpus, cpus, was, from, a);
      EveryRun(cfg, gpus, cpus, was);
      StepAnnounces(cfg, s, e, a, |s0.marks|, s0.generation);
    }
  }

  lemma CheckOfBefore(cfg: Config, gpus: nat, cpus: nat, run: seq<Event>, from: nat, a: PowAlgo)
    requires from + 1 < |run| && CheckOf(cfg, gpus, cpus, run, from, a)
    ensures CheckOf(cfg, gpus, cpus, run[..|run| - 1], from, a)
    ensures var s := Run(cfg, gpus, cpus, run[..|run| - 1]); !s.guard.VIdle? && s.current == Some(a) && s.job.Some?
  {
    var was := run[..|run| - 1];
    forall p | 0 <= p <= |was| ensures was[..p] == run[..p] {}
  }

  /**
   A check that sets a card aside or takes one back, while there is a job and
   its PoW stays, has bumped the generation by the time it is over: whoever
   waits, or mines, looks again.
   */
  lemma ChangesAreAnnounced(cfg: Config, gpus: nat, cpus: nat, run: seq<Event>, from: nat, a: PowAlgo)
    requires from < |run| && CheckOf(cfg, gpus, cpus, run, from, a) && Run(cfg, gpus, cpus, run).guard.VIdle?
    ensures var s0, s := Run(cfg, gpus, cpus, run[..from]), Run(cfg, gpus, cpus, run);
      Changes(s.marks, |s0.marks|) ==> s.generation > s0.generation
  {
    ToAnnounceOn(cfg, gpus, cpus, run, from, a);
  }

  // ----- The next check takes a card back -----

  /** Slot `k` is set aside with nothing to set aside for: it claims nothing (`none`), or has finished a launch since. */
  predicate DueBack(s: State, k: nat, none: bool)
    requires Shaped(s)
  {
    k < |s.gpus| && s.stalled[k] != 0 && (s.claims[k] == {}) == none && (none || s.stamp[k] > s.stalled[k])
  }

  /** Where the check stands: not yet at the slot, at it, about to take it back, or past it with the card back. */
  predicate OnItsWay(s: State, k: nat, none: bool)
    requires Shaped(s)
  {
    match s.guard
    case VIdle => DueBack(s, k, none) || (k < |s.gpus| && s.stalled[k] == 0)
    case VAlgo(c) => c.slot == 0 && DueBack(s, k, none)
    case VHasJob(c) => c.slot == 0 && DueBack(s, k, none)
    case VSince(c) => c.slot == 0 && DueBack(s, k, none)
    case VClaims(c) => k < |s.gpus| && c.slot <= |s.gpus| && if c.slot <= k then DueBack(s, k, none) else s.stalled[k] == 0
    case VStamp(c, claims) =>
      && k < |s.gpus| && c.slot < |s.gpus|
      && if c.slot <= k then DueBack(s, k, none) && (c.slot == k ==> (claims == {}) == none) else s.stalled[k] == 0
    case VClaimedAt(c, _) => k < |s.gpus| && c.slot < |s.gpus| && c.slot != k && if c.slot < k then DueBack(s, k, none) else s.stalled[k] == 0
    case VStore(c, mark, resumed) =>
      && k < |s.gpus| && c.slot < |s.gpus| && (if c.slot <= k then DueBack(s, k, none) else s.stalled[k] == 0)
      && (c.slot == k ==> mark == 0 && resumed == !none)
    case _ => k < |s.gpus| && s.stalled[k] == 0
  }

  lemma CheckGoesOn(cfg: Config, s: State, k: nat, none: bool)
    requires Shaped(s) && GuardOk(cfg, s) && OnItsWay(s, k, none) && !s.guard.VIdle?
    ensures OnItsWay(GuardNext(cfg, s), k, none)
    ensures GuardNext(cfg, s).guard.VIdle? ==> GuardNext(cfg, s).stalled[k] == 0
  {
    match s.guard
    case VIdle =>
    case VAlgo(_) =>
    case VHasJob(_) =>
    case VSince(_) =>
    case VClaims(_) =>
    case VStamp(_, _) =>
    case VClaimedAt(_, _) =>
    case VStore(_, _, _) =>
    case VCheck(_) =>
    case VNudge =>
    case VNotify =>
  }

  lemma OthersLetIt(cfg: Config, s: State, e: Event, k: nat, none: bool)
    requires Shaped(s) && TimesOk(cfg, s) && OnItsWay(s, k, none) && !e.GuardStep? && k < |s.gpus|
    requires (Next(cfg, s, e).claims[k] == {}) == none
    ensures OnItsWay(Next(cfg, s, e), k, none) && Next(cfg, s, e).stalled == s.stalled
  {
    TimesGrow(cfg, s, e);
    GuardAlone(cfg, s, e);
  }

  lemma StepOnItsWay(cfg: Config, s: State, e: Event, k: nat, none: bool)
    requires Shaped(s) && Inv(cfg, s) && OnItsWay(s, k, none) && !s.guard.VIdle? && k < |s.gpus|
    requires (Next(cfg, s, e).claims[k] == {}) == none
    ensures var s' := Next(cfg, s, e); OnItsWay(s', k, none) && (s'.guard.VIdle? ==> s'.stalled[k] == 0)
  {
    if e.GuardStep? {
      CheckGoesOn(cfg, s, k, none);
    } else {
      OthersLetIt(cfg, s, e, k, none);
      GuardKept(cfg, s, e);
    }
  }

  lemma CheckBegins(cfg: Config, s: State, k: nat, none: bool)
    requires Shaped(s) && s.guard.VIdle? && DueBack(s, k, none)
    ensures OnItsWay(GuardNext(cfg, s), k, none) && !GuardNext(cfg, s).guard.VIdle?
  {
  }

  /** The states after `from` up to the end: one check, begun and not yet over, and the card claims something, or nothing, all the while. */
  ghost predicate OneCheck(cfg: Config, gpus: nat, cpus: nat, run: seq<Event>, from: nat, k: nat, none: bool)
    requires from < |run|
  {
    && run[from].GuardStep? && Run(cfg, gpus, cpus, run[..from]).guard.VIdle?
    && (forall p :: from < p < |run| ==> Busy(Run(cfg, gpus, cpus, run[..p])))
    && (forall p :: from <= p <= |run| ==> ClaimsLike(Run(cfg, gpus, cpus, run[..p]), k, none))
  }

  predicate Busy(s: State)
  {
    !s.guard.VIdle?
  }

  predicate ClaimsLike(s: State, k: nat, none: bool)
  {
    k < |s.claims| && (s.claims[k] == {}) == none
  }

  lemma OneCheckBefore(cfg: Config, gpus: nat, cpus: nat, run: seq<Event>, from: nat, k: nat, none: bool)
    requires from + 1 < |run| && OneCheck(cfg, gpus, cpus, run, from, k, none)
    ensures OneCheck(cfg, gpus, cpus, run[..|run| - 1], from, k, none)
    ensures Busy(Run(cfg, gpus, cpus, run[..|run| - 1])) && ClaimsLike(Run(cfg, gpus, cpus, run[..|run| - 1]), k, none)
    ensures ClaimsLike(Run(cfg, gpus, cpus, run), k, none)
  {
    var was := run[..|run| - 1];
    SamePrefixes(run, was);
    AtTheEnd(run);
    assert was == run[..|was|];
  }

  lemma SamePrefixes(run: seq<Event>, was: seq<Event>)
    requires run != [] && was == run[..|run| - 1]
    ensures forall p :: 0 <= p <= |was| ==> was[..p] == run[..p]
    ensures forall p :: 0 <= p < |was| ==> was[p] == run[p]
  {
  }

  lemma {:induction false} CheckOnItsWay(cfg: Config, gpus: nat, cpus: nat, run: seq<Event>, from: nat, k: nat, none: bool)
    requires from < |run| && OneCheck(cfg, gpus, cpus, run, from, k, none) && DueBack(Run(cfg, gpus, cpus, run[..from]), k, none)
    ensures var s := Run(cfg, gpus, cpus, run); OnItsWay(s, k, none) && k < |s.stalled| && (s.guard.VIdle? ==> s.stalled[k] == 0)
    decreases |run|
  {
    var was, e := run[..|run| - 1], run[|run| - 1];
    var s := Run(cfg, gpus, cpus, was);
    if |was| == from {
      CheckBegins(cfg, s, k, none);
      assert was == run[..from];
    } else {
      OneCheckBefore(cfg, gpus, cpus, run, from, k, none);
      assert was[..from] == run[..from];
      CheckOnItsWay(cfg, gpus, cpus, was, from, k, none);
      EveryRun(cfg, gpus, cpus, was);
      StepOnItsWay(cfg, s, e, k, none);
    }
  }

  /**
   A card that was set aside, and has finished a launch since and goes on claiming
   something, or claims nothing any more, is not set aside any more when the next
   check is over, whatever the others do meanwhile.
   */
  lemma NextCheckTakesBack(cfg: Config, gpus: nat, cpus: nat, run: seq<Event>, from: nat, k: nat, none: bool)
    requires from < |run| && OneCheck(cfg, gpus, cpus, run, from, k, none) && DueBack(Run(cfg, gpus, cpus, run[..from]), k, none)
    requires Run(cfg, gpus, cpus, run).guard.VIdle?
    ensures var s := Run(cfg, gpus, cpus, run); k < |s.stalled| && s.stalled[k] == 0
  {
    CheckOnItsWay(cfg, gpus, cpus, run, from, k, none);
  }
}
